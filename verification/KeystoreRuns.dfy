/** Single runs of the keystore update among any others: how long they wait for the lock, that they
    end and give it back, and what a run that is alone makes of the store. */
module KeystoreRuns {
  import opened Wrappers
  import opened Keystore
  import opened KeystoreTheorems

  // ---- The lock is given back ----

  /** At move i the unlink of p's lock failed, which `updateKeystore` ignores. */
  ghost predicate UnlinkFails(s: State, moves: seq<Move>, p: Pid, i: nat)
    requires i < |moves|
  {
    var t, luck := Run(s, moves[..i]), moves[i].luck;
    moves[i].pid == p && (luck == Refused || luck == Breaks) && Alive(t, p) && t.procs[p].pc.Release?
  }

  ghost predicate UnlinkFailed(s: State, moves: seq<Move>, p: Pid) {
    exists i :: 0 <= i < |moves| && UnlinkFails(s, moves, p, i)
  }

  lemma UnlinkFailedSnoc(s: State, moves: seq<Move>, m: Move, p: Pid)
    ensures UnlinkFailed(s, moves + [m], p) <==>
      UnlinkFailed(s, moves, p) || UnlinkFails(s, moves + [m], p, |moves|)
  {
    forall i | 0 <= i < |moves| ensures UnlinkFails(s, moves + [m], p, i) <==> UnlinkFails(s, moves, p, i) {
      assert (moves + [m])[..i] == moves[..i];
    }
  }

  /** Whoever has ended holds the lock exactly if its unlink failed, and nobody else's unlink has. */
  ghost predicate GivenBack(f: Files, p: Pid, r: Proc, failed: bool) {
    if r.pc.Ended? then f.lock == Held(p) <==> failed else !failed
  }

  lemma OwnStepGivesBack(f: Files, init: Store, p: Pid, r: Proc, luck: Luck, failed: bool)
    requires ProcOk(f, init, p, r) && GivenBack(f, p, r, failed) && luck != Dies
    ensures var (g, t) := LocalStep(f, p, r, luck);
      GivenBack(g, p, t, failed || (r.pc.Release? && luck != Works))
  {
  }

  lemma OthersStepGivesBack(f: Files, init: Store, p: Pid, r: Proc, luck: Luck, q: Pid, o: Proc, failed: bool)
    requires ProcOk(f, init, p, r) && luck != Dies && q != p && GivenBack(f, q, o, failed)
    ensures GivenBack(LocalStep(f, p, r, luck).0, q, o, failed)
  {
    LockIsMine(f, p, r, luck);
  }

  lemma {:induction false} LockGivenBack(s: State, moves: seq<Move>, p: Pid)
    requires Initial(s) && p in s.procs
    ensures var t := Run(s, moves); p in t.procs && GivenBack(t.files, p, t.procs[p], UnlinkFailed(s, moves, p))
  {
    if moves != [] {
      var before, m := moves[..|moves| - 1], moves[|moves| - 1];
      assert moves == before + [m];
      LockGivenBack(s, before, p);
      ReachableInv(s, before);
      UnlinkFailedSnoc(s, before, m, p);
      var t, init, failed := Run(s, before), Contents(s.files), UnlinkFailed(s, before, p);
      assert moves[..|before|] == before;
      if Alive(t, m.pid) && m.luck != Dies {
        assert ProcOk(t.files, init, m.pid, t.procs[m.pid]);
        if m.pid == p { OwnStepGivesBack(t.files, init, p, t.procs[p], m.luck, failed); }
        else { OthersStepGivesBack(t.files, init, m.pid, t.procs[m.pid], m.luck, p, t.procs[p], failed); }
      }
    }
  }

  /** Every exit gives the lock back: in every reachable state a process that has ended, however it ended,
      still holds the lock if and only if its own unlink failed. */
  lemma EndedHoldsNoLock(s: State, moves: seq<Move>, p: Pid)
    requires Initial(s) && p in s.procs
    ensures var t := Run(s, moves);
      p in t.procs && (t.procs[p].pc.Ended? ==> (t.files.lock == Held(p) <==> UnlinkFailed(s, moves, p)))
  {
    LockGivenBack(s, moves, p);
  }

  // ---- Giving up ----

  /** This move of p met an error other than EEXIST on the create of the lock file. */
  ghost predicate CreateFails(t: State, m: Move, p: Pid) {
    m.pid == p && (m.luck == Refused || m.luck == Breaks) && Alive(t, p) && t.procs[p].pc.Acquire?
  }

  ghost function CreateFailures(s: State, moves: seq<Move>, p: Pid): nat {
    if moves == [] then 0
    else
      var k := |moves| - 1;
      CreateFailures(s, moves[..k], p) + if CreateFails(Run(s, moves[..k]), moves[k], p) then 1 else 0
  }

  lemma {:induction false} FailuresCounted(s: State, moves: seq<Move>, p: Pid)
    requires Initial(s) && p in s.procs
    ensures var t := Run(s, moves);
      && p in t.procs
      && (t.procs[p].pc.Acquire? && !t.procs[p].crashed ==> t.procs[p].pc.transient == CreateFailures(s, moves, p) <= 3)
  {
    if moves != [] { FailuresCounted(s, moves[..|moves| - 1], p); }
  }

  /** How long a writer waits, exactly: it is in as soon as it finds the lock free; a lock that is taken turns it
      away at its last attempt and not before; any other error at its last attempt, or when it is the fourth. */
  lemma GivesUpExactly(s: State, moves: seq<Move>, p: Pid, luck: Luck)
    requires Initial(s) && p in s.procs && luck != Dies
    requires Alive(Run(s, moves), p) && Run(s, moves).procs[p].pc.Acquire?
    ensures var t, last := Run(s, moves), MovesOf(p, moves) == s.procs[p].retries;
      var pc := Step(t, p, luck).procs[p].pc;
      && (pc.Read? <==> luck == Works && t.files.lock.Free?)
      && (pc == Ended(LockedOut) <==> luck == Works && !t.files.lock.Free? && last)
      && (pc == Ended(Failed) <==> luck != Works && (last || CreateFailures(s, moves, p) == 3))
      && (pc.Acquire? <==>
            !last && if luck == Works then !t.files.lock.Free? else CreateFailures(s, moves, p) < 3)
  {
    AcquisitionBounded(s, moves, p);
    FailuresCounted(s, moves, p);
  }

  // ---- Every run ends ----

  /** How many moves are left at most, once the lock is taken. */
  function MovesLeft(pc: Pc): nat {
    match pc
    case Acquire(_, _) => 9
    case Read => 8
    case OpenTemp(_) => 7
    case FillTemp(_) => 6
    case Rename(_) => 5
    case Park(_) => 4
    case RetryRename(_, _) => 3
    case DropBak => 2
    case Release(_) => 1
    case Ended(_) => 0
  }

  lemma {:induction false} MovesBounded(s: State, moves: seq<Move>, p: Pid)
    requires Initial(s) && p in s.procs
    ensures var t := Run(s, moves);
      && p in t.procs
      && (!t.procs[p].pc.Ended? && !t.procs[p].crashed ==>
            MovesOf(p, moves) + MovesLeft(t.procs[p].pc) <= s.procs[p].retries + 9)
  {
    if moves != [] {
      MovesBounded(s, moves[..|moves| - 1], p);
      AcquisitionBounded(s, moves[..|moves| - 1], p);
      AcquisitionBounded(s, moves, p);
    }
  }

  /** Whatever fails and whoever else runs, a process ends or dies within `retries` + 9 moves of its own. */
  lemma EveryRunEnds(s: State, moves: seq<Move>, p: Pid)
    requires Initial(s) && p in s.procs && MovesOf(p, moves) >= s.procs[p].retries + 9
    ensures var t := Run(s, moves); p in t.procs && (t.procs[p].pc.Ended? || t.procs[p].crashed)
  {
    MovesBounded(s, moves, p);
  }

  // ---- A writer alone ----

  ghost predicate Fresh(t: State, p: Pid) { Alive(t, p) && t.procs[p].pc == Acquire(0, 0) }

  /** Committed by p alone: its mutation of the store before, the lock free again, the others as they were. */
  ghost predicate CommittedAlone(t: State, p: Pid, u: State) {
    && p in t.procs && u.procs.Keys == t.procs.Keys && u.procs[p].pc == Ended(Committed) && !u.procs[p].crashed
    && u.files.lock.Free? && u.files.store == Some(t.procs[p].mutation(Contents(t.files)))
    && u.files.log == t.files.log + [Commit(t.files.grants, t.procs[p].mutation)]
    && (forall q :: q in t.procs && q != p ==> u.procs[q] == t.procs[q])
    && u.files.temps == t.files.temps - {p} && u.files.baks - {p} == t.files.baks - {p}
  }

  function Repeated(m: Move, n: nat): (moves: seq<Move>)
    ensures |moves| == n && forall i :: 0 <= i < n ==> moves[i] == m
  {
    seq(n, i => m)
  }

  /** After that many of its first moves: the lock, the store read, the temp made, the new store whole in it. */
  ghost function Prepared(t: State, p: Pid, k: nat): State
    requires Alive(t, p) && k <= 4
  {
    var next, r := t.procs[p].mutation(Contents(t.files)), t.procs[p].(ticket := t.files.grants);
    var f := t.files.(lock := Held(p), grants := t.files.grants + 1);
    if k == 0 then t
    else if k == 1 then State(f, t.procs[p := r.(pc := Read)])
    else if k == 2 then State(f, t.procs[p := r.(pc := OpenTemp(next))])
    else if k == 3 then State(f.(temps := f.temps[p := Torn]), t.procs[p := r.(pc := FillTemp(next))])
    else State(f.(temps := f.temps[p := Whole(next)]), t.procs[p := r.(pc := Rename(next))])
  }

  lemma NextPrepared(t: State, p: Pid, k: nat)
    requires Fresh(t, p) && t.files.lock.Free? && k < 4
    ensures Step(Prepared(t, p, k), p, Works) == Prepared(t, p, k + 1)
  {
  }

  lemma {:induction false} PreparesAlone(t: State, p: Pid, k: nat)
    requires Fresh(t, p) && t.files.lock.Free? && k <= 4
    ensures Run(t, Repeated(Move(p, Works), k)) == Prepared(t, p, k)
  {
    var go := Move(p, Works);
    if k > 0 {
      PreparesAlone(t, p, k - 1);
      NextPrepared(t, p, k - 1);
      RunSnoc(t, Repeated(go, k - 1), go);
      assert Repeated(go, k) == Repeated(go, k - 1) + [go];
    }
  }

  /** Failed alone after k calls: nothing but the lock's history and p's own temp tells it from the state before. */
  ghost predicate FailedAlone(t: State, p: Pid, k: nat, u: State)
    requires Alive(t, p) && k <= 4
  {
    && u.files == t.files.(grants := t.files.grants + 1, temps := Prepared(t, p, k).files.temps)
    && u.procs == t.procs[p := t.procs[p].(pc := Ended(Failed), ticket := t.files.grants)]
    && (k == 4 ==> p in u.files.temps && u.files.temps[p] == Whole(t.procs[p].mutation(Contents(t.files))))
  }

  lemma FailsAndReleases(t: State, p: Pid, k: nat)
    requires Fresh(t, p) && t.files.lock.Free? && 1 <= k <= 4
    ensures FailedAlone(t, p, k, Step(Step(Prepared(t, p, k), p, Breaks), p, Works))
  {
  }

  /** And when a call fails before the store is replaced, whichever it is, the lone run ends as failed with the
      lock free again and the store as it was; what it wrote stands in its temp. */
  lemma LoneRunFails(t: State, p: Pid, k: nat)
    requires Fresh(t, p) && t.files.lock.Free? && 1 <= k <= 4
    ensures FailedAlone(t, p, k, Run(t, Repeated(Move(p, Works), k) + [Move(p, Breaks)] + [Move(p, Works)]))
  {
    var moves := Repeated(Move(p, Works), k);
    PreparesAlone(t, p, k);
    RunSnoc(t, moves, Move(p, Breaks));
    RunSnoc(t, moves + [Move(p, Breaks)], Move(p, Works));
    FailsAndReleases(t, p, k);
  }

  lemma CommitsAndReleases(t: State, p: Pid)
    requires Fresh(t, p) && t.files.lock.Free?
    ensures CommittedAlone(t, p, Step(Step(Prepared(t, p, 4), p, Works), p, Works))
  {
    assert t.files.temps[p := Whole(t.procs[p].mutation(Contents(t.files)))] - {p} == t.files.temps - {p};
  }

  /** From any state in which the lock is free, a fresh process that runs alone and whose calls work commits
      in six moves and leaves the lock free. */
  lemma LoneRunCommits(t: State, p: Pid)
    requires Fresh(t, p) && t.files.lock.Free?
    ensures var go := Move(p, Works);
      CommittedAlone(t, p, Run(t, Repeated(go, 4) + [go] + [go]))
  {
    var go := Move(p, Works);
    PreparesAlone(t, p, 4);
    RunSnoc(t, Repeated(go, 4), go);
    RunSnoc(t, Repeated(go, 4) + [go], go);
    CommitsAndReleases(t, p);
  }

  ghost function Parked(t: State, p: Pid): State
    requires Alive(t, p) && t.files.store.Some?
  {
    var s, next := Prepared(t, p, 4), t.procs[p].mutation(Contents(t.files));
    State(s.files.(store := None, baks := s.files.baks[p := t.files.store.value]),
          t.procs[p := t.procs[p].(pc := RetryRename(next, true), ticket := t.files.grants)])
  }

  lemma RefusedThenParked(t: State, p: Pid)
    requires Fresh(t, p) && t.files.lock.Free? && t.files.store.Some?
    ensures Step(Step(Prepared(t, p, 4), p, Refused), p, Works) == Parked(t, p)
  {
  }

  /** The rename over the old store is refused, and the old store parked. */
  lemma ParkedAlone(t: State, p: Pid, go: Move)
    requires Fresh(t, p) && t.files.lock.Free? && t.files.store.Some? && go == Move(p, Works)
    ensures Run(t, Repeated(go, 4) + [Move(p, Refused)] + [go]) == Parked(t, p)
  {
    PreparesAlone(t, p, 4);
    RunSnoc(t, Repeated(go, 4), Move(p, Refused));
    RunSnoc(t, Repeated(go, 4) + [Move(p, Refused)], go);
    RefusedThenParked(t, p);
  }

  lemma ParkedCommits(s: State, moves: seq<Move>, p: Pid, go: Move, t: State, next: Store)
    requires t == Run(s, moves) && Alive(t, p) && t.procs[p].pc == RetryRename(next, true) && go == Move(p, Works)
    ensures var r := t.procs[p];
      Run(s, moves + [go] + [go] + [go]) ==
      State(t.files.(store := Some(next), temps := t.files.temps - {p}, last := next, lock := Free,
                     log := t.files.log + [Commit(r.ticket, r.mutation)], baks := t.files.baks - {p}),
            t.procs[p := r.(pc := Ended(Committed))])
  {
    RunSnoc(s, moves, go);
    RunSnoc(s, moves + [go], go);
    RunSnoc(s, moves + [go] + [go], go);
  }

  lemma ParkedIsAlone(t: State, p: Pid, next: Store, u: State)
    requires Alive(t, p) && t.files.store.Some? && next == t.procs[p].mutation(Contents(t.files))
    requires u ==
      State(t.files.(store := Some(next), temps := t.files.temps[p := Whole(next)] - {p}, last := next, lock := Free,
                     grants := t.files.grants + 1,
                     log := t.files.log + [Commit(t.files.grants, t.procs[p].mutation)],
                     baks := t.files.baks[p := t.files.store.value] - {p}),
            t.procs[p := t.procs[p].(pc := Ended(Committed), ticket := t.files.grants)])
    ensures CommittedAlone(t, p, u) && p !in u.files.baks
  {
    assert t.files.temps[p := Whole(next)] - {p} == t.files.temps - {p};
    assert t.files.baks[p := t.files.store.value] - {p} == t.files.baks - {p};
  }

  /** Then the second rename works, the `.bak` is dropped, and the lock is free again just the same. */
  lemma LoneRunParks(t: State, p: Pid)
    requires Fresh(t, p) && t.files.lock.Free? && t.files.store.Some?
    ensures var go := Move(p, Works);
      var u := Run(t, Repeated(go, 4) + [Move(p, Refused)] + [go] + [go] + [go] + [go]);
      CommittedAlone(t, p, u) && p !in u.files.baks
  {
    var go, next := Move(p, Works), t.procs[p].mutation(Contents(t.files));
    ParkedAlone(t, p, go);
    var moves := Repeated(go, 4) + [Move(p, Refused)] + [go];
    ParkedCommits(t, moves, p, go, Run(t, moves), next);
    ParkedIsAlone(t, p, next, Run(t, moves + [go] + [go] + [go]));
  }
}
