/** What the keystore protocol guarantees over every interleaving, crash and failed call. */
module KeystoreTheorems {
  import opened Wrappers
  import opened Keystore

  lemma {:induction false} ReachableInv(s: State, moves: seq<Move>)
    requires Initial(s)
    ensures Inv(Run(s, moves), Contents(s.files))
  {
    if moves != [] {
      var init, m := moves[..|moves| - 1], moves[|moves| - 1];
      ReachableInv(s, init);
      StepKeepsInv(Run(s, init), Contents(s.files), m.pid, m.luck);
    }
  }

  ghost predicate AllCommits(log: seq<Event>) { forall i :: 0 <= i < |log| ==> log[i].Commit? }

  /** Every committed mutation, one at a time, nothing forgotten. */
  ghost function Applied(init: Store, log: seq<Event>): Store {
    if log == [] then init
    else
      var e, before := log[|log| - 1], Applied(init, log[..|log| - 1]);
      if e.Commit? then e.mutation(before) else before
  }

  /** What was committed after the last loss. */
  ghost function Since(log: seq<Event>): seq<Event> {
    if log == [] || log[|log| - 1].Lost? then [] else Since(log[..|log| - 1]) + [log[|log| - 1]]
  }

  lemma AppliedSnoc(init: Store, log: seq<Event>, e: Event)
    requires e.Commit?
    ensures Applied(init, log + [e]) == e.mutation(Applied(init, log))
  {
    assert (log + [e])[..|log|] == log;
  }

  lemma CommitsSnoc(log: seq<Event>, e: Event)
    ensures AllCommits(log + [e]) <==> AllCommits(log) && e.Commit?
  {
    assert forall i :: 0 <= i < |log| ==> log[i] == (log + [e])[i];
    assert (log + [e])[|log|] == e;
  }

  lemma {:induction false} FoldIsApplied(init: Store, log: seq<Event>)
    ensures Fold(init, log) == Applied(if AllCommits(log) then init else EMPTY, Since(log))
    ensures AllCommits(log) ==> Since(log) == log
  {
    if log != [] {
      var before, e := log[..|log| - 1], log[|log| - 1];
      FoldIsApplied(init, before);
      assert log == before + [e];
      CommitsSnoc(before, e);
      if e.Commit? { AppliedSnoc(if AllCommits(before) then init else EMPTY, Since(before), e); }
    }
  }

  /** The store, exactly: whenever nobody holds the lock, the store file is what was committed since the
      last loss, one mutation at a time in lock order; it starts from the initial store if there was no
      loss, and from nothing if there was one. */
  lemma StoreExactly(s: State, moves: seq<Move>)
    requires Initial(s) && !Run(s, moves).files.lock.Held?
    ensures var f := Run(s, moves).files;
      && Contents(f) == Applied(if AllCommits(f.log) then Contents(s.files) else EMPTY, Since(f.log))
      && (forall i :: 0 < i < |f.log| ==> f.log[i - 1].ticket < f.log[i].ticket)
  {
    ReachableInv(s, moves);
    FoldIsApplied(Contents(s.files), Run(s, moves).files.log);
  }

  /** No lost update without a loss: the store holds every committed mutation, applied in lock order. */
  lemma NoLostUpdate(s: State, moves: seq<Move>)
    requires Initial(s) && !Run(s, moves).files.lock.Held? && AllCommits(Run(s, moves).files.log)
    ensures var f := Run(s, moves).files; Contents(f) == Applied(Contents(s.files), f.log)
  {
    StoreExactly(s, moves);
    FoldIsApplied(Contents(s.files), Run(s, moves).files.log);
  }

  predicate Alive(t: State, p: Pid) { p in t.procs && !t.procs[p].crashed }

  /** The one exit that loses: the store was parked, and the rename fails again. */
  predicate Loses(t: State, p: Pid, luck: Luck) {
    Alive(t, p) && (luck == Refused || luck == Breaks) && t.procs[p].pc.RetryRename? && t.procs[p].pc.parked
  }

  predicate Commits(t: State, p: Pid, luck: Luck) {
    Alive(t, p) && luck == Works && (t.procs[p].pc.Rename? || t.procs[p].pc.RetryRename?)
  }

  lemma LocalLogs(f: Files, init: Store, p: Pid, r: Proc, luck: Luck)
    requires ProcOk(f, init, p, r) && luck != Dies
    ensures var g := LocalStep(f, p, r, luck).0;
      var loses := luck != Works && r.pc.RetryRename? && r.pc.parked;
      var commits := luck == Works && (r.pc.Rename? || r.pc.RetryRename?);
      && (loses ==> g.log == f.log + [Lost(r.ticket)] && g.store == None)
      && (commits ==> g.log == f.log + [Commit(r.ticket, r.mutation)])
      && (!loses && !commits ==> g.log == f.log)
  {
    match r.pc
    case RetryRename(_, _) =>
    case _ =>
  }

  /** In every reachable state the history grows by a loss at that exit, by a commit at a rename that
      works, and nowhere else; and a loss empties the store file. */
  lemma LosesExactly(s: State, moves: seq<Move>, p: Pid, luck: Luck)
    requires Initial(s)
    ensures var t := Run(s, moves); var log := Step(t, p, luck).files.log;
      && (log == t.files.log <==> !Loses(t, p, luck) && !Commits(t, p, luck))
      && (Loses(t, p, luck) ==> log == t.files.log + [Lost(t.procs[p].ticket)])
      && (Loses(t, p, luck) ==> Step(t, p, luck).files.store == None)
      && (Commits(t, p, luck) ==> log == t.files.log + [Commit(t.procs[p].ticket, t.procs[p].mutation)])
  {
    ReachableInv(s, moves);
    StepLogs(Run(s, moves), Contents(s.files), p, luck);
  }

  lemma StepLogs(t: State, init: Store, p: Pid, luck: Luck)
    requires Inv(t, init)
    ensures var log := Step(t, p, luck).files.log;
      && (log == t.files.log <==> !Loses(t, p, luck) && !Commits(t, p, luck))
      && (Loses(t, p, luck) ==> log == t.files.log + [Lost(t.procs[p].ticket)])
      && (Loses(t, p, luck) ==> Step(t, p, luck).files.store == None)
      && (Commits(t, p, luck) ==> log == t.files.log + [Commit(t.procs[p].ticket, t.procs[p].mutation)])
  {
    if Alive(t, p) && luck != Dies { LocalLogs(t.files, init, p, t.procs[p], luck); }
  }

  /** Nothing is destroyed even then: at every instant, crash or not, the last committed
      store is whole in the store file or a `.bak`, every store lost by that exit still
      stands in its `.bak`, and while the old store is parked the new one is whole in the temp. */
  lemma AlwaysRecoverable(s: State, moves: seq<Move>)
    requires Initial(s)
    ensures var t := Run(s, moves);
      && Intact(t.files)
      && (forall q :: q in t.files.lost ==> q in t.files.baks && t.files.baks[q] == t.files.lost[q])
      && (forall p :: p in t.procs && t.procs[p].pc.RetryRename? ==>
            && p in t.files.temps && t.files.temps[p] == Whole(t.procs[p].pc.next)
            && (t.procs[p].pc.parked ==> p in t.files.baks)
            && t.procs[p].pc.next == t.procs[p].mutation(Fold(Contents(s.files), t.files.log)))
  {
    ReachableInv(s, moves);
  }

  /** Mutual exclusion, and nobody frees a lock someone else took. */
  lemma LocksAreOwned(s: State, moves: seq<Move>, p: Pid, q: Pid, luck: Luck)
    requires Initial(s)
    ensures var t := Run(s, moves);
      && (p in t.procs && q in t.procs && Inside(t.procs[p].pc) && Inside(t.procs[q].pc) ==> p == q)
      && (!t.files.lock.Free? && Step(t, p, luck).files.lock != t.files.lock ==>
            Step(t, p, luck).files.lock == Free && t.files.lock == Held(p))
  {
    ReachableInv(s, moves);
    var t := Run(s, moves);
    if !t.files.lock.Free? && Step(t, p, luck).files.lock != t.files.lock {
      FreesOnlyItsOwn(t, Contents(s.files), p, luck);
    }
  }

  lemma FreesOnlyItsOwn(t: State, init: Store, p: Pid, luck: Luck)
    requires Inv(t, init) && !t.files.lock.Free? && Step(t, p, luck).files.lock != t.files.lock
    ensures Step(t, p, luck).files.lock == Free && t.files.lock == Held(p)
  {
    assert p in t.procs && ProcOk(t.files, init, p, t.procs[p]);
  }

  /** A lock file nobody owns shuts every process out for good: no later run touches the store. */
  lemma {:induction false} OwnerlessForEver(s: State, moves: seq<Move>, later: seq<Move>)
    requires Initial(s) && Run(s, moves).files.lock.Ownerless?
    ensures Run(s, moves + later).files.lock.Ownerless?
    ensures Run(s, moves + later).files.store == Run(s, moves).files.store
  {
    if later == [] {
      assert moves + later == moves;
    } else {
      var before, m := later[..|later| - 1], later[|later| - 1];
      OwnerlessForEver(s, moves, before);
      ReachableInv(s, moves + before);
      assert moves + later == (moves + before) + [m];
      RunSnoc(s, moves + before, m);
      var t := Run(s, moves + before);
      if m.pid in t.procs { assert ProcOk(t.files, Contents(s.files), m.pid, t.procs[m.pid]); }
    }
  }

  predicate Holds(s: Store, id: KeyId, e: Entry) { id in s.keys && s.keys[id] == e }

  /** Neither takes the entry away nor puts it there. */
  ghost predicate LeavesAlone(m: Mutation, id: KeyId, e: Entry) {
    forall s: Store :: Holds(m(s), id, e) <==> Holds(s, id, e)
  }

  /** A writer leaves every other key's entry alone, and no other. */
  lemma WriterLeaves(id: KeyId, e: Entry, other: KeyId, mine: Entry)
    ensures LeavesAlone(PutEntry(other, mine), id, e) <==> other != id
  {
    if other == id {
      var s := if mine == e then EMPTY else Store(map[id := e]);
      assert Holds(PutEntry(other, mine)(s), id, e) != Holds(s, id, e);
    }
  }

  /** A remover leaves an entry alone exactly if it does not list the key or, the scan having a start,
      the entry was minted at or after it. */
  lemma RemoverLeaves(id: KeyId, e: Entry, ids: set<KeyId>, mintedBefore: Option<int>)
    ensures LeavesAlone(RemoveEntries(ids, mintedBefore), id, e) <==>
      id !in ids || (mintedBefore.Some? && e.createdAt >= mintedBefore.value)
  {
    var s := Store(map[id := e]);
    if Prunable(id, e, ids, mintedBefore) {
      assert Holds(s, id, e) && !Holds(RemoveEntries(ids, mintedBefore)(s), id, e);
    }
  }

  lemma {:induction false} EntryExactly(init: Store, log: seq<Event>, i: nat, id: KeyId, e: Entry)
    requires i < |log| && log[i].Commit? && log[i].mutation == PutEntry(id, e)
    requires forall j :: i < j < |log| && log[j].Commit? ==> LeavesAlone(log[j].mutation, id, e)
    ensures Holds(Fold(init, log), id, e) <==> forall j :: i < j < |log| ==> log[j].Commit?
  {
    var before, last := log[..|log| - 1], log[|log| - 1];
    if i < |log| - 1 {
      EntryExactly(init, before, i, id, e);
      if last.Commit? {
        assert LeavesAlone(last.mutation, id, e);
        assert (forall j :: i < j < |log| ==> log[j].Commit?) <==> forall j :: i < j < |before| ==> before[j].Commit?;
      }
    }
  }

  /** What a writer may rely on, exactly: it reported success, so as long as later commits leave its entry
      alone, its entry is in the store whenever nobody holds the lock, if and only if no loss came after it. */
  lemma CommittedEntrySurvives(s: State, moves: seq<Move>, p: Pid, id: KeyId, e: Entry)
    requires Initial(s) && !Run(s, moves).files.lock.Held?
    requires p in Run(s, moves).procs && Run(s, moves).procs[p].pc == Ended(Committed)
    requires Run(s, moves).procs[p].mutation == PutEntry(id, e)
    requires var t := Run(s, moves); forall c :: c in t.files.log && c.ticket > t.procs[p].ticket && c.Commit? ==>
      LeavesAlone(c.mutation, id, e)
    ensures var t := Run(s, moves);
      Holds(Contents(t.files), id, e) <==> forall c :: c in t.files.log && c.ticket > t.procs[p].ticket ==> c.Commit?
  {
    ReachableInv(s, moves);
    var f, r := Run(s, moves).files, Run(s, moves).procs[p];
    assert ProcOk(f, Contents(s.files), p, r);
    var i :| 0 <= i < |f.log| && f.log[i] == Commit(r.ticket, r.mutation);
    LaterTickets(f.log, i);
    EntryExactly(Contents(s.files), f.log, i, id, e);
  }

  lemma LaterTickets(log: seq<Event>, i: nat)
    requires i < |log| && forall k :: 0 < k < |log| ==> log[k - 1].ticket < log[k].ticket
    ensures forall j :: 0 <= j < |log| ==> (log[j].ticket > log[i].ticket <==> j > i)
  {
    forall j | 0 <= j < |log| ensures log[j].ticket > log[i].ticket <==> j > i {
      TicketsAscend(log, i);
      TicketsAscend(log, j);
    }
  }

  lemma {:induction false} TicketsAscend(log: seq<Event>, i: nat)
    requires i < |log| && forall k :: 0 < k < |log| ==> log[k - 1].ticket < log[k].ticket
    ensures forall j :: i < j < |log| ==> log[i].ticket < log[j].ticket
  {
    if i < |log| - 1 {
      TicketsAscend(log[..|log| - 1], i);
      assert log[..|log| - 1][|log| - 2] == log[|log| - 2];
      if i < |log| - 2 { assert log[..|log| - 1][i].ticket < log[..|log| - 1][|log| - 2].ticket; }
    }
  }

  // ---- Acquisition is bounded ----

  ghost function MovesOf(p: Pid, moves: seq<Move>): nat {
    if moves == [] then 0
    else MovesOf(p, moves[..|moves| - 1]) + if moves[|moves| - 1].pid == p then 1 else 0
  }

  /** A live process still waiting has used one attempt per move and has some left. */
  lemma {:induction false} AcquisitionBounded(s: State, moves: seq<Move>, p: Pid)
    requires Initial(s) && p in s.procs
    ensures var t := Run(s, moves);
      && p in t.procs && t.procs[p].retries == s.procs[p].retries
      && (t.procs[p].pc.Acquire? && !t.procs[p].crashed ==>
            t.procs[p].pc.attempt == MovesOf(p, moves) <= s.procs[p].retries)
  {
    if moves != [] {
      AcquisitionBounded(s, moves[..|moves| - 1], p);
    }
  }

  /** After `retries` + 1 attempts the process has the lock, has given up, or is dead. */
  lemma AcquisitionStops(s: State, moves: seq<Move>, p: Pid)
    requires Initial(s) && p in s.procs && MovesOf(p, moves) > s.procs[p].retries
    ensures var t := Run(s, moves); p in t.procs && (t.procs[p].pc.Acquire? ==> t.procs[p].crashed)
  {
    AcquisitionBounded(s, moves, p);
  }

  // ---- The lost update, concretely ----

  const OLD := Entry("old", 1)

  ghost function Before(): Files {
    Files(Some(Store(map["a" := OLD])), Free, map[], map[], [], 0, Store(map["a" := OLD]), map[])
  }

  ghost function Writer(pc: Pc): Proc { Proc(PutEntry("b", OLD), 50, pc, false, 0) }

  ghost function Start(): State { State(Before(), map[1 := Writer(Acquire(0, 0))]) }

  lemma RunSnoc(s: State, moves: seq<Move>, m: Move)
    ensures Run(s, moves + [m]) == Step(Run(s, moves), m.pid, m.luck)
  {
    assert (moves + [m])[..|moves|] == moves;
  }

  /** Lock, read, temp: ready to rename. */
  lemma Prepares() returns (moves: seq<Move>, next: Store)
    ensures next == PutEntry("b", OLD)(Store(map["a" := OLD]))
    ensures Run(Start(), moves) == State(Before().(lock := Held(1), grants := 1, temps := map[1 := Whole(next)]),
                                         map[1 := Writer(Rename(next))])
  {
    next := PutEntry("b", OLD)(Store(map["a" := OLD]));
    var go := Move(1, Works);
    RunSnoc(Start(), [], go);
    RunSnoc(Start(), [] + [go], go);
    RunSnoc(Start(), [] + [go] + [go], go);
    RunSnoc(Start(), [] + [go] + [go] + [go], go);
    moves := [] + [go] + [go] + [go] + [go];
  }

  lemma ParksAndLoses(s: State, next: Store)
    requires s ==
      State(Before().(lock := Held(1), grants := 1, temps := map[1 := Whole(next)]), map[1 := Writer(Rename(next))])
    ensures var t := Step(Step(Step(Step(s, 1, Refused), 1, Works), 1, Breaks), 1, Works);
      && t.files.lock.Free? && t.files.store == None && t.files.baks == map[1 := Store(map["a" := OLD])]
      && t.files.log == [Lost(0)]
  {
    var t := Step(Step(s, 1, Refused), 1, Works);
    assert t.procs[1].pc == RetryRename(next, true) && t.files.baks == map[1 := Store(map["a" := OLD])];
  }

  /** One writer, one existing key "a": the rename is refused, the old store is parked, the
      second rename fails, the lock is freed.  The store now reads as empty although no
      committed mutation ever removed "a". */
  lemma LostUpdateHappens() returns (moves: seq<Move>)
    ensures Initial(Start()) && "a" in Contents(Start().files).keys
    ensures var f := Run(Start(), moves).files;
      && f.lock.Free? && "a" !in Contents(f).keys && f.baks == map[1 := Store(map["a" := OLD])]
      && "a" in Applied(Contents(Start().files), f.log).keys
  {
    var m, next := Prepares();
    var s := State(Before().(lock := Held(1), grants := 1, temps := map[1 := Whole(next)]),
                   map[1 := Writer(Rename(next))]);
    moves := m + [Move(1, Refused)] + [Move(1, Works)] + [Move(1, Breaks)] + [Move(1, Works)];
    RunSnoc(Start(), m, Move(1, Refused));
    RunSnoc(Start(), m + [Move(1, Refused)], Move(1, Works));
    RunSnoc(Start(), m + [Move(1, Refused)] + [Move(1, Works)], Move(1, Breaks));
    RunSnoc(Start(), m + [Move(1, Refused)] + [Move(1, Works)] + [Move(1, Breaks)], Move(1, Works));
    ParksAndLoses(s, next);
  }
}
