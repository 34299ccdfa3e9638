/** What a fresh run meets in every state the initializer can leave, and the runs that leave it stuck. */
module InitializerOutcomes {
  import opened Wrappers
  import opened Initializer
  import opened InitializerTheorems

  // ---- A fresh run, exactly ----

  /** Temp files without a lock, or artifacts without a state file. */
  predicate Blocked(d: Disk) { d.temps != {} || (d.state.None? && d.artifacts != map[]) }

  /** Where it stops at once. */
  ghost predicate Ends(f: Files, p: Pid, ev: seq<nat>, o: Outcome) {
    Solo(f, p, FRESH, ev).0 == f && Solo(f, p, FRESH, ev).1.pc == Ended(o)
  }

  lemma RecoveryMakesBusy(f: Files, p: Pid, ev: seq<nat>)
    requires f.recovery.Some? && OwnerStatus(f.recovery, f.dead) == Active && |ev| >= 1
    ensures Ends(f, p, ev, Busy)
  {
    SoloEnded(f, p, FRESH.(pc := Ended(Busy)), ev[1..]);
  }

  lemma LockMakesBusy(f: Files, p: Pid, ev: seq<nat>)
    requires f.recovery.None? && OwnerStatus(f.lock, f.dead) == Active && |ev| >= 2
    ensures Ends(f, p, ev, Busy)
  {
    assert Solo(f, p, FRESH, ev) == Solo(f, p, FRESH.(pc := CheckLock), ev[1..]);
    assert Solo(f, p, FRESH.(pc := CheckLock), ev[1..]) == Solo(f, p, FRESH.(pc := Ended(Busy)), ev[1..][1..]);
    SoloEnded(f, p, FRESH.(pc := Ended(Busy)), ev[1..][1..]);
  }

  lemma BlockedIsRefused(f: Files, p: Pid, ev: seq<nat>)
    requires f.recovery.None? && f.lock.None? && Blocked(f.disk) && |ev| >= 4
    ensures Ends(f, p, ev, Refused)
  {
    Iterate4(Alone(p), (f, FRESH), ev);
    SoloEnded(f, p, FRESH.(pc := Ended(Refused)), ev[4..]);
  }

  /** A run that met no dead lock: the same steps with nothing recovered. */
  lemma PlainResumes(f: Files, p: Pid, ev: seq<nat>)
    requires f.lock.None? && f.recovery.None? && DiskOk(f.disk) && !Blocked(f.disk) && |ev| >= 6
    requires |CompletedList(f.disk)| < |PLAN|
    ensures Solo(f, p, FRESH, ev)
         == Solo(f.(lock := Some(LockFile(p, true))), p, AtBuild(f.disk).(recovered := false), ev[6..])
  {
    RefusedExactly(f, false, false);
    Iterate4(Alone(p), (f, FRESH), ev);
    var g := f.(lock := Some(LockFile(p, true)));
    RefusedExactly(g, true, false);
    var g0 := f.(lock := Some(LockFile(p, false)));
    assert Solo(f, p, FRESH, ev) == Solo(g0, p, FRESH.(pc := WriteLock), ev[4..]);
    assert Solo(g0, p, FRESH.(pc := WriteLock), ev[4..]) == Solo(g, p, FRESH.(pc := InspectLocked), ev[4..][1..]);
    assert ev[4..][1..][1..] == ev[6..];
  }

  lemma PlainBuilds(f: Files, p: Pid, ev: seq<nat>)
    requires f.lock.None? && f.recovery.None? && DiskOk(f.disk) && !Blocked(f.disk) && p !in f.dead && |ev| >= 27
    requires |CompletedList(f.disk)| < |PLAN|
    ensures var (g, t) := Solo(f, p, FRESH, ev); Finished(f.disk, g, t, Missing(f.disk))
  {
    PlainResumes(f, p, ev);
    var h, r := f.(lock := Some(LockFile(p, true))), AtBuild(f.disk).(recovered := false);
    assert SoloHolder(h, p, r);
    BuildsTheRest(h, p, r, ev[6..]);
  }

  lemma PlainHasAll(f: Files, p: Pid, ev: seq<nat>)
    requires f.lock.None? && f.recovery.None? && DiskOk(f.disk) && !Blocked(f.disk) && |ev| >= 4
    requires |CompletedList(f.disk)| == |PLAN|
    ensures Solo(f, p, FRESH, ev) == (f, FRESH.(pc := Ended(Complete(f.disk.artifacts[PLAN[4]], None))))
  {
    RefusedExactly(f, false, false);
    Iterate4(Alone(p), (f, FRESH), ev);
    SoloEnded(f, p, FRESH.(pc := Ended(Complete(f.disk.artifacts[PLAN[4]], None))), ev[4..]);
  }

  lemma PlainCompletes(f: Files, p: Pid, ev: seq<nat>)
    requires f.lock.None? && f.recovery.None? && DiskOk(f.disk) && !Blocked(f.disk) && p !in f.dead && |ev| >= 27
    ensures var (g, t) := Solo(f, p, FRESH, ev); Finished(f.disk, g, t, Missing(f.disk))
  {
    if |CompletedList(f.disk)| < |PLAN| {
      PlainBuilds(f, p, ev);
    } else {
      PlainHasAll(f, p, ev);
      SameDiskOk(f.disk, f.disk);
    }
  }

  /** A fresh run that is alone, exactly.  In every reachable state it is busy if `.recovery` exists or the
      lock is not known to be dead, refused if no lock stands but temp files do or artifacts without a state
      file, and otherwise completes the plan, whatever kill left the state behind. */
  lemma {:induction false} FreshRunExactly(s0: State, moves: seq<Move>, p: Pid, ev: seq<nat>)
    requires Initial(s0) && AllAllowed(s0, moves) && |ev| >= 33
    requires var s := Run(s0, moves); p in s.procs && p !in s.files.dead && s.procs[p] == FRESH
    ensures var f := Run(s0, moves).files;
      var busy := f.recovery.Some? || OwnerStatus(f.lock, f.dead) == Active;
      var refused := !busy && f.lock.None? && Blocked(f.disk);
      && (busy ==> Ends(f, p, ev, Busy))
      && (refused ==> Ends(f, p, ev, Refused))
      && (!busy && !refused ==> Finished(f.disk, Solo(f, p, FRESH, ev).0, Solo(f, p, FRESH, ev).1, Missing(f.disk)))
  {
    ReachableInv(s0, moves);
    var f := Run(s0, moves).files;
    if f.recovery.Some? {
      RecoveryMakesBusy(f, p, ev);
    } else if OwnerStatus(f.lock, f.dead) == Active {
      LockMakesBusy(f, p, ev);
    } else if f.lock.Some? {
      RecoversFromKill(s0, moves, p, ev);
    } else if Blocked(f.disk) {
      BlockedIsRefused(f, p, ev);
    } else {
      PlainCompletes(f, p, ev);
    }
  }

  // ---- Stuck for ever ----

  /** Not started, about to be refused, or over. */
  predicate Idle(r: Proc) {
    r.pc.Ended? || ((r.pc.CheckRecovery? || r.pc.CheckLock? || r.pc.InspectFirst?) && !r.recovered)
  }

  /** No lock at all, blocked, and no live process under way. */
  ghost predicate Stuck(s: State) {
    && s.files.lock.None? && s.files.recovery.None? && Blocked(s.files.disk)
    && forall p :: p in s.procs && p !in s.files.dead ==> Idle(s.procs[p])
  }

  /** Ended as it was, or refused, or not there yet. */
  ghost predicate OnlyRefused(before: Proc, after: Proc) {
    if before.pc.Ended? then after == before else Idle(after) && (after.pc.Ended? ==> after.pc.outcome == Refused)
  }

  lemma IdleStep(f: Files, p: Pid, r: Proc, luck: Luck)
    requires f.lock.None? && f.recovery.None? && Blocked(f.disk) && Idle(r)
    ensures LocalStep(f, p, r, luck).0 == f && OnlyRefused(r, LocalStep(f, p, r, luck).1)
  {
  }

  /** Whatever runs from there, in any interleaving and with any kills, changes no file, and every run that
      ends is refused. */
  lemma {:induction false} StuckForEver(s: State, moves: seq<Move>)
    requires Stuck(s)
    ensures var t := Run(s, moves);
      && Stuck(t) && t.procs.Keys == s.procs.Keys
      && t.files == s.files.(dead := t.files.dead) && s.files.dead <= t.files.dead
      && forall p :: p in s.procs && p !in t.files.dead ==> OnlyRefused(s.procs[p], t.procs[p])
  {
    if moves != [] {
      var k := |moves| - 1;
      StuckForEver(s, moves[..k]);
      var t, m := Run(s, moves[..k]), moves[k];
      if m.Go? && m.pid in t.procs && m.pid !in t.files.dead { IdleStep(t.files, m.pid, t.procs[m.pid], m.luck); }
    }
  }

  // ---- Concrete runs ----

  function Goes(p: Pid, ev: seq<nat>): (moves: seq<Move>)
    ensures |moves| == |ev| && forall i :: 0 <= i < |ev| ==> moves[i] == Go(p, Works(ev[i]))
  {
    seq(|ev|, i requires 0 <= i < |ev| => Go(p, Works(ev[i])))
  }

  lemma RunSnoc(s: State, moves: seq<Move>, m: Move)
    ensures Run(s, moves + [m]) == Step(Run(s, moves), m)
  {
    assert (moves + [m])[..|moves|] == moves;
  }

  lemma AllowedSnoc(s: State, moves: seq<Move>, m: Move)
    requires AllAllowed(s, moves) && Allowed(Run(s, moves), m)
    ensures AllAllowed(s, moves + [m])
  {
    forall i | 0 <= i < |moves| + 1 ensures Allowed(Run(s, (moves + [m])[..i]), (moves + [m])[i]) {
      assert (moves + [m])[..i] == moves[..i];
      assert moves[..|moves|] == moves;
    }
  }

  /** One more move of p, on files f and with p at r. */
  lemma OneMove(s: State, moves: seq<Move>, procs: map<Pid, Proc>, f: Files, p: Pid, r: Proc, luck: Luck)
    requires p in procs && p !in f.dead && Run(s, moves) == State(f, procs[p := r])
    ensures var (g, t) := LocalStep(f, p, r, luck);
      Run(s, moves + [Go(p, luck)]) == State(g, procs[p := t]) && g.dead == f.dead
    ensures AllAllowed(s, moves) ==> AllAllowed(s, moves + [Go(p, luck)])
  {
    RunSnoc(s, moves, Go(p, luck));
    SameDead(f, p, r, luck);
    if AllAllowed(s, moves) { AllowedSnoc(s, moves, Go(p, luck)); }
    assert procs[p := r][p := LocalStep(f, p, r, luck).1] == procs[p := LocalStep(f, p, r, luck).1];
  }

  lemma SameDead(f: Files, p: Pid, r: Proc, luck: Luck)
    ensures LocalStep(f, p, r, luck).0.dead == f.dead
  {
  }

  lemma GoesHead(moves: seq<Move>, p: Pid, ev: seq<nat>)
    requires ev != []
    ensures (moves + [Go(p, Works(ev[0]))]) + Goes(p, ev[1..]) == moves + Goes(p, ev)
  {
  }

  lemma Iterate1<X>(step: (X, nat) -> X, x: X, ev: seq<nat>)
    requires |ev| >= 1
    ensures Iterate(step, x, ev) == Iterate(step, step(x, ev[0]), ev[1..])
  {
  }

  /** p's moves of a run are p's steps alone. */
  lemma {:induction false} RunsAlone(s: State, moves: seq<Move>, procs: map<Pid, Proc>, f: Files, p: Pid, r: Proc,
                                     ev: seq<nat>)
    requires p in procs && p !in f.dead && Run(s, moves) == State(f, procs[p := r])
    ensures var (g, t) := Solo(f, p, r, ev); Run(s, moves + Goes(p, ev)) == State(g, procs[p := t]) && g.dead == f.dead
    ensures AllAllowed(s, moves) ==> AllAllowed(s, moves + Goes(p, ev))
    decreases |ev|
  {
    if ev == [] {
      assert moves + Goes(p, ev) == moves;
    } else {
      var go := Go(p, Works(ev[0]));
      var (g, t) := LocalStep(f, p, r, Works(ev[0]));
      OneMove(s, moves, procs, f, p, r, Works(ev[0]));
      RunsAlone(s, moves + [go], procs, g, p, t, ev[1..]);
      GoesHead(moves, p, ev);
      Iterate1(Alone(p), (f, r), ev);
    }
  }

  function Empty(dead: set<Pid>): Files { Files(None, None, dead, Disk(None, map[], {})) }

  /** The directory after a first run's first artifact. */
  function OneArtifact(p: Pid, e: nat): Files {
    Files(Some(LockFile(p, true)), None, {}, Disk(None, map[ConfigSurfaces := Observed(ConfigSurfaces, e)], {}))
  }

  function AfterArtifact(e: nat): Proc {
    Proc(StateTemp(Observed(ConfigSurfaces, e)), false, [], [], Some(ConfigSurfaces))
  }

  /** Eight steps: the lock, the inspections, and the first artifact. */
  lemma FirstArtifact(p: Pid, ev: seq<nat>)
    requires |ev| == 8
    ensures Solo(Empty({}), p, FRESH, ev) == (OneArtifact(p, ev[6]), AfterArtifact(ev[6]))
  {
    Iterate4(Alone(p), (Empty({}), FRESH), ev);
    var f4, r4 := Empty({}).(lock := Some(LockFile(p, false))), FRESH.(pc := WriteLock);
    var x := Alone(p)(Alone(p)(Alone(p)(Alone(p)((Empty({}), FRESH), ev[0]), ev[1]), ev[2]), ev[3]);
    assert x == (f4, r4);
    Iterate4(Alone(p), (f4, r4), ev[4..]);
    var f6, r6 := Empty({}).(lock := Some(LockFile(p, true))), FRESH.(pc := Build, from := Some(ConfigSurfaces));
    assert Alone(p)(Alone(p)((f4, r4), ev[4]), ev[5]) == (f6, r6);
    assert Alone(p)(Alone(p)((f6, r6), ev[6]), ev[7]) == (OneArtifact(p, ev[6]), AfterArtifact(ev[6]));
    assert ev[4..][4..] == [];
  }

  const QUIET: seq<nat> := [0, 0, 0, 0, 0, 0, 0, 0]
  const FIVE: seq<nat> := [0, 0, 0, 0, 0]

  lemma ReachesArtifact(s: State, p: Pid)
    requires Initial(s) && p in s.procs
    ensures Run(s, Goes(p, QUIET)) == State(OneArtifact(p, 0), s.procs[p := AfterArtifact(0)])
    ensures AllAllowed(s, Goes(p, QUIET))
  {
    assert [] + Goes(p, QUIET) == Goes(p, QUIET);
    assert s.procs[p := FRESH] == s.procs;
    RunsAlone(s, [], s.procs, Empty({}), p, FRESH, QUIET);
    FirstArtifact(p, QUIET);
  }

  /** The directory once the lock is gone. */
  function Stranded(e: nat, dead: set<Pid>): Files {
    Files(None, None, dead, Disk(None, map[ConfigSurfaces := Observed(ConfigSurfaces, e)], {}))
  }

  lemma StrandedIsStuck(s: State, t: State, e: nat, dead: set<Pid>)
    requires Initial(s) && t.files == Stranded(e, dead)
    requires forall q :: q in t.procs && q !in dead ==>
      t.procs[q].pc.Ended? || (q in s.procs && t.procs[q] == s.procs[q])
    ensures Stuck(t)
  {
    assert ConfigSurfaces in t.files.disk.artifacts;
  }

  lemma StateWriteFails(p: Pid, e: nat)
    ensures LocalStep(OneArtifact(p, e), p, AfterArtifact(e), Breaks) ==
      (OneArtifact(p, e), AfterArtifact(e).(pc := Unlock(Failed)))
    ensures LocalStep(OneArtifact(p, e), p, AfterArtifact(e).(pc := Unlock(Failed)), Works(0)) ==
      (Stranded(e, {}), AfterArtifact(e).(pc := Ended(Failed)))
  {
  }

  /** Without any kill: the first state file cannot be written, the lock is released all the same, and what
      is left is stuck. */
  lemma FailedWriteStrands(s: State, p: Pid) returns (moves: seq<Move>)
    requires Initial(s) && p in s.procs
    ensures AllAllowed(s, moves) && forall i :: 0 <= i < |moves| ==> moves[i].Go? && moves[i].pid == p
    ensures Run(s, moves) == State(Stranded(0, {}), s.procs[p := AfterArtifact(0).(pc := Ended(Failed))])
    ensures Stuck(Run(s, moves))
  {
    ReachesArtifact(s, p);
    moves := WriteFails(s, Goes(p, QUIET), s.procs, p);
    StrandedIsStuck(s, Run(s, moves), 0, {});
  }

  lemma WriteFails(s: State, moves: seq<Move>, procs: map<Pid, Proc>, p: Pid) returns (more: seq<Move>)
    requires p in procs && Run(s, moves) == State(OneArtifact(p, 0), procs[p := AfterArtifact(0)])
    requires AllAllowed(s, moves)
    ensures more == moves + [Go(p, Breaks)] + [Go(p, Works(0))] && AllAllowed(s, more)
    ensures Run(s, more) == State(Stranded(0, {}), procs[p := AfterArtifact(0).(pc := Ended(Failed))])
  {
    var r := AfterArtifact(0);
    StateWriteFails(p, 0);
    OneMove(s, moves, procs, OneArtifact(p, 0), p, r, Breaks);
    OneMove(s, moves + [Go(p, Breaks)], procs, OneArtifact(p, 0), p, r.(pc := Unlock(Failed)), Works(0));
    more := moves + [Go(p, Breaks)] + [Go(p, Works(0))];
  }

  lemma KillMove(s: State, moves: seq<Move>, procs: map<Pid, Proc>, f: Files, p: Pid)
    requires Run(s, moves) == State(f, procs)
    ensures Run(s, moves + [Kill(p)]) == State(f.(dead := f.dead + {p}), procs)
    ensures AllAllowed(s, moves) && f.recovery.None? ==> AllAllowed(s, moves + [Kill(p)])
  {
    RunSnoc(s, moves, Kill(p));
    if AllAllowed(s, moves) && f.recovery.None? { AllowedSnoc(s, moves, Kill(p)); }
  }

  /** With two kills: of the first run before its first state file, and of the second right after it dropped
      the dead lock.  What is left is stuck as well. */
  lemma SecondKillStrands(s: State, p: Pid, q: Pid) returns (moves: seq<Move>)
    requires Initial(s) && p in s.procs && q in s.procs && p != q
    ensures moves == Goes(p, QUIET) + [Kill(p)] + Goes(q, QUIET) + [Kill(q)] && AllAllowed(s, moves)
    ensures Run(s, moves).files == Stranded(0, {p, q}) && Stuck(Run(s, moves))
  {
    ReachesArtifact(s, p);
    moves := Goes(p, QUIET);
    KillMove(s, moves, s.procs[p := AfterArtifact(0)], OneArtifact(p, 0), p);
    moves := RecoversAndDies(s, moves + [Kill(p)], s.procs[p := AfterArtifact(0)], p, q);
    var t := Run(s, moves);
    assert t.files.dead == {p, q};
    StrandedIsStuck(s, t, 0, {p, q});
  }

  lemma RecoversAndDies(s: State, moves: seq<Move>, procs: map<Pid, Proc>, p: Pid, q: Pid) returns (more: seq<Move>)
    requires q in procs && procs[q] == FRESH && p != q && AllAllowed(s, moves)
    requires Run(s, moves) == State(OneArtifact(p, 0).(dead := {} + {p}), procs)
    ensures more == moves + Goes(q, QUIET) + [Kill(q)] && AllAllowed(s, more)
    ensures Run(s, more) ==
      State(Stranded(0, {} + {p} + {q}), procs[q := FRESH.(pc := InspectFirst, recovered := true)])
  {
    var f := OneArtifact(p, 0).(dead := {} + {p});
    assert procs[q := FRESH] == procs;
    RunsAlone(s, moves, procs, f, q, FRESH, QUIET);
    RecoversStranded(p, q);
    var r := FRESH.(pc := InspectFirst, recovered := true);
    KillMove(s, moves + Goes(q, QUIET), procs[q := r], Stranded(0, {} + {p}), q);
    more := moves + Goes(q, QUIET) + [Kill(q)];
  }

  lemma RecoversStranded(p: Pid, q: Pid)
    ensures Solo(OneArtifact(p, 0).(dead := {} + {p}), q, FRESH, QUIET) ==
      (Stranded(0, {} + {p}), FRESH.(pc := InspectFirst, recovered := true))
  {
    var f := OneArtifact(p, 0).(dead := {} + {p});
    Recovers(f, q, QUIET);
    assert QUIET[8..] == [];
    assert Cleared(f) == Stranded(0, {} + {p});
  }

  // ---- Why nobody may die owning a written `.recovery` ----

  /** a's dead lock, with `.recovery` as given. */
  function DeadOwner(a: Pid, recovery: Option<LockFile>, dead: set<Pid>): Files {
    Files(Some(LockFile(a, true)), recovery, dead, Disk(None, map[], {}))
  }

  lemma TakesLock(a: Pid)
    ensures Solo(Empty({}), a, FRESH, FIVE) == (DeadOwner(a, None, {}), FRESH.(pc := InspectLocked))
  {
    var ev := FIVE;
    Iterate4(Alone(a), (Empty({}), FRESH), ev);
    Iterate1(Alone(a), (Empty({}).(lock := Some(LockFile(a, false))), FRESH.(pc := WriteLock)), ev[4..]);
  }

  lemma TakesRecovery(a: Pid, b: Pid, dead: set<Pid>)
    requires a in dead
    ensures Solo(DeadOwner(a, None, dead), b, FRESH, [0, 0, 0, 0]) ==
      (DeadOwner(a, Some(LockFile(b, true)), dead), FRESH.(pc := Recheck))
  {
    Iterate4(Alone(b), (DeadOwner(a, None, dead), FRESH), [0, 0, 0, 0]);
  }

  lemma SeesDeadRecovery(a: Pid, b: Pid, dead: set<Pid>, p: Pid)
    requires b in dead
    ensures Solo(DeadOwner(a, Some(LockFile(b, true)), dead), p, FRESH, [0]) ==
      (DeadOwner(a, Some(LockFile(b, true)), dead), FRESH.(pc := ClearRecovery))
  {
    Iterate1(Alone(p), (DeadOwner(a, Some(LockFile(b, true)), dead), FRESH), [0]);
  }

  /** From a `.recovery` it saw dead, through its own, to the cleanup. */
  lemma ReplacesRecovery(a: Pid, l: LockFile, dead: set<Pid>, q: Pid)
    requires a in dead
    ensures Solo(DeadOwner(a, Some(l), dead), q, FRESH.(pc := ClearRecovery), FIVE) ==
      (DeadOwner(a, Some(LockFile(q, true)), dead), FRESH.(pc := Clean))
  {
    var ev := FIVE;
    var f := DeadOwner(a, Some(l), dead);
    Iterate4(Alone(q), (f, FRESH.(pc := ClearRecovery)), ev);
    Iterate1(Alone(q), (DeadOwner(a, Some(LockFile(q, true)), dead), FRESH.(pc := Recheck)), ev[4..]);
  }

  /** From the cleanup to the exclusive create of its own lock: it drops whatever lock and `.recovery` stand. */
  lemma DropsAndTakes(f: Files, p: Pid)
    requires f.disk == Disk(None, map[], {})
    ensures Solo(f, p, FRESH.(pc := Clean), FIVE) ==
      (Files(Some(LockFile(p, false)), None, f.dead, f.disk), FRESH.(pc := WriteLock, recovered := true))
  {
    var ev := FIVE;
    var g := f.(lock := None, recovery := None);
    Iterate4(Alone(p), (f, FRESH.(pc := Clean)), ev);
    Iterate1(Alone(p), (g, FRESH.(pc := OpenLock, recovered := true)), ev[4..]);
  }

  ghost predicate OnlyKills(moves: seq<Move>, a: Pid, b: Pid) {
    forall i :: 0 <= i < |moves| && moves[i].Kill? ==> moves[i].pid == a || moves[i].pid == b
  }

  /** p runs alone on files f, where the processes stand at ps. */
  lemma Leg(s: State, moves: seq<Move>, ps: map<Pid, Proc>, f: Files, p: Pid, ev: seq<nat>, a: Pid, b: Pid)
    returns (qs: map<Pid, Proc>, more: seq<Move>)
    requires p in ps && p !in f.dead && Run(s, moves) == State(f, ps) && OnlyKills(moves, a, b)
    ensures Run(s, more) == State(Solo(f, p, ps[p], ev).0, qs) && qs == ps[p := Solo(f, p, ps[p], ev).1]
    ensures OnlyKills(more, a, b)
  {
    assert ps[p := ps[p]] == ps;
    RunsAlone(s, moves, ps, f, p, ps[p], ev);
    qs, more := ps[p := Solo(f, p, ps[p], ev).1], moves + Goes(p, ev);
  }

  lemma LegKill(s: State, moves: seq<Move>, ps: map<Pid, Proc>, f: Files, p: Pid, a: Pid, b: Pid)
    returns (more: seq<Move>)
    requires Run(s, moves) == State(f, ps) && OnlyKills(moves, a, b) && p in {a, b}
    ensures Run(s, more) == State(f.(dead := f.dead + {p}), ps) && OnlyKills(more, a, b)
  {
    KillMove(s, moves, ps, f, p);
    more := moves + [Kill(p)];
  }

  /** a is killed holding the lock, and b after it has written `.recovery`. */
  lemma RecovererDies(s: State, a: Pid, b: Pid) returns (ps: map<Pid, Proc>, moves: seq<Move>)
    requires Initial(s) && a in s.procs && b in s.procs && a != b
    ensures Run(s, moves) == State(DeadOwner(a, Some(LockFile(b, true)), {} + {a} + {b}), ps) && OnlyKills(moves, a, b)
    ensures ps.Keys == s.procs.Keys && forall x :: x in ps && x != a && x != b ==> ps[x] == FRESH
  {
    TakesLock(a);
    ps, moves := Leg(s, [], s.procs, Empty({}), a, FIVE, a, b);
    moves := LegKill(s, moves, ps, DeadOwner(a, None, {}), a, a, b);
    TakesRecovery(a, b, {} + {a});
    ps, moves := Leg(s, moves, ps, DeadOwner(a, None, {} + {a}), b, [0, 0, 0, 0], a, b);
    moves := LegKill(s, moves, ps, DeadOwner(a, Some(LockFile(b, true)), {} + {a}), b, a, b);
  }

  lemma BothSeeItDead(s: State, moves: seq<Move>, ps: map<Pid, Proc>, dead: set<Pid>, a: Pid, b: Pid, p: Pid, q: Pid)
    returns (qs: map<Pid, Proc>, more: seq<Move>)
    requires Run(s, moves) == State(DeadOwner(a, Some(LockFile(b, true)), dead), ps) && OnlyKills(moves, a, b)
    requires b in dead && p in ps && q in ps && ps[p] == ps[q] == FRESH && p != q && p !in dead && q !in dead
    ensures Run(s, more) == State(DeadOwner(a, Some(LockFile(b, true)), dead), qs) && OnlyKills(more, a, b)
    ensures p in qs && q in qs && qs[p] == qs[q] == FRESH.(pc := ClearRecovery)
  {
    var f := DeadOwner(a, Some(LockFile(b, true)), dead);
    SeesDeadRecovery(a, b, dead, p);
    SeesDeadRecovery(a, b, dead, q);
    qs, more := Leg(s, moves, ps, f, p, [0], a, b);
    qs, more := Leg(s, more, qs, f, q, [0], a, b);
  }

  lemma BothReachTheCleanup(s: State, moves: seq<Move>, ps: map<Pid, Proc>, dead: set<Pid>, a: Pid, b: Pid, p: Pid,
                            q: Pid)
    returns (qs: map<Pid, Proc>, more: seq<Move>)
    requires Run(s, moves) == State(DeadOwner(a, Some(LockFile(b, true)), dead), ps) && OnlyKills(moves, a, b)
    requires a in dead
    requires p in ps && q in ps && ps[p] == ps[q] == FRESH.(pc := ClearRecovery) && p != q && p !in dead && q !in dead
    ensures Run(s, more) == State(DeadOwner(a, Some(LockFile(p, true)), dead), qs) && OnlyKills(more, a, b)
    ensures p in qs && q in qs && qs[p] == qs[q] == FRESH.(pc := Clean)
  {
    ReplacesRecovery(a, LockFile(b, true), dead, q);
    qs, more := Leg(s, moves, ps, DeadOwner(a, Some(LockFile(b, true)), dead), q, FIVE, a, b);
    ReplacesRecovery(a, LockFile(q, true), dead, p);
    qs, more := Leg(s, more, qs, DeadOwner(a, Some(LockFile(q, true)), dead), p, FIVE, a, b);
  }

  lemma BothTakeTheLock(s: State, moves: seq<Move>, ps: map<Pid, Proc>, f: Files, a: Pid, b: Pid, p: Pid, q: Pid)
    returns (qs: map<Pid, Proc>, more: seq<Move>)
    requires Run(s, moves) == State(f, ps) && OnlyKills(moves, a, b) && f.disk == Disk(None, map[], {})
    requires p in ps && q in ps && ps[p] == ps[q] == FRESH.(pc := Clean) && p != q && p !in f.dead && q !in f.dead
    ensures Run(s, more).procs == qs && Run(s, more).files.dead == f.dead && OnlyKills(more, a, b)
    ensures p in qs && q in qs && qs[p].pc == qs[q].pc == WriteLock
  {
    DropsAndTakes(f, p);
    qs, more := Leg(s, moves, ps, f, p, FIVE, a, b);
    var g := Files(Some(LockFile(p, false)), None, f.dead, f.disk);
    DropsAndTakes(g, q);
    qs, more := Leg(s, more, qs, g, q, FIVE, a, b);
  }

  /** If a recovering run b could die owning its `.recovery`, two later runs may both find it dead; the slower
      one removes the faster one's `.recovery`, and then the faster one removes the slower one's live lock. */
  lemma TwoHolders(s: State, a: Pid, b: Pid, p: Pid, q: Pid) returns (moves: seq<Move>)
    requires Initial(s) && {a, b, p, q} <= s.procs.Keys && a != b && p != q && {a, b} !! {p, q}
    ensures OnlyKills(moves, a, b)
    ensures var t := Run(s, moves);
      && p in t.procs && q in t.procs && p !in t.files.dead && q !in t.files.dead
      && Holding(t.procs[p].pc) && Holding(t.procs[q].pc)
  {
    var ps;
    var dead := {} + {a} + {b};
    assert p !in {a, b} && q !in {a, b} by { assert p in {p, q} && q in {p, q}; }
    ps, moves := RecovererDies(s, a, b);
    ps, moves := BothSeeItDead(s, moves, ps, dead, a, b, p, q);
    ps, moves := BothReachTheCleanup(s, moves, ps, dead, a, b, p, q);
    ps, moves := BothTakeTheLock(s, moves, ps, DeadOwner(a, Some(LockFile(p, true)), dead), a, b, p, q);
  }
}
