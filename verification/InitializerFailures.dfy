/** Runs of the initializer that fail: the lock is given back, the disk is left as far as the
    run got, and what the next run makes of it. */
module InitializerFailures {
  import opened Wrappers
  import opened Initializer
  import opened InitializerTheorems
  import opened InitializerOutcomes

  // ---- The lock is given back ----

  predicate Alive(s: State, p: Pid) { p in s.procs && p !in s.files.dead }

  /** This move breaks a call of p: the unlink of its lock, which is ignored, or the write of its pid. */
  ghost predicate Breaking(t: State, m: Move, p: Pid, unlink: bool) {
    m == Go(p, Breaks) && Alive(t, p) && if unlink then t.procs[p].pc.Unlock? else t.procs[p].pc.WriteLock?
  }

  ghost predicate Broke(s: State, moves: seq<Move>, p: Pid, unlink: bool) {
    exists i :: 0 <= i < |moves| && Breaking(Run(s, moves[..i]), moves[i], p, unlink)
  }

  lemma BrokeSnoc(s: State, moves: seq<Move>, m: Move, p: Pid, unlink: bool)
    ensures Broke(s, moves + [m], p, unlink) <==> Broke(s, moves, p, unlink) || Breaking(Run(s, moves), m, p, unlink)
  {
    var all := moves + [m];
    assert all[..|moves|] == moves && all[|moves|] == m;
    assert forall i :: 0 <= i < |moves| ==> all[..i] == moves[..i] && all[i] == moves[i];
  }

  predicate Owns(f: Files, p: Pid) { f.lock.Some? && f.lock.value.owner == p }

  /** Who neither holds the lock nor has ended owns none; who has ended owns the lock whose unlink broke, or
      the unwritten one. */
  ghost predicate GivenBack(f: Files, p: Pid, pc: Pc, unlinkBroke: bool, writeBroke: bool) {
    if pc.Ended? then
      (f.lock == Some(LockFile(p, true)) <==> unlinkBroke) && (f.lock == Some(LockFile(p, false)) <==> writeBroke)
    else
      !unlinkBroke && !writeBroke && (Owns(f, p) ==> Holding(pc))
  }

  lemma BuilderKeepsLock(f: Files, p: Pid, r: Proc, luck: Luck)
    requires Building(r.pc)
    ensures var (g, t) := LocalStep(f, p, r, luck); g.lock == f.lock && Holding(t.pc) && !t.pc.WriteLock?
  {
  }

  lemma UnlockerGivesBack(f: Files, p: Pid, r: Proc, luck: Luck, u: bool, w: bool)
    requires ProcOk(f, p, r) && GivenBack(f, p, r.pc, u, w) && !Building(r.pc)
    ensures var (g, t) := LocalStep(f, p, r, luck);
      GivenBack(g, p, t.pc, u || (luck.Breaks? && r.pc.Unlock?), w || (luck.Breaks? && r.pc.WriteLock?))
  {
  }

  lemma OwnStepGivesBack(f: Files, p: Pid, r: Proc, luck: Luck, u: bool, w: bool)
    requires ProcOk(f, p, r) && GivenBack(f, p, r.pc, u, w)
    ensures var (g, t) := LocalStep(f, p, r, luck);
      GivenBack(g, p, t.pc, u || (luck.Breaks? && r.pc.Unlock?), w || (luck.Breaks? && r.pc.WriteLock?))
  {
    if Building(r.pc) { BuilderKeepsLock(f, p, r, luck); } else { UnlockerGivesBack(f, p, r, luck, u, w); }
  }

  lemma OthersStepGivesBack(f: Files, p: Pid, r: Proc, luck: Luck, q: Pid, pc: Pc, u: bool, w: bool)
    requires ProcOk(f, p, r) && p != q && q !in f.dead && GivenBack(f, q, pc, u, w)
    ensures GivenBack(LocalStep(f, p, r, luck).0, q, pc, u, w)
  {
    LockMoves(f, p, r, luck, q);
  }

  /** A step of p takes nobody else's lock file away unless its owner is dead, and gives nobody else one. */
  lemma LockMoves(f: Files, p: Pid, r: Proc, luck: Luck, q: Pid)
    requires ProcOk(f, p, r) && p != q && q !in f.dead
    ensures var g := LocalStep(f, p, r, luck).0; g.lock == f.lock || (!Owns(f, q) && !Owns(g, q))
  {
  }

  ghost predicate Returned(t: State, p: Pid, u: bool, w: bool) {
    Alive(t, p) ==> GivenBack(t.files, p, t.procs[p].pc, u, w)
  }

  lemma MoveGivesBack(t: State, m: Move, p: Pid, u: bool, w: bool)
    requires Inv(t) && Returned(t, p, u, w)
    ensures Returned(Step(t, m), p, u || Breaking(t, m, p, true), w || Breaking(t, m, p, false))
  {
    if m.Go? && Alive(t, m.pid) && Alive(t, p) {
      assert ProcOk(t.files, m.pid, t.procs[m.pid]);
      if m.pid == p { OwnStepGivesBack(t.files, p, t.procs[p], m.luck, u, w); }
      else { OthersStepGivesBack(t.files, m.pid, t.procs[m.pid], m.luck, p, t.procs[p].pc, u, w); }
    }
  }

  lemma {:induction false} LockGivenBack(s: State, moves: seq<Move>, p: Pid)
    requires Initial(s) && AllAllowed(s, moves)
    ensures Returned(Run(s, moves), p, Broke(s, moves, p, true), Broke(s, moves, p, false))
  {
    if moves != [] {
      var k := |moves| - 1;
      var before, m := moves[..k], moves[k];
      AllowedBefore(s, moves, k);
      LockGivenBack(s, before, p);
      ReachableInv(s, before);
      assert moves == before + [m];
      BrokeSnoc(s, before, m, p, true);
      BrokeSnoc(s, before, m, p, false);
      MoveGivesBack(Run(s, before), m, p, Broke(s, before, p, true), Broke(s, before, p, false));
    }
  }

  /** Every exit gives the lock back.  In every reachable state a live process that has ended, however it ended,
      owns a written lock exactly if its own unlink broke, and an unwritten one exactly if the write of its pid
      did. */
  lemma EndedOwnsNoLock(s: State, moves: seq<Move>, p: Pid)
    requires Initial(s) && AllAllowed(s, moves) && Alive(Run(s, moves), p) && Run(s, moves).procs[p].pc.Ended?
    ensures var f := Run(s, moves).files;
      && (f.lock == Some(LockFile(p, true)) <==> Broke(s, moves, p, true))
      && (f.lock == Some(LockFile(p, false)) <==> Broke(s, moves, p, false))
  {
    LockGivenBack(s, moves, p);
  }

  // ---- A lone run that fails ----

  /** Where a fresh run that is alone gets to build something. */
  ghost predicate CanBuild(f: Files) {
    && (DeadLock(f) || (f.lock.None? && f.recovery.None? && !Blocked(f.disk)))
    && DiskOk(f.disk) && |CompletedList(f.disk)| < |PLAN|
  }

  /** Its moves up to the first checkpoint. */
  function Lead(f: Files): nat { if f.lock.None? then 6 else 12 }

  /** The builder at the first missing checkpoint. */
  ghost predicate AtFirst(f: Files, p: Pid, h: Files, r: Proc) {
    && SoloHolder(h, p, r) && h.lock == Some(LockFile(p, true)) && h.dead == f.dead
    && h.disk == f.disk.(temps := {}) && r.completed == CompletedList(f.disk)
  }

  lemma StartsBuilding(f: Files, p: Pid, ev: seq<nat>) returns (h: Files, r: Proc)
    requires CanBuild(f) && p !in f.dead && |ev| >= Lead(f)
    ensures AtFirst(f, p, h, r) && Solo(f, p, FRESH, ev) == Solo(h, p, r, ev[Lead(f)..])
  {
    if f.lock.None? {
      PlainResumes(f, p, ev);
      h, r := f.(lock := Some(LockFile(p, true))), AtBuild(f.disk).(recovered := false);
    } else {
      Recovers(f, p, ev);
      SameDiskOk(f.disk, Cleared(f).disk);
      Resumes(Cleared(f), p, ev[8..]);
      h, r := Cleared(f).(lock := Some(LockFile(p, true))), AtBuild(Cleared(f).disk);
      assert ev[8..][4..] == ev[12..];
    }
  }

  /** After m more checkpoints. */
  ghost predicate Further(h: Files, r: Proc, g: Files, t: Proc, p: Pid, m: nat) {
    && SoloHolder(g, p, t) && g.lock == h.lock && g.dead == h.dead
    && |t.completed| == |r.completed| + m && Extends(h.disk, g.disk)
    && (m == 0 ==> g.disk == h.disk)
    && (m > 0 ==> g.disk.state.Some? && PLAN[|t.completed|] !in g.disk.artifacts)
  }

  lemma OneFurther(h: Files, p: Pid, r: Proc, ev: seq<nat>) returns (g: Files, t: Proc)
    requires SoloHolder(h, p, r) && |r.completed| + 1 < |PLAN| && |ev| >= 4
    ensures Further(h, r, g, t, p, 1) && Solo(h, p, r, ev) == Solo(g, p, t, ev[4..])
  {
    CheckpointSteps(h, p, r, ev);
    CheckpointKeeps(h, p, r, ev[0]);
    g, t := After(h, p, r, ev[0]).0, After(h, p, r, ev[0]).1;
  }

  lemma NoFurther(h: Files, p: Pid, r: Proc)
    requires SoloHolder(h, p, r)
    ensures Further(h, r, h, r, p, 0)
  {
    ExtendsItself(h.disk);
  }

  lemma DropFour(ev: seq<nat>, m: nat)
    requires m > 0 && 4 * m <= |ev|
    ensures ev[4..][4 * (m - 1)..] == ev[4 * m..]
  {
  }

  lemma MoreFurther(h: Files, r: Proc, h1: Files, r1: Proc, g: Files, t: Proc, p: Pid, m: nat)
    requires m > 0 && Further(h, r, h1, r1, p, 1) && Further(h1, r1, g, t, p, m - 1)
    ensures Further(h, r, g, t, p, m)
  {
    ExtendsTransitive(h.disk, h1.disk, g.disk);
  }

  lemma {:induction false} BuildsSome(h: Files, p: Pid, r: Proc, ev: seq<nat>, m: nat) returns (g: Files, t: Proc)
    requires SoloHolder(h, p, r) && |r.completed| + m < |PLAN| && |ev| >= 4 * m
    ensures Further(h, r, g, t, p, m) && Solo(h, p, r, ev) == Solo(g, p, t, ev[4 * m..])
    decreases m
  {
    if m == 0 {
      g, t := h, r;
      NoFurther(h, p, r);
      assert ev[0..] == ev;
    } else {
      var h1, r1 := OneFurther(h, p, r, ev);
      g, t := BuildsSome(h1, p, r1, ev[4..], m - 1);
      MoreFurther(h, r, h1, r1, g, t, p, m);
      DropFour(ev, m);
    }
  }

  /** What a break at that stage of a checkpoint, and the release after it, leave of the builder's files. */
  ghost function Aborted(g: Files, t: Proc, stage: nat, evidence: nat): Files
    requires AtCheckpoint(t)
  {
    var k, d := |t.completed|, g.disk;
    var a := RunCheckpoint(k, evidence, t.artifacts);
    g.(lock := None, disk := d.(artifacts := if stage >= 2 then d.artifacts[PLAN[k] := a] else d.artifacts))
  }

  /** p's next call breaks; then it releases its lock. */
  ghost function BreakAndRelease(x: (Files, Proc), p: Pid): (Files, Proc) {
    var y := LocalStep(x.0, p, x.1, Breaks);
    LocalStep(y.0, p, y.1, Works(0))
  }

  /** The builder after that many calls of a checkpoint. */
  ghost function AtStage(g: Files, p: Pid, t: Proc, stage: nat, evidence: nat): (Files, Proc)
    requires AtCheckpoint(t) && stage < 4
  {
    var k, d := |t.completed|, g.disk;
    var a := RunCheckpoint(k, evidence, t.artifacts);
    var e := d.(artifacts := d.artifacts[PLAN[k] := a]);
    if stage == 0 then (g, t)
    else if stage == 1 then (g.(disk := d.(temps := {p})), t.(pc := PublishArtifact(a)))
    else if stage == 2 then (g.(disk := e), t.(pc := StateTemp(a)))
    else (g.(disk := e.(temps := {p})), t.(pc := PublishState(a)))
  }

  lemma ReachesStage(g: Files, p: Pid, t: Proc, stage: nat, evidence: nat, e: nat)
    requires AtCheckpoint(t) && t.pc.Build? && g.disk.temps == {} && stage < 3 && (stage == 0 ==> e == evidence)
    ensures var (h, u) := AtStage(g, p, t, stage, evidence);
      LocalStep(h, p, u, Works(e)) == AtStage(g, p, t, stage + 1, evidence)
  {
    assert g.disk.temps + {p} == {p} && {p} - {p} == g.disk.temps;
  }

  lemma {:induction false} SoloStage(g: Files, p: Pid, t: Proc, ev: seq<nat>, i: nat)
    requires AtCheckpoint(t) && t.pc.Build? && g.disk.temps == {} && i <= |ev| < 4
    ensures var evidence := if ev == [] then 0 else ev[0];
      var (h, u) := AtStage(g, p, t, i, evidence); Solo(h, p, u, ev[i..]) == AtStage(g, p, t, |ev|, evidence)
    decreases |ev| - i
  {
    if i < |ev| {
      var (h, u) := AtStage(g, p, t, i, ev[0]);
      ReachesStage(g, p, t, i, ev[0], ev[i]);
      Iterate1(Alone(p), (h, u), ev[i..]);
      assert ev[i..][1..] == ev[i + 1..];
      SoloStage(g, p, t, ev, i + 1);
    } else {
      assert ev[i..] == [];
    }
  }

  lemma StageAborts(g: Files, p: Pid, t: Proc, stage: nat, evidence: nat)
    requires AtCheckpoint(t) && t.pc.Build? && g.disk.temps == {} && stage < 4
    ensures var (h, u) := AtStage(g, p, t, stage, evidence);
      LocalStep(h, p, u, Breaks) ==
      (Aborted(g, t, stage, evidence).(lock := g.lock), u.(pc := Unlock(Failed)))
  {
    assert {p} - {p} == g.disk.temps;
  }

  lemma StageBreaks(g: Files, p: Pid, t: Proc, stage: nat, ev: seq<nat>)
    requires AtCheckpoint(t) && t.pc.Build? && g.disk.temps == {} && |ev| == stage < 4
    ensures var x := BreakAndRelease(Solo(g, p, t, ev), p);
      x.0 == Aborted(g, t, stage, if ev == [] then 0 else ev[0]) && x.1.pc == Ended(Failed)
  {
    assert ev[0..] == ev;
    SoloStage(g, p, t, ev, 0);
    StageAborts(g, p, t, stage, if ev == [] then 0 else ev[0]);
    assert Solo(g, p, t, ev) == AtStage(g, p, t, stage, if ev == [] then 0 else ev[0]);
  }

  lemma AbortedKeeps(g: Files, p: Pid, t: Proc, stage: nat, evidence: nat)
    requires SoloHolder(g, p, t) && stage < 4
    ensures var d := Aborted(g, t, stage, evidence).disk; DiskOk(d) && Extends(g.disk, d)
  {
    var a := RunCheckpoint(|t.completed|, evidence, t.artifacts);
    NextArtifactExtends(g.disk, Aborted(g, t, stage, evidence).disk, a);
    if stage >= 2 {
      FirstHalfKeeps(g, p, t, a);
      assert Aborted(g, t, stage, evidence).disk ==
        g.disk.(artifacts := g.disk.artifacts[PLAN[|t.completed|] := a], temps := {});
    }
  }

  /** What a run leaves that built m checkpoints and failed at that stage of the next: no lock, no temp file,
      m more entries in the list, and the artifact it was at only if that was already published. */
  ghost predicate LeftBy(f: Files, g: Files, m: nat, stage: nat) {
    var k := |CompletedList(f.disk)| + m;
    && g.lock.None? && g.recovery.None? && g.disk.temps == {} && g.dead == f.dead
    && DiskOk(g.disk) && Extends(f.disk, g.disk) && |CompletedList(g.disk)| == k < |PLAN|
    && (g.disk.state.None? <==> m == 0 && f.disk.state.None?)
    && (PLAN[k] in g.disk.artifacts <==> stage >= 2 || (m == 0 && PLAN[k] in f.disk.artifacts))
  }

  lemma AbortedIsLeft(f: Files, p: Pid, h: Files, r: Proc, g: Files, t: Proc, m: nat, stage: nat, evidence: nat)
    requires DiskOk(f.disk) && AtFirst(f, p, h, r) && Further(h, r, g, t, p, m) && stage < 4
    ensures LeftBy(f, Aborted(g, t, stage, evidence), m, stage)
  {
    AbortedKeeps(g, p, t, stage, evidence);
    SameDiskOk(f.disk, h.disk);
    ExtendsTransitive(f.disk, h.disk, g.disk);
    ExtendsTransitive(f.disk, g.disk, Aborted(g, t, stage, evidence).disk);
  }

  lemma FailsAlone(f: Files, p: Pid, m: nat, stage: nat, ev: seq<nat>)
    requires CanBuild(f) && p !in f.dead && |CompletedList(f.disk)| + m < |PLAN| && stage < 4
    requires |ev| == Lead(f) + 4 * m + stage
    ensures var x := BreakAndRelease(Solo(f, p, FRESH, ev), p); x.1.pc == Ended(Failed) && LeftBy(f, x.0, m, stage)
  {
    var h, r := StartsBuilding(f, p, ev);
    var g, t := BuildsSome(h, p, r, ev[Lead(f)..], m);
    var rest := ev[Lead(f)..][4 * m..];
    StageBreaks(g, p, t, stage, rest);
    AbortedIsLeft(f, p, h, r, g, t, m, stage, if rest == [] then 0 else rest[0]);
  }

  /** p's moves: everything works up to that stage, the next call breaks, the unlink works. */
  function FailingMoves(p: Pid, ev: seq<nat>): seq<Move> { Goes(p, ev) + [Go(p, Breaks)] + [Go(p, Works(0))] }

  lemma TwoMoves(s: State, moves: seq<Move>, procs: map<Pid, Proc>, g: Files, p: Pid, t: Proc)
    requires p in procs && p !in g.dead && Run(s, moves) == State(g, procs[p := t])
    ensures var x := BreakAndRelease((g, t), p);
      Run(s, moves + [Go(p, Breaks)] + [Go(p, Works(0))]) == State(x.0, procs[p := x.1])
    ensures AllAllowed(s, moves) ==> AllAllowed(s, moves + [Go(p, Breaks)] + [Go(p, Works(0))])
  {
    OneMove(s, moves, procs, g, p, t, Breaks);
    var (h, u) := LocalStep(g, p, t, Breaks);
    OneMove(s, moves + [Go(p, Breaks)], procs, h, p, u, Works(0));
  }

  lemma FailingRun(s: State, moves: seq<Move>, procs: map<Pid, Proc>, f: Files, p: Pid, ev: seq<nat>)
    requires p in procs && p !in f.dead && Run(s, moves) == State(f, procs[p := FRESH])
    ensures var x := BreakAndRelease(Solo(f, p, FRESH, ev), p);
      Run(s, moves + FailingMoves(p, ev)) == State(x.0, procs[p := x.1])
    ensures AllAllowed(s, moves) ==> AllAllowed(s, moves + FailingMoves(p, ev))
  {
    RunsAlone(s, moves, procs, f, p, FRESH, ev);
    var (g, t) := Solo(f, p, FRESH, ev);
    TwoMoves(s, moves + Goes(p, ev), procs, g, p, t);
    assert moves + FailingMoves(p, ev) == moves + Goes(p, ev) + [Go(p, Breaks)] + [Go(p, Works(0))];
  }

  /** Fail wherever it may: from every reachable state in which a fresh run gets to build something, a break at
      any stage of any checkpoint ends the run as failed with the lock given back and the disk as far as it got. */
  lemma FailedRunReleases(s0: State, moves: seq<Move>, p: Pid, m: nat, stage: nat, ev: seq<nat>)
    requires Initial(s0) && AllAllowed(s0, moves)
    requires var s := Run(s0, moves); Alive(s, p) && s.procs[p] == FRESH && CanBuild(s.files)
    requires var f := Run(s0, moves).files;
      |CompletedList(f.disk)| + m < |PLAN| && stage < 4 && |ev| == Lead(f) + 4 * m + stage
    ensures AllAllowed(s0, moves + FailingMoves(p, ev))
    ensures var s, t := Run(s0, moves), Run(s0, moves + FailingMoves(p, ev));
      && p in t.procs && t.procs == s.procs[p := t.procs[p]] && t.procs[p].pc == Ended(Failed)
      && LeftBy(s.files, t.files, m, stage)
  {
    var s := Run(s0, moves);
    assert s.procs[p := FRESH] == s.procs;
    FailingRun(s0, moves, s.procs, s.files, p, ev);
    FailsAlone(s.files, p, m, stage, ev);
  }

  lemma OnlyPlanned(d: Disk)
    requires DiskOk(d) && CompletedList(d) == []
    ensures d.artifacts != map[] <==> PLAN[0] in d.artifacts
  {
    if PLAN[0] !in d.artifacts {
      forall c: Checkpoint ensures c !in d.artifacts {
        assert c == PLAN[0] || c == PLAN[1] || c == PLAN[2] || c == PLAN[3] || c == PLAN[4];
      }
      assert d.artifacts == map[];
    }
  }

  /** And the next run, alone in its turn: refused exactly if the directory was left with the first artifact and
      no state file, which takes a failure before the first checkpoint is listed; else it completes the plan. */
  lemma NextRunExactly(s0: State, moves: seq<Move>, p: Pid, m: nat, stage: nat, ev: seq<nat>, q: Pid, ev': seq<nat>)
    requires Initial(s0) && AllAllowed(s0, moves)
    requires var s := Run(s0, moves); Alive(s, p) && s.procs[p] == FRESH && CanBuild(s.files)
    requires var f := Run(s0, moves).files;
      |CompletedList(f.disk)| + m < |PLAN| && stage < 4 && |ev| == Lead(f) + 4 * m + stage
    requires var s := Run(s0, moves); Alive(s, q) && q != p && s.procs[q] == FRESH && |ev'| >= 33
    ensures var f, g := Run(s0, moves).files, Run(s0, moves + FailingMoves(p, ev)).files;
      if m == 0 && f.disk.state.None? && (stage >= 2 || PLAN[0] in f.disk.artifacts) then Ends(g, q, ev', Refused)
      else Finished(g.disk, Solo(g, q, FRESH, ev').0, Solo(g, q, FRESH, ev').1,
                    Some(PLAN[|CompletedList(f.disk)| + m]))
  {
    FailedRunReleases(s0, moves, p, m, stage, ev);
    var f, g := Run(s0, moves).files, Run(s0, moves + FailingMoves(p, ev)).files;
    FreshRunExactly(s0, moves + FailingMoves(p, ev), q, ev');
    if g.disk.state.None? { OnlyPlanned(g.disk); }
  }

  // ---- A recovery that fails ----

  lemma DropBreaks(f: Files, p: Pid, ev: seq<nat>)
    requires DeadLock(f) && |ev| == 6
    ensures var x := BreakAndRelease(Solo(f, p, FRESH, ev), p);
      x.0 == f.(disk := f.disk.(temps := {})) && x.1.pc == Ended(Failed)
  {
    Iterate4(Alone(p), (f, FRESH), ev);
    var g := f.(recovery := Some(LockFile(p, true)));
    Iterate1(Alone(p), (g, FRESH.(pc := Recheck)), ev[4..]);
    Iterate1(Alone(p), (g, FRESH.(pc := Clean)), ev[4..][1..]);
    assert ev[4..][1..][1..] == [];
    assert Solo(f, p, FRESH, ev) == (g.(disk := g.disk.(temps := {})), FRESH.(pc := DropLock));
  }

  /** A dead lock that cannot be removed: the run fails and takes its `.recovery` back, the dead lock stands, and
      the next run, alone, recovers and completes after all. */
  lemma FailedRecoveryIsRepeated(s0: State, moves: seq<Move>, p: Pid, ev: seq<nat>, q: Pid, ev': seq<nat>)
    requires Initial(s0) && AllAllowed(s0, moves)
    requires var s := Run(s0, moves); Alive(s, p) && s.procs[p] == FRESH && DeadLock(s.files) && |ev| == 6
    requires var s := Run(s0, moves); Alive(s, q) && q != p && s.procs[q] == FRESH && |ev'| >= 33
    ensures var s, t := Run(s0, moves), Run(s0, moves + FailingMoves(p, ev)); var d := s.files.disk.(temps := {});
      && t.files == s.files.(disk := d) && p in t.procs && t.procs[p].pc == Ended(Failed)
      && Finished(d, Solo(t.files, q, FRESH, ev').0, Solo(t.files, q, FRESH, ev').1, Missing(d))
  {
    var s := Run(s0, moves);
    assert s.procs[p := FRESH] == s.procs;
    FailingRun(s0, moves, s.procs, s.files, p, ev);
    DropBreaks(s.files, p, ev);
    FreshRunExactly(s0, moves + FailingMoves(p, ev), q, ev');
  }

  lemma CleanBreaks(f: Files, p: Pid)
    requires f.recovery == Some(LockFile(p, true)) && f.disk.temps != {}
    ensures var x := LocalStep(f, p, FRESH.(pc := Clean), Breaks);
      var (g, r) := Solo(x.0, p, x.1, [0, 0, 0]);
      g == f.(lock := None, recovery := None) && r.pc == Ended(Refused)
  {
    var x := LocalStep(f, p, FRESH.(pc := Clean), Breaks);
    Iterate1(Alone(p), x, [0, 0, 0]);
    Iterate1(Alone(p), (f.(lock := None), FRESH.(pc := CloseRecovery(Recovered))), [0, 0]);
    Iterate1(Alone(p), (f.(lock := None, recovery := None), FRESH.(pc := InspectFirst, recovered := true)), [0]);
  }

  /** But a temp file that cannot be removed is left behind without a lock, and the directory with it is refused
      from then on. */
  lemma LeftTempIsRefused(f: Files, p: Pid, ev: seq<nat>)
    requires DeadLock(f) && f.disk.temps != {} && |ev| == 5
    ensures var (h, u) := Solo(f, p, FRESH, ev); var x := LocalStep(h, p, u, Breaks);
      var (g, r) := Solo(x.0, p, x.1, [0, 0, 0]);
      g == f.(lock := None) && r.pc == Ended(Refused) && Blocked(g.disk)
  {
    Iterate4(Alone(p), (f, FRESH), ev);
    var h := f.(recovery := Some(LockFile(p, true)));
    Iterate1(Alone(p), (h, FRESH.(pc := Recheck)), ev[4..]);
    assert Solo(f, p, FRESH, ev) == (h, FRESH.(pc := Clean));
    CleanBreaks(h, p);
  }
}
