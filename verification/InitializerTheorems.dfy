/** Safety of the initializer over every interleaving and kill, and recovery from a kill. */
module InitializerTheorems {
  import opened Wrappers
  import opened Initializer

  /** At most one live process is between `acquireLock` and its release, and temp-file
      cleanup runs only over a dead owner's lock, so never beside a live holder. */
  lemma {:induction false} LiveHolderIsAlone(s: State, moves: seq<Move>, p: Pid, q: Pid)
    requires Initial(s) && AllAllowed(s, moves)
    requires var t := Run(s, moves); p in t.procs && q in t.procs && p !in t.files.dead && q !in t.files.dead
    requires Holding(Run(s, moves).procs[p].pc)
    ensures var t := Run(s, moves);
      && (Holding(t.procs[q].pc) ==> p == q)
      && !t.procs[q].pc.Clean? && !t.procs[q].pc.DropLock?
  {
    ReachableInv(s, moves);
    var t := Run(s, moves);
    assert ProcOk(t.files, p, t.procs[p]) && ProcOk(t.files, q, t.procs[q]);
  }

  /** After any run, kills included: the completed list is a prefix of the plan, every
      listed artifact on disk has its digest and was built from the ones before it; and
      a report any process returned is the one on disk, built from the other four. */
  lemma {:induction false} DiskIsConsistent(s: State, moves: seq<Move>)
    requires Initial(s) && AllAllowed(s, moves)
    ensures var t := Run(s, moves);
      && DiskOk(t.files.disk)
      && (forall p :: p in t.procs && p !in t.files.dead && t.procs[p].pc.Ended? ==>
            ReportOk(t.files.disk, t.procs[p].pc.outcome))
  {
    ReachableInv(s, moves);
    var t := Run(s, moves);
    forall p | p in t.procs && p !in t.files.dead && t.procs[p].pc.Ended?
      ensures ReportOk(t.files.disk, t.procs[p].pc.outcome)
    {
      assert ProcOk(t.files, p, t.procs[p]);
    }
  }

  /** The list only grows, and what it lists never changes. */
  ghost predicate Extends(before: Disk, after: Disk) {
    && CompletedList(before) <= CompletedList(after)
    && (forall i :: 0 <= i < |CompletedList(before)| ==>
          var id := CompletedList(before)[i].id;
          id in before.artifacts && id in after.artifacts && after.artifacts[id] == before.artifacts[id])
  }

  /** Publishing the next artifact touches nothing listed. */
  lemma NextArtifactExtends(d: Disk, e: Disk, a: Artifact)
    requires DiskOk(d) && |CompletedList(d)| < |PLAN| && CompletedList(d) <= CompletedList(e)
    requires e.artifacts == d.artifacts || e.artifacts == d.artifacts[PLAN[|CompletedList(d)|] := a]
    ensures Extends(d, e)
  {
    var c := CompletedList(d);
    assert forall i :: 0 <= i < |c| ==> Matches(d, c[i]) && c[i].id == PLAN[i] && PLAN[i] != PLAN[|c|];
  }

  lemma ExtendsItself(d: Disk)
    requires DiskOk(d)
    ensures Extends(d, d)
  {
    assert forall i :: 0 <= i < |CompletedList(d)| ==> Matches(d, CompletedList(d)[i]);
  }

  lemma BuildExtends(f: Files, p: Pid, r: Proc, luck: Luck)
    requires FilesOk(f) && ProcOk(f, p, r) && Building(r.pc)
    ensures Extends(f.disk, LocalStep(f, p, r, luck).0.disk)
  {
    var e := LocalStep(f, p, r, luck).0.disk;
    NextArtifactExtends(f.disk, e, if r.pc.Build? then Observed(Report, 0) else r.pc.artifact);
  }

  lemma StepExtends(s: State, m: Move)
    requires Inv(s) && Allowed(s, m)
    ensures Extends(s.files.disk, Step(s, m).files.disk)
  {
    if m.Go? && m.pid in s.procs && m.pid !in s.files.dead && Building(s.procs[m.pid].pc) {
      assert ProcOk(s.files, m.pid, s.procs[m.pid]);
      BuildExtends(s.files, m.pid, s.procs[m.pid], m.luck);
    } else {
      ExtendsItself(s.files.disk);
    }
  }

  function DiskAfter(s: State, moves: seq<Move>): Disk { Run(s, moves).files.disk }

  lemma LastMoveExtends(s: State, moves: seq<Move>)
    requires Initial(s) && AllAllowed(s, moves) && moves != []
    ensures Extends(DiskAfter(s, moves[..|moves| - 1]), DiskAfter(s, moves))
  {
    var k := |moves| - 1;
    AllowedBefore(s, moves, k);
    ReachableInv(s, moves[..k]);
    StepExtends(Run(s, moves[..k]), moves[k]);
  }

  /** What was completed at any moment of a run is there, unchanged, at every later one. */
  lemma {:induction false} CompletedNeverChanges(s: State, moves: seq<Move>, i: nat)
    requires Initial(s) && AllAllowed(s, moves) && i <= |moves|
    ensures Extends(DiskAfter(s, moves[..i]), DiskAfter(s, moves))
  {
    if i == |moves| {
      assert moves[..i] == moves;
      ReachableInv(s, moves);
      ExtendsItself(DiskAfter(s, moves));
    } else {
      var k := |moves| - 1;
      AllowedBefore(s, moves, k);
      CompletedNeverChanges(s, moves[..k], i);
      assert moves[..k][..i] == moves[..i];
      LastMoveExtends(s, moves);
      ExtendsTransitive(DiskAfter(s, moves[..i]), DiskAfter(s, moves[..k]), DiskAfter(s, moves));
    }
  }

  // ---- Refusal, exactly ----

  /** On a directory any run can leave, inspection refuses exactly when a temp file or
      `.recovery` is in the way, or artifacts stand without a state file and this run did
      not itself recover a dead lock. */
  lemma RefusedExactly(f: Files, lockOwned: bool, allowOrphans: bool)
    requires DiskOk(f.disk) && (lockOwned || f.lock.None?)
    ensures Inspect(f, lockOwned, allowOrphans) == Refusal <==>
      f.disk.temps != {} || f.recovery.Some? || (f.disk.state.None? && f.disk.artifacts != map[] && !allowOrphans)
    ensures Inspect(f, lockOwned, allowOrphans) != Refusal ==>
      var c := CompletedList(f.disk); Inspect(f, lockOwned, allowOrphans) == Found(c, Listed(f.disk, |c|))
  {
    var c := CompletedList(f.disk);
    assert forall i :: 0 <= i < |c| ==> Matches(f.disk, c[i]);
  }

  // ---- One process on its own ----

  ghost function Iterate<X>(step: (X, nat) -> X, x: X, ev: seq<nat>): X
    decreases |ev|
  {
    if ev == [] then x else Iterate(step, step(x, ev[0]), ev[1..])
  }

  ghost function Alone(p: Pid): ((Files, Proc), nat) -> (Files, Proc) {
    (x: (Files, Proc), e: nat) => LocalStep(x.0, p, x.1, Works(e))
  }

  /** p runs alone and every call works; `ev` is what its dependencies observe. */
  ghost function Solo(f: Files, p: Pid, r: Proc, ev: seq<nat>): (Files, Proc) {
    Iterate(Alone(p), (f, r), ev)
  }

  lemma Iterate4<X>(step: (X, nat) -> X, x: X, ev: seq<nat>)
    requires |ev| >= 4
    ensures Iterate(step, x, ev) == Iterate(step, step(step(step(step(x, ev[0]), ev[1]), ev[2]), ev[3]), ev[4..])
  {
    var x1 := step(x, ev[0]);
    var x2 := step(x1, ev[1]);
    var x3 := step(x2, ev[2]);
    assert Iterate(step, x, ev) == Iterate(step, x1, ev[1..]);
    assert ev[1..][1..] == ev[2..];
    assert Iterate(step, x1, ev[1..]) == Iterate(step, x2, ev[2..]);
    assert ev[2..][1..] == ev[3..];
    assert Iterate(step, x2, ev[2..]) == Iterate(step, x3, ev[3..]);
    assert ev[3..][1..] == ev[4..];
  }

  lemma {:induction false} SoloEnded(f: Files, p: Pid, r: Proc, ev: seq<nat>)
    requires r.pc.Ended?
    ensures Solo(f, p, r, ev) == (f, r)
  {
    if ev != [] { SoloEnded(f, p, r, ev[1..]); }
  }

  ghost predicate DeadLock(f: Files) { OwnerStatus(f.lock, f.dead) == Dead && f.recovery.None? }

  function Cleared(f: Files): Files { f.(lock := None, disk := f.disk.(temps := {})) }

  /** Recovery takes eight steps, drops the dead lock and the temp files, and nothing else. */
  lemma Recovers(f: Files, p: Pid, ev: seq<nat>)
    requires DeadLock(f) && |ev| >= 8
    ensures Solo(f, p, FRESH, ev) == Solo(Cleared(f), p, FRESH.(pc := InspectFirst, recovered := true), ev[8..])
  {
    Iterate4(Alone(p), (f, FRESH), ev);
    var f4 := f.(recovery := Some(LockFile(p, true)));
    Iterate4(Alone(p), (f4, FRESH.(pc := Recheck)), ev[4..]);
    assert ev[4..][4..] == ev[8..];
  }

  ghost function AtBuild(d: Disk): Proc
    requires DiskOk(d) && |CompletedList(d)| < |PLAN|
  {
    var c := CompletedList(d);
    Proc(Build, true, c, Listed(d, |c|), Some(PLAN[|c|]))
  }

  /** A recovering process takes the lock and resumes at the first missing checkpoint. */
  lemma Resumes(f: Files, p: Pid, ev: seq<nat>)
    requires f.lock.None? && f.recovery.None? && f.disk.temps == {} && DiskOk(f.disk) && |ev| >= 4
    requires |CompletedList(f.disk)| < |PLAN|
    ensures Solo(f, p, FRESH.(pc := InspectFirst, recovered := true), ev)
         == Solo(f.(lock := Some(LockFile(p, true))), p, AtBuild(f.disk), ev[4..])
  {
    Iterate4(Alone(p), (f, FRESH.(pc := InspectFirst, recovered := true)), ev);
    RefusedExactly(f, false, true);
    var g := f.(lock := Some(LockFile(p, true)));
    RefusedExactly(g, true, true);
  }

  /** Where a finished solo run ends: complete, lock released, nothing completed changed. */
  ghost predicate Finished(before: Disk, g: Files, t: Proc, from: Option<Checkpoint>) {
    && g.lock.None? && g.recovery.None? && g.disk.temps == {}
    && |CompletedList(g.disk)| == |PLAN| && DiskOk(g.disk) && Extends(before, g.disk)
    && PLAN[4] in g.disk.artifacts
    && t.pc == Ended(Complete(g.disk.artifacts[PLAN[4]], from))
  }

  ghost predicate SoloHolder(f: Files, p: Pid, r: Proc) {
    FilesOk(f) && ProcOk(f, p, r) && f.recovery.None? && p !in f.dead && r.pc.Build? && f.disk.temps == {}
  }

  /** What one checkpoint leaves. */
  ghost function After(f: Files, p: Pid, r: Proc, evidence: nat): (Files, Proc)
    requires AtCheckpoint(r)
  {
    var k := |r.completed|;
    var a := RunCheckpoint(k, evidence, r.artifacts);
    var c := r.completed + [Completed(PLAN[k], DigestOf(a))];
    var t := r.(completed := c, artifacts := r.artifacts + [a]);
    (f.(disk := Disk(Some(c), f.disk.artifacts[PLAN[k] := a], {})),
     t.(pc := if |c| == |PLAN| then Unlock(Finish(t)) else Build))
  }

  /** Artifact first, then the state that lists it: four steps. */
  lemma CheckpointSteps(f: Files, p: Pid, r: Proc, ev: seq<nat>)
    requires AtCheckpoint(r) && r.pc.Build? && f.disk.temps == {} && |ev| >= 4
    ensures Solo(f, p, r, ev) == Solo(After(f, p, r, ev[0]).0, p, After(f, p, r, ev[0]).1, ev[4..])
  {
    Iterate4(Alone(p), (f, r), ev);
    var (f1, r1) := LocalStep(f, p, r, Works(ev[0]));
    var (f2, r2) := LocalStep(f1, p, r1, Works(ev[1]));
    var (f3, r3) := LocalStep(f2, p, r2, Works(ev[2]));
    var (f4, r4) := LocalStep(f3, p, r3, Works(ev[3]));
    assert f4.disk.temps == {};
    assert (f4, r4) == After(f, p, r, ev[0]);
  }

  lemma FirstHalfKeeps(f: Files, p: Pid, r: Proc, a: Artifact)
    requires SoloHolder(f, p, r) && BuiltFrom(|r.completed|, a, r.artifacts)
    ensures var d := f.disk.(artifacts := f.disk.artifacts[PLAN[|r.completed|] := a], temps := {});
      FilesOk(f.(disk := d)) && ProcOk(f.(disk := d), p, r.(pc := StateTemp(a)))
  {
    var f1, r1 := f.(disk := f.disk.(temps := {p})), r.(pc := PublishArtifact(a));
    ReadyToPublish(f, p, r, a);
    PublishArtifactFiles(f1, p, r1, Works(0));
    PublishArtifactProc(f1, p, r1, Works(0));
    assert LocalStep(f1, p, r1, Works(0)).0.disk.temps == {};
  }

  lemma ReadyToPublish(f: Files, p: Pid, r: Proc, a: Artifact)
    requires SoloHolder(f, p, r) && BuiltFrom(|r.completed|, a, r.artifacts)
    ensures var f1 := f.(disk := f.disk.(temps := {p})); FilesOk(f1) && ProcOk(f1, p, r.(pc := PublishArtifact(a)))
  {
    var d := f.disk.(temps := {p});
    TempsOnly(f.disk, d);
    assert MemoryOk(d, p, r.(pc := PublishArtifact(a)));
  }

  lemma StateTempWritten(f: Files, p: Pid, r: Proc, a: Artifact)
    requires FilesOk(f) && ProcOk(f, p, r) && r.pc == StateTemp(a)
    ensures var f3 := f.(disk := f.disk.(temps := {p})); FilesOk(f3) && ProcOk(f3, p, r.(pc := PublishState(a)))
  {
    var d := f.disk.(temps := {p});
    assert Listed(d, |r.completed|) == Listed(f.disk, |r.completed|);
    forall i | 0 <= i < |r.completed|
      ensures Listed(d, i) == Listed(f.disk, i) && (Matches(d, r.completed[i]) <==> Matches(f.disk, r.completed[i]))
    {
    }
  }

  lemma StatePublished(f: Files, p: Pid, r: Proc, a: Artifact)
    requires AtCheckpoint(r) && r.pc == StateTemp(a) && f.disk.temps == {}
    ensures var c := r.completed + [Completed(PLAN[|r.completed|], DigestOf(a))];
      var t := r.(completed := c, artifacts := r.artifacts + [a]);
      LocalStep(f.(disk := f.disk.(temps := {p})), p, r.(pc := PublishState(a)), Works(0)) ==
      (f.(disk := f.disk.(state := Some(c))), t.(pc := if |c| == |PLAN| then Unlock(Finish(t)) else Build))
  {
    assert {p} - {p} == {};
  }

  lemma SecondHalfKeeps(f: Files, p: Pid, r: Proc, a: Artifact)
    requires FilesOk(f) && ProcOk(f, p, r) && r.pc == StateTemp(a) && f.disk.temps == {}
    ensures var c := r.completed + [Completed(PLAN[|r.completed|], DigestOf(a))];
      var t := r.(completed := c, artifacts := r.artifacts + [a]);
      var g := f.(disk := f.disk.(state := Some(c)));
      FilesOk(g) && ProcOk(g, p, t.(pc := if |c| == |PLAN| then Unlock(Finish(t)) else Build))
  {
    var f3, r3 := f.(disk := f.disk.(temps := {p})), r.(pc := PublishState(a));
    StateTempWritten(f, p, r, a);
    StatePublished(f, p, r, a);
    PublishStateFiles(f3, p, r3, Works(0));
    PublishStateProc(f3, p, r3, Works(0));
  }

  lemma CheckpointKeeps(f: Files, p: Pid, r: Proc, e: nat)
    requires SoloHolder(f, p, r)
    ensures var (g, t) := After(f, p, r, e); FilesOk(g) && ProcOk(g, p, t) && Extends(f.disk, g.disk)
  {
    var k := |r.completed|;
    var a := RunCheckpoint(k, e, r.artifacts);
    FirstHalfKeeps(f, p, r, a);
    var d := f.disk.(artifacts := f.disk.artifacts[PLAN[k] := a], temps := {});
    SecondHalfKeeps(f.(disk := d), p, r.(pc := StateTemp(a)), a);
    NextArtifactExtends(f.disk, After(f, p, r, e).0.disk, a);
  }

  lemma ExtendsTransitive(a: Disk, b: Disk, c: Disk)
    requires Extends(a, b) && Extends(b, c)
    ensures Extends(a, c)
  {
    forall i | 0 <= i < |CompletedList(a)|
      ensures var id := CompletedList(a)[i].id;
        id in a.artifacts && id in c.artifacts && c.artifacts[id] == a.artifacts[id]
    {
      assert CompletedList(a)[i] == CompletedList(b)[i];
    }
  }

  lemma {:induction false} BuildsTheRest(f: Files, p: Pid, r: Proc, ev: seq<nat>)
    requires SoloHolder(f, p, r) && |ev| >= 4 * (|PLAN| - |r.completed|) + 1
    ensures var (g, t) := Solo(f, p, r, ev); Finished(f.disk, g, t, r.from)
    decreases |PLAN| - |r.completed|
  {
    CheckpointSteps(f, p, r, ev);
    CheckpointKeeps(f, p, r, ev[0]);
    var (g, t) := After(f, p, r, ev[0]);
    if |t.completed| < |PLAN| {
      BuildsTheRest(g, p, t, ev[4..]);
      ExtendsTransitive(f.disk, g.disk, Solo(g, p, t, ev[4..]).0.disk);
    } else {
      var (h, u) := LocalStep(g, p, t, Works(ev[4]));
      assert ev[4..][0] == ev[4];
      SoloEnded(h, p, u, ev[4..][1..]);
    }
  }

  function Missing(d: Disk): Option<Checkpoint> {
    if |CompletedList(d)| < |PLAN| then Some(PLAN[|CompletedList(d)|]) else None
  }

  lemma SoloCompletes(f: Files, p: Pid, ev: seq<nat>)
    requires f.lock.None? && f.recovery.None? && f.disk.temps == {} && DiskOk(f.disk) && p !in f.dead && |ev| >= 25
    ensures var (g, t) := Solo(f, p, FRESH.(pc := InspectFirst, recovered := true), ev);
      Finished(f.disk, g, t, Missing(f.disk))
  {
    var r := FRESH.(pc := InspectFirst, recovered := true);
    if |CompletedList(f.disk)| < |PLAN| {
      Resumes(f, p, ev);
      var h := f.(lock := Some(LockFile(p, true)));
      assert SoloHolder(h, p, AtBuild(f.disk));
      BuildsTheRest(h, p, AtBuild(f.disk), ev[4..]);
    } else {
      RefusedExactly(f, false, true);
      var (g, t) := LocalStep(f, p, r, Works(ev[0]));
      SoloEnded(g, p, t, ev[1..]);
      SameDiskOk(f.disk, f.disk);
    }
  }

  /** Recovery from a kill.  Take any reachable state in which the lock's owner was killed
      after its pid was written, and any fresh live process whose dependencies succeed and
      that runs alone: it is not refused, resumes at the first missing checkpoint (or
      reports that nothing was missing), never changes a completed artifact, and returns
      the report that the four artifacts on disk determine. */
  lemma {:induction false} RecoversFromKill(s0: State, moves: seq<Move>, p: Pid, ev: seq<nat>)
    requires Initial(s0) && AllAllowed(s0, moves) && |ev| >= 33
    requires var s := Run(s0, moves);
      DeadLock(s.files) && p in s.procs && p !in s.files.dead && s.procs[p] == FRESH
    ensures var d := Run(s0, moves).files.disk;
      var (g, t) := Solo(Run(s0, moves).files, p, FRESH, ev);
      Finished(d, g, t, Missing(d)) && ReportOk(g.disk, t.pc.outcome)
  {
    ReachableInv(s0, moves);
    var f := Run(s0, moves).files;
    Recovers(f, p, ev);
    SameDiskOk(f.disk, Cleared(f).disk);
    SoloCompletes(Cleared(f), p, ev[8..]);
    var (g, t) := Solo(f, p, FRESH, ev);
    ExtendsTransitive(f.disk, Cleared(f).disk, g.disk);
    assert DiskOk(g.disk);
  }

  lemma SameDiskOk(d: Disk, e: Disk)
    requires DiskOk(d) && e == d.(temps := {})
    ensures DiskOk(e) && Extends(d, e)
  {
    var c := CompletedList(d);
    assert forall i :: 0 <= i < |c| ==> Matches(d, c[i]);
    forall i | 0 <= i < |c| ensures Listed(e, i) == Listed(d, i) {}
  }
}
