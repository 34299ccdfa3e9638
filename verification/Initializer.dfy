/** The checkpointed initializer: lock, dead-lock recovery, artifact-then-state order and
    resume, as interleaved file-system steps of any number of processes that may be killed
    before any step. */
module Initializer {
  import opened Wrappers

  type Pid = nat

  datatype Checkpoint = ConfigSurfaces | PathA | PathB | PathC | Report

  const PLAN: seq<Checkpoint> := [ConfigSurfaces, PathA, PathB, PathC, Report]

  /** Artifacts by what they are made from: `evidence` is whatever the dependencies observed. */
  datatype Artifact =
    | Observed(id: Checkpoint, evidence: nat)
    | Connections(pathB: Artifact, evidence: nat)
    | InspectionReport(surfaces: Artifact, a: Artifact, b: Artifact, c: Artifact)

  /** Digests are injective. */
  datatype Digest = DigestOf(artifact: Artifact)

  datatype Completed = Completed(id: Checkpoint, digest: Digest)

  /** What the init directory holds beside the two lock files. */
  datatype Disk = Disk(state: Option<seq<Completed>>, artifacts: map<Checkpoint, Artifact>, temps: set<Pid>)

  /** A lock file exists from its exclusive creation; its pid is readable once written. */
  datatype LockFile = LockFile(owner: Pid, written: bool)

  datatype Files = Files(lock: Option<LockFile>, recovery: Option<LockFile>, dead: set<Pid>, disk: Disk)

  datatype Status = Absent | Active | Dead

  /** Read the file and probe the pid; unreadable content counts as active. */
  function OwnerStatus(l: Option<LockFile>, dead: set<Pid>): Status {
    if l.None? then Absent else if l.value.written && l.value.owner in dead then Dead else Active
  }

  function CompletedList(d: Disk): seq<Completed> { if d.state.Some? then d.state.value else [] }

  // ---- Inspection ----

  datatype Inspection = Refusal | Found(completed: seq<Completed>, artifacts: seq<Artifact>)

  /** The state file parses: a prefix of the fixed plan. */
  predicate IsPlanPrefix(c: seq<Completed>) {
    |c| <= |PLAN| && forall i :: 0 <= i < |c| ==> c[i].id == PLAN[i]
  }

  predicate Matches(d: Disk, c: Completed) {
    c.id in d.artifacts && DigestOf(d.artifacts[c.id]) == c.digest
  }

  function Listed(d: Disk, n: nat): (s: seq<Artifact>)
    requires n <= |PLAN| && forall i :: 0 <= i < n ==> PLAN[i] in d.artifacts
    ensures |s| == n && forall i :: 0 <= i < n ==> s[i] == d.artifacts[PLAN[i]]
  {
    seq(n, i requires 0 <= i < n => d.artifacts[PLAN[i]])
  }

  function Inspect(f: Files, lockOwned: bool, allowOrphans: bool): Inspection {
    var c := CompletedList(f.disk);
    if f.lock.Some? && !lockOwned then Found([], [])
    else if f.disk.temps != {} || f.recovery.Some? then Refusal
    else if f.disk.state.None? && f.disk.artifacts != map[] && !allowOrphans then Refusal
    else if !IsPlanPrefix(c) || !(forall i :: 0 <= i < |c| ==> Matches(f.disk, c[i])) then Refusal
    else Found(c, Listed(f.disk, |c|))
  }

  // ---- One process ----

  datatype Outcome = Busy | Refused | Failed | Complete(report: Artifact, resumedFrom: Option<Checkpoint>)
  datatype Recovery = NothingToDo | Recovered | Broken

  /** Where a process stands, from `recoverDeadLock` to the release of the lock. */
  datatype Pc =
    | CheckRecovery | ClearRecovery | CheckLock
    | OpenRecovery | WriteRecovery | Recheck | Clean | DropLock | CloseRecovery(result: Recovery)
    | InspectFirst | OpenLock | WriteLock | InspectLocked
    | Build | PublishArtifact(artifact: Artifact) | StateTemp(artifact: Artifact) | PublishState(artifact: Artifact)
    | Unlock(outcome: Outcome)
    | Ended(outcome: Outcome)

  /** `completed` and `artifacts` are the process's in-memory state. */
  datatype Proc = Proc(pc: Pc, recovered: bool, completed: seq<Completed>, artifacts: seq<Artifact>,
                       from: Option<Checkpoint>)

  const FRESH := Proc(CheckRecovery, false, [], [], None)

  /** The step's call works (with what the dependencies observed) or throws. */
  datatype Luck = Works(evidence: nat) | Breaks

  function RunCheckpoint(k: nat, evidence: nat, artifacts: seq<Artifact>): Artifact
    requires k < |PLAN| && |artifacts| == k
  {
    if k == 4 then InspectionReport(artifacts[0], artifacts[1], artifacts[2], artifacts[3])
    else if k == 3 then Connections(artifacts[2], evidence)
    else Observed(PLAN[k], evidence)
  }

  /** Made by checkpoint k out of the artifacts before it. */
  predicate BuiltFrom(k: nat, a: Artifact, before: seq<Artifact>)
    requires k < |PLAN| && |before| == k
  {
    if k == 4 then a == InspectionReport(before[0], before[1], before[2], before[3])
    else if k == 3 then a.Connections? && a.pathB == before[2]
    else a.Observed? && a.id == PLAN[k]
  }

  function Finish(r: Proc): Outcome
    requires |r.artifacts| == |PLAN|
  {
    Complete(r.artifacts[4], r.from)
  }

  function RecoveryStep(f: Files, p: Pid, r: Proc, luck: Luck): (Files, Proc) {
    match r.pc
    case CheckRecovery =>
      (match OwnerStatus(f.recovery, f.dead)
       case Active => (f, r.(pc := Ended(Busy)))
       case Dead => (f, r.(pc := ClearRecovery))
       case Absent => (f, r.(pc := CheckLock)))
    case ClearRecovery => (if luck.Works? then f.(recovery := None) else f, r.(pc := CheckLock))
    case CheckLock =>
      (match OwnerStatus(f.lock, f.dead)
       case Active => (f, r.(pc := Ended(Busy)))
       case Dead => (f, r.(pc := OpenRecovery))
       case Absent => (f, r.(pc := InspectFirst)))
    case OpenRecovery =>
      if f.recovery.Some? then (f, r.(pc := Ended(Busy)))
      else if luck.Breaks? then (f, r.(pc := Ended(Failed)))
      else (f.(recovery := Some(LockFile(p, false))), r.(pc := WriteRecovery))
    case WriteRecovery =>
      if luck.Breaks? then (f, r.(pc := Ended(Failed)))
      else (f.(recovery := Some(LockFile(p, true))), r.(pc := Recheck))
    case Recheck =>
      (f, r.(pc := if OwnerStatus(f.lock, f.dead) == Dead then Clean else CloseRecovery(NothingToDo)))
    case Clean =>
      (if luck.Works? then f.(disk := f.disk.(temps := {})) else f, r.(pc := DropLock))
    case DropLock =>
      if luck.Works? then (f.(lock := None), r.(pc := CloseRecovery(Recovered)))
      else (f, r.(pc := CloseRecovery(Broken)))
    case CloseRecovery(res) =>
      (if luck.Works? then f.(recovery := None) else f,
       r.(pc := if res == Recovered then InspectFirst else Ended(if res == NothingToDo then Busy else Failed),
          recovered := res == Recovered))
    case _ => (f, r)
  }

  function LockStep(f: Files, p: Pid, r: Proc, luck: Luck): (Files, Proc) {
    match r.pc
    case InspectFirst =>
      (match Inspect(f, false, r.recovered)
       case Refusal => (f, r.(pc := Ended(Refused)))
       case Found(c, arts) =>
         (f, r.(pc := if |c| == |PLAN| && |arts| == |c| then Ended(Complete(arts[4], None)) else OpenLock)))
    case OpenLock =>
      if f.lock.Some? then (f, r.(pc := Ended(Busy)))
      else if luck.Breaks? then (f, r.(pc := Ended(Failed)))
      else (f.(lock := Some(LockFile(p, false))), r.(pc := WriteLock))
    case WriteLock =>
      if luck.Breaks? then (f, r.(pc := Ended(Failed)))
      else (f.(lock := Some(LockFile(p, true))), r.(pc := InspectLocked))
    case InspectLocked =>
      (match Inspect(f, true, r.recovered)
       case Refusal => (f, r.(pc := Unlock(Refused)))
       case Found(c, arts) =>
         if |arts| == |c| == |PLAN| then (f, r.(pc := Unlock(Complete(arts[4], None))))
         else if |arts| == |c| < |PLAN| then
           (f, r.(pc := Build, completed := c, artifacts := arts, from := Some(PLAN[|c|])))
         else (f, r.(pc := Unlock(Refused))))
    case Unlock(o) =>
      (if luck.Works? then f.(lock := None) else f, r.(pc := Ended(o)))
    case _ => (f, r)
  }

  predicate AtCheckpoint(r: Proc) { |r.completed| == |r.artifacts| < |PLAN| }

  /** The loop body: artifact first, then the state that lists it. */
  function BuildStep(f: Files, p: Pid, r: Proc, luck: Luck): (Files, Proc)
    requires AtCheckpoint(r)
  {
    var k, d := |r.completed|, f.disk;
    var aborted := (f.(disk := d.(temps := d.temps - {p})), r.(pc := Unlock(Failed)));
    match r.pc
    case Build =>
      if luck.Breaks? then (f, r.(pc := Unlock(Failed)))
      else (f.(disk := d.(temps := d.temps + {p})),
            r.(pc := PublishArtifact(RunCheckpoint(k, luck.evidence, r.artifacts))))
    case PublishArtifact(a) =>
      if luck.Breaks? then aborted
      else (f.(disk := d.(artifacts := d.artifacts[PLAN[k] := a], temps := d.temps - {p})), r.(pc := StateTemp(a)))
    case StateTemp(a) =>
      if luck.Breaks? then (f, r.(pc := Unlock(Failed)))
      else (f.(disk := d.(temps := d.temps + {p})), r.(pc := PublishState(a)))
    case PublishState(a) =>
      if luck.Breaks? then aborted
      else
        var c := r.completed + [Completed(PLAN[k], DigestOf(a))];
        var r' := r.(completed := c, artifacts := r.artifacts + [a]);
        (f.(disk := d.(state := Some(c), temps := d.temps - {p})),
         r'.(pc := if |c| == |PLAN| then Unlock(Finish(r')) else Build))
    case _ => (f, r)
  }

  predicate Building(pc: Pc) { pc.Build? || pc.PublishArtifact? || pc.StateTemp? || pc.PublishState? }

  predicate Recovering(pc: Pc) {
    pc.CheckRecovery? || pc.ClearRecovery? || pc.CheckLock? || pc.OpenRecovery? || pc.WriteRecovery?
    || pc.Recheck? || pc.Clean? || pc.DropLock? || pc.CloseRecovery?
  }

  function LocalStep(f: Files, p: Pid, r: Proc, luck: Luck): (Files, Proc) {
    if Recovering(r.pc) then RecoveryStep(f, p, r, luck)
    else if !Building(r.pc) then LockStep(f, p, r, luck)
    else if AtCheckpoint(r) then BuildStep(f, p, r, luck)
    else (f, r)
  }

  // ---- Many processes ----

  datatype State = State(files: Files, procs: map<Pid, Proc>)
  datatype Move = Go(pid: Pid, luck: Luck) | Kill(pid: Pid)

  /** The one assumption on kills: nobody dies while owning a written `.recovery`. */
  predicate Allowed(s: State, m: Move) {
    m.Kill? ==> !(s.files.recovery.Some? && s.files.recovery.value == LockFile(m.pid, true))
  }

  function Step(s: State, m: Move): State {
    if m.Kill? then s.(files := s.files.(dead := s.files.dead + {m.pid}))
    else if m.pid !in s.procs || m.pid in s.files.dead then s
    else
      var (f, r) := LocalStep(s.files, m.pid, s.procs[m.pid], m.luck);
      State(f, s.procs[m.pid := r])
  }

  function Run(s: State, moves: seq<Move>): State {
    if moves == [] then s else Step(Run(s, moves[..|moves| - 1]), moves[|moves| - 1])
  }

  ghost predicate AllAllowed(s: State, moves: seq<Move>) {
    forall i :: 0 <= i < |moves| ==> Allowed(Run(s, moves[..i]), moves[i])
  }

  /** An empty init directory and processes about to start. */
  ghost predicate Initial(s: State) {
    && s.files == Files(None, None, {}, Disk(None, map[], {}))
    && forall p :: p in s.procs ==> s.procs[p] == FRESH
  }

  // ---- Invariant ----

  /** Between `acquireLock` and the release. */
  predicate Holding(pc: Pc) { pc.WriteLock? || pc.InspectLocked? || Building(pc) || pc.Unlock? }

  predicate OwnsRecovery(pc: Pc) { pc.WriteRecovery? || pc.Recheck? || pc.Clean? || pc.DropLock? || pc.CloseRecovery? }

  /** Every listed artifact is the one on disk, and each was built from those before it. */
  ghost predicate DiskOk(d: Disk) {
    var c := CompletedList(d);
    && IsPlanPrefix(c)
    && (forall i :: 0 <= i < |c| ==> Matches(d, c[i]))
    && (forall i :: 0 <= i < |c| ==> PLAN[i] in d.artifacts)
    && (forall i :: 0 <= i < |c| ==> BuiltFrom(i, d.artifacts[PLAN[i]], Listed(d, i)))
    && (forall i :: |c| < i < |PLAN| ==> PLAN[i] !in d.artifacts)
  }

  /** The builder's memory agrees with the disk. */
  ghost predicate MemoryOk(d: Disk, p: Pid, r: Proc) {
    var k := |r.completed|;
    && AtCheckpoint(r) && CompletedList(d) == r.completed
    && (forall i :: 0 <= i < k ==> PLAN[i] in d.artifacts)
    && r.artifacts == Listed(d, k)
    && (r.pc.PublishArtifact? || r.pc.PublishState? ==> p in d.temps)
    && (r.pc.PublishArtifact? || r.pc.StateTemp? || r.pc.PublishState? ==> BuiltFrom(k, r.pc.artifact, r.artifacts))
    && (r.pc.StateTemp? || r.pc.PublishState? ==> PLAN[k] in d.artifacts && d.artifacts[PLAN[k]] == r.pc.artifact)
  }

  /** A report handed back is the one on disk, built from the four artifacts on disk. */
  ghost predicate ReportOk(d: Disk, o: Outcome) {
    o.Complete? ==>
      |CompletedList(d)| == |PLAN| && (forall i :: 0 <= i < |PLAN| ==> PLAN[i] in d.artifacts)
      && o.report == d.artifacts[PLAN[4]] && BuiltFrom(4, o.report, Listed(d, 4))
  }

  /** What holds of a live process, whatever the others do. */
  ghost predicate ProcOk(f: Files, p: Pid, r: Proc) {
    && !r.pc.ClearRecovery?
    && (Holding(r.pc) ==> f.lock.Some? && f.lock.value == LockFile(p, !r.pc.WriteLock?))
    && (OwnsRecovery(r.pc) ==> f.recovery.Some? && f.recovery.value == LockFile(p, !r.pc.WriteRecovery?))
    && (r.pc.Clean? || r.pc.DropLock? ==> OwnerStatus(f.lock, f.dead) == Dead)
    && (Building(r.pc) ==> MemoryOk(f.disk, p, r))
    && (r.pc.Unlock? || r.pc.Ended? ==> ReportOk(f.disk, r.pc.outcome))
  }

  ghost predicate FilesOk(f: Files) {
    && (f.recovery.Some? && f.recovery.value.written ==> f.recovery.value.owner !in f.dead)
    && DiskOk(f.disk)
  }

  ghost predicate Inv(s: State) {
    FilesOk(s.files) && forall p :: p in s.procs && p !in s.files.dead ==> ProcOk(s.files, p, s.procs[p])
  }

  lemma CheckKeeps(f: Files, p: Pid, r: Proc, luck: Luck)
    requires FilesOk(f) && ProcOk(f, p, r) && p !in f.dead && (r.pc.CheckRecovery? || r.pc.CheckLock? || r.pc.Recheck?)
    ensures var (g, t) := LocalStep(f, p, r, luck); g == f && ProcOk(g, p, t)
  {
  }

  lemma TakeRecoveryKeeps(f: Files, p: Pid, r: Proc, luck: Luck)
    requires FilesOk(f) && ProcOk(f, p, r) && p !in f.dead && (r.pc.OpenRecovery? || r.pc.WriteRecovery?)
    ensures var (g, t) := LocalStep(f, p, r, luck); FilesOk(g) && ProcOk(g, p, t)
  {
    assert LocalStep(f, p, r, luck).0.disk == f.disk;
  }

  lemma CleanKeeps(f: Files, p: Pid, r: Proc, luck: Luck)
    requires FilesOk(f) && ProcOk(f, p, r) && p !in f.dead && r.pc.Clean?
    ensures var (g, t) := LocalStep(f, p, r, luck); FilesOk(g) && ProcOk(g, p, t)
  {
    var d, e := f.disk, LocalStep(f, p, r, luck).0.disk;
    forall i | 0 <= i < |CompletedList(d)| ensures Listed(e, i) == Listed(d, i) && (Matches(e, CompletedList(d)[i])) {
      assert Matches(d, CompletedList(d)[i]);
    }
  }

  lemma DropKeeps(f: Files, p: Pid, r: Proc, luck: Luck)
    requires FilesOk(f) && ProcOk(f, p, r) && p !in f.dead && (r.pc.DropLock? || r.pc.CloseRecovery?)
    ensures var (g, t) := LocalStep(f, p, r, luck); FilesOk(g) && ProcOk(g, p, t)
  {
    assert LocalStep(f, p, r, luck).0.disk == f.disk;
  }

  lemma RecoveryKeeps(f: Files, p: Pid, r: Proc, luck: Luck)
    requires FilesOk(f) && ProcOk(f, p, r) && p !in f.dead && Recovering(r.pc)
    ensures var (g, t) := LocalStep(f, p, r, luck); FilesOk(g) && ProcOk(g, p, t)
  {
    if r.pc.CheckRecovery? || r.pc.CheckLock? || r.pc.Recheck? {
      CheckKeeps(f, p, r, luck);
    } else if r.pc.OpenRecovery? || r.pc.WriteRecovery? {
      TakeRecoveryKeeps(f, p, r, luck);
    } else if r.pc.Clean? {
      CleanKeeps(f, p, r, luck);
    } else {
      DropKeeps(f, p, r, luck);
    }
  }

  lemma FirstInspectionKeeps(f: Files, p: Pid, r: Proc, luck: Luck)
    requires FilesOk(f) && ProcOk(f, p, r) && p !in f.dead && r.pc.InspectFirst?
    ensures var (g, t) := LocalStep(f, p, r, luck); g == f && ProcOk(g, p, t)
  {
    var t := LocalStep(f, p, r, luck).1;
    if t.pc.Ended? { FirstReportIsOnDisk(f, p, r, luck); }
  }

  lemma FirstReportIsOnDisk(f: Files, p: Pid, r: Proc, luck: Luck)
    requires FilesOk(f) && r.pc.InspectFirst? && LocalStep(f, p, r, luck).1.pc.Ended?
    ensures ReportOk(f.disk, LocalStep(f, p, r, luck).1.pc.outcome)
  {
    if |CompletedList(f.disk)| == |PLAN| { FullDiskReports(f.disk); }
  }

  lemma FullDiskReports(d: Disk)
    requires DiskOk(d) && |CompletedList(d)| == |PLAN|
    ensures PLAN[4] in d.artifacts && ReportOk(d, Complete(d.artifacts[PLAN[4]], None))
    ensures Listed(d, 5)[4] == d.artifacts[PLAN[4]]
  {
    assert BuiltFrom(4, d.artifacts[PLAN[4]], Listed(d, 4));
  }

  /** Under the lock an inspection that finds anything finds the whole consistent disk. */
  lemma InspectionFinds(f: Files, allowOrphans: bool)
    requires FilesOk(f) && Inspect(f, true, allowOrphans).Found?
    ensures var c := CompletedList(f.disk);
      && Inspect(f, true, allowOrphans) == Found(c, Listed(f.disk, |c|))
      && (|c| == |PLAN| ==> BuiltFrom(4, f.disk.artifacts[PLAN[4]], Listed(f.disk, 4)))
  {
  }

  lemma SecondInspectionKeeps(f: Files, p: Pid, r: Proc, luck: Luck)
    requires FilesOk(f) && ProcOk(f, p, r) && p !in f.dead && r.pc.InspectLocked?
    ensures var (g, t) := LocalStep(f, p, r, luck); g == f && ProcOk(g, p, t)
  {
    if Inspect(f, true, r.recovered).Refusal? {
      RefusesUnderLock(f, p, r, luck);
    } else {
      InspectionFinds(f, r.recovered);
      if |CompletedList(f.disk)| < |PLAN| { ResumesInMemory(f, p, r, luck); } else { ReportsAtOnce(f, p, r, luck); }
    }
  }

  lemma RefusesUnderLock(f: Files, p: Pid, r: Proc, luck: Luck)
    requires ProcOk(f, p, r) && r.pc.InspectLocked? && Inspect(f, true, r.recovered).Refusal?
    ensures var (g, t) := LocalStep(f, p, r, luck); g == f && ProcOk(g, p, t)
  {
  }

  lemma ResumesInMemory(f: Files, p: Pid, r: Proc, luck: Luck)
    requires FilesOk(f) && ProcOk(f, p, r) && r.pc.InspectLocked? && |CompletedList(f.disk)| < |PLAN|
    requires Inspect(f, true, r.recovered) == Found(CompletedList(f.disk), Listed(f.disk, |CompletedList(f.disk)|))
    ensures var (g, t) := LocalStep(f, p, r, luck); g == f && ProcOk(g, p, t)
  {
    assert MemoryOk(f.disk, p, LocalStep(f, p, r, luck).1);
  }

  lemma ReportsAtOnce(f: Files, p: Pid, r: Proc, luck: Luck)
    requires FilesOk(f) && ProcOk(f, p, r) && r.pc.InspectLocked? && |CompletedList(f.disk)| == |PLAN|
    requires Inspect(f, true, r.recovered) == Found(CompletedList(f.disk), Listed(f.disk, |CompletedList(f.disk)|))
    requires BuiltFrom(4, f.disk.artifacts[PLAN[4]], Listed(f.disk, 4))
    ensures var (g, t) := LocalStep(f, p, r, luck); g == f && ProcOk(g, p, t)
  {
    assert ReportOk(f.disk, LocalStep(f, p, r, luck).1.pc.outcome);
  }

  lemma LockKeeps(f: Files, p: Pid, r: Proc, luck: Luck)
    requires FilesOk(f) && ProcOk(f, p, r) && p !in f.dead && !Recovering(r.pc) && !Building(r.pc)
    ensures var (g, t) := LocalStep(f, p, r, luck); FilesOk(g) && ProcOk(g, p, t)
  {
    if r.pc.InspectFirst? {
      FirstInspectionKeeps(f, p, r, luck);
    } else if r.pc.InspectLocked? {
      SecondInspectionKeeps(f, p, r, luck);
    } else {
      assert LocalStep(f, p, r, luck).0.disk == f.disk;
    }
  }

  /** The disk after publishing: the earlier artifacts are untouched. */
  lemma PublishedState(f: Files, p: Pid, r: Proc, luck: Luck)
    requires FilesOk(f) && ProcOk(f, p, r) && r.pc.PublishState? && luck.Works?
    ensures var (g, t) := LocalStep(f, p, r, luck); var k := |r.completed|;
      && g.disk.artifacts == f.disk.artifacts
      && CompletedList(g.disk) == r.completed + [Completed(PLAN[k], DigestOf(r.pc.artifact))] == t.completed
      && (forall i :: 0 <= i <= k ==> PLAN[i] in g.disk.artifacts && Listed(g.disk, i) == Listed(f.disk, i))
      && t.artifacts == Listed(g.disk, k + 1)
  {
    var (g, t) := LocalStep(f, p, r, luck);
    var k := |r.completed|;
    forall i | 0 <= i <= k ensures Listed(g.disk, i) == Listed(f.disk, i) {}
    assert t.artifacts == Listed(g.disk, k + 1);
  }

  lemma PublishStateFiles(f: Files, p: Pid, r: Proc, luck: Luck)
    requires FilesOk(f) && ProcOk(f, p, r) && r.pc.PublishState? && luck.Works?
    ensures FilesOk(LocalStep(f, p, r, luck).0)
  {
    PublishedState(f, p, r, luck);
  }

  lemma PublishStateProc(f: Files, p: Pid, r: Proc, luck: Luck)
    requires FilesOk(f) && ProcOk(f, p, r) && r.pc.PublishState? && luck.Works?
    ensures var (g, t) := LocalStep(f, p, r, luck); ProcOk(g, p, t)
  {
    PublishedState(f, p, r, luck);
  }

  /** The next artifact is not listed yet, so publishing it leaves the listed ones alone. */
  lemma PublishedArtifact(d: Disk, r: Proc, p: Pid, a: Artifact)
    requires DiskOk(d) && MemoryOk(d, p, r)
    ensures var e := d.(artifacts := d.artifacts[PLAN[|r.completed|] := a], temps := d.temps - {p}); DiskOk(e)
  {
    var k := |r.completed|;
    var e := d.(artifacts := d.artifacts[PLAN[k] := a], temps := d.temps - {p});
    forall i | 0 <= i < k ensures Matches(e, r.completed[i]) && e.artifacts[PLAN[i]] == d.artifacts[PLAN[i]] {
      assert Matches(d, r.completed[i]) && r.completed[i].id == PLAN[i] != PLAN[k];
    }
    forall i | 0 <= i <= k ensures Listed(e, i) == Listed(d, i) {}
  }

  lemma PublishArtifactFiles(f: Files, p: Pid, r: Proc, luck: Luck)
    requires FilesOk(f) && ProcOk(f, p, r) && r.pc.PublishArtifact? && luck.Works?
    ensures FilesOk(LocalStep(f, p, r, luck).0)
  {
    PublishedArtifact(f.disk, r, p, r.pc.artifact);
  }

  lemma PublishArtifactProc(f: Files, p: Pid, r: Proc, luck: Luck)
    requires FilesOk(f) && ProcOk(f, p, r) && r.pc.PublishArtifact? && luck.Works?
    ensures var (g, t) := LocalStep(f, p, r, luck); ProcOk(g, p, t)
  {
    var g := LocalStep(f, p, r, luck).0;
    var k := |r.completed|;
    forall i | 0 <= i <= k ensures Listed(g.disk, i) == Listed(f.disk, i) {}
  }

  lemma AbortKeeps(f: Files, p: Pid, r: Proc, luck: Luck)
    requires FilesOk(f) && ProcOk(f, p, r) && Building(r.pc) && luck.Breaks?
    ensures var (g, t) := LocalStep(f, p, r, luck); FilesOk(g) && ProcOk(g, p, t)
  {
    assert LocalStep(f, p, r, luck).0.disk == f.disk.(temps := LocalStep(f, p, r, luck).0.disk.temps);
  }

  /** Temp files are nobody's business but their writer's. */
  lemma TempsOnly(d: Disk, e: Disk)
    requires DiskOk(d) && e == d.(temps := e.temps)
    ensures DiskOk(e)
    ensures forall i :: 0 <= i <= |CompletedList(d)| && (forall j :: 0 <= j < i ==> PLAN[j] in d.artifacts) ==>
      Listed(e, i) == Listed(d, i)
  {
    var c := CompletedList(d);
    forall i | 0 <= i < |c| ensures Matches(e, c[i]) && Listed(e, i) == Listed(d, i) { assert Matches(d, c[i]); }
  }

  lemma StartKeeps(f: Files, p: Pid, r: Proc, luck: Luck)
    requires FilesOk(f) && ProcOk(f, p, r) && (r.pc.Build? || r.pc.StateTemp?) && luck.Works?
    ensures var (g, t) := LocalStep(f, p, r, luck); FilesOk(g) && ProcOk(g, p, t)
  {
    var (g, t) := LocalStep(f, p, r, luck);
    TempsOnly(f.disk, g.disk);
    assert Listed(g.disk, |r.completed|) == Listed(f.disk, |r.completed|);
    if r.pc.Build? { assert MemoryOk(g.disk, p, t); } else { assert MemoryOk(g.disk, p, t); }
  }

  lemma BuildKeeps(f: Files, p: Pid, r: Proc, luck: Luck)
    requires FilesOk(f) && ProcOk(f, p, r) && p !in f.dead && Building(r.pc)
    ensures var (g, t) := LocalStep(f, p, r, luck); FilesOk(g) && ProcOk(g, p, t)
  {
    if luck.Breaks? {
      AbortKeeps(f, p, r, luck);
    } else if r.pc.PublishState? {
      PublishStateFiles(f, p, r, luck);
      PublishStateProc(f, p, r, luck);
    } else if r.pc.PublishArtifact? {
      PublishArtifactFiles(f, p, r, luck);
      PublishArtifactProc(f, p, r, luck);
    } else {
      StartKeeps(f, p, r, luck);
    }
  }

  lemma BuilderSparesOthers(f: Files, p: Pid, r: Proc, luck: Luck, q: Pid, o: Proc)
    requires FilesOk(f) && ProcOk(f, p, r) && ProcOk(f, q, o) && p != q && Building(r.pc)
    ensures ProcOk(LocalStep(f, p, r, luck).0, q, o)
  {
    var g := LocalStep(f, p, r, luck).0;
    assert g.lock == f.lock && g.recovery == f.recovery && g.dead == f.dead && !Holding(o.pc);
    assert !(o.pc.Ended? && o.pc.outcome.Complete?);
  }

  lemma RecoverySparesOthers(f: Files, p: Pid, r: Proc, luck: Luck, q: Pid, o: Proc)
    requires FilesOk(f) && ProcOk(f, p, r) && ProcOk(f, q, o) && p != q && p !in f.dead && q !in f.dead
    requires Recovering(r.pc)
    ensures ProcOk(LocalStep(f, p, r, luck).0, q, o)
  {
  }

  lemma LockerSparesOthers(f: Files, p: Pid, r: Proc, luck: Luck, q: Pid, o: Proc)
    requires FilesOk(f) && ProcOk(f, p, r) && ProcOk(f, q, o) && p != q && p !in f.dead && !Recovering(r.pc)
    requires !Building(r.pc)
    ensures ProcOk(LocalStep(f, p, r, luck).0, q, o)
  {
    var g := LocalStep(f, p, r, luck).0;
    assert g.disk == f.disk && g.recovery == f.recovery && g.dead == f.dead;
  }

  lemma LocalKeepsOthers(f: Files, p: Pid, r: Proc, luck: Luck, q: Pid, o: Proc)
    requires FilesOk(f) && ProcOk(f, p, r) && ProcOk(f, q, o) && p != q && p !in f.dead && q !in f.dead
    ensures ProcOk(LocalStep(f, p, r, luck).0, q, o)
  {
    if Building(r.pc) {
      BuilderSparesOthers(f, p, r, luck, q, o);
    } else if Recovering(r.pc) {
      RecoverySparesOthers(f, p, r, luck, q, o);
    } else {
      LockerSparesOthers(f, p, r, luck, q, o);
    }
  }

  /** A kill leaves the files as they are; the one assumption keeps `.recovery` honest. */
  lemma KillKeepsOthers(f: Files, p: Pid, q: Pid, o: Proc)
    requires ProcOk(f, q, o) && q != p
    ensures ProcOk(f.(dead := f.dead + {p}), q, o)
  {
  }

  lemma StepKeepsInv(s: State, m: Move)
    requires Inv(s) && Allowed(s, m)
    ensures Inv(Step(s, m))
  {
    var f := s.files;
    if m.Kill? {
      forall q | q in s.procs && q !in f.dead + {m.pid} ensures ProcOk(Step(s, m).files, q, s.procs[q]) {
        KillKeepsOthers(f, m.pid, q, s.procs[q]);
      }
    } else if m.pid in s.procs && m.pid !in f.dead {
      var r := s.procs[m.pid];
      if Recovering(r.pc) { RecoveryKeeps(f, m.pid, r, m.luck); }
      else if Building(r.pc) { BuildKeeps(f, m.pid, r, m.luck); }
      else { LockKeeps(f, m.pid, r, m.luck); }
      forall q | q in s.procs && q !in f.dead && q != m.pid ensures ProcOk(Step(s, m).files, q, s.procs[q]) {
        LocalKeepsOthers(f, m.pid, r, m.luck, q, s.procs[q]);
      }
    }
  }

  lemma AllowedBefore(s: State, moves: seq<Move>, k: nat)
    requires AllAllowed(s, moves) && k <= |moves|
    ensures AllAllowed(s, moves[..k])
  {
    forall i | 0 <= i < k ensures Allowed(Run(s, moves[..k][..i]), moves[..k][i]) {
      assert moves[..k][..i] == moves[..i];
    }
  }

  lemma {:induction false} ReachableInv(s: State, moves: seq<Move>)
    requires Initial(s) && AllAllowed(s, moves)
    ensures Inv(Run(s, moves))
  {
    if moves != [] {
      var k := |moves| - 1;
      AllowedBefore(s, moves, k);
      ReachableInv(s, moves[..k]);
      StepKeepsInv(Run(s, moves[..k]), moves[k]);
    }
  }
}
