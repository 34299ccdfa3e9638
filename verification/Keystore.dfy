/** The locked read-modify-write of the keystore (`updateKeystore`), as interleaved
    file-system steps of any number of writers and removers.  Any step may fail or be
    the process's last. */
module Keystore {
  import opened Wrappers

  type Pid = nat
  type KeyId = string
  datatype Entry = Entry(key: string, createdAt: int)
  datatype Store = Store(keys: map<KeyId, Entry>)
  const EMPTY := Store(map[])

  /** The callback each write hands to `updateKeystore`. */
  type Mutation = Store -> Store

  /** An entry minted at or after the scan began is spared. */
  predicate Prunable(id: KeyId, e: Entry, ids: set<KeyId>, mintedBefore: Option<int>) {
    id in ids && (mintedBefore.Some? ==> e.createdAt < mintedBefore.value)
  }

  function Prune(s: Store, ids: set<KeyId>, mintedBefore: Option<int>): Store {
    Store(map id | id in s.keys && !Prunable(id, s.keys[id], ids, mintedBefore) :: s.keys[id])
  }

  function PutEntry(id: KeyId, e: Entry): Mutation { (s: Store) => Store(s.keys[id := e]) }

  function RemoveEntries(ids: set<KeyId>, mintedBefore: Option<int>): Mutation {
    (s: Store) => Prune(s, ids, mintedBefore)
  }

  // ---- Processes ----

  datatype Outcome = Committed | LockedOut | Failed

  /** Where a process stands in `updateKeystore`. */
  datatype Pc =
    | Acquire(attempt: nat, transient: nat)
    | Read
    | OpenTemp(next: Store)                  // about to create the temp file
    | FillTemp(next: Store)                  // temp exists, content incomplete
    | Rename(next: Store)
    | Park(next: Store)                      // rename refused: park the old store first
    | RetryRename(next: Store, parked: bool)
    | DropBak
    | Release(outcome: Outcome)
    | Ended(outcome: Outcome)

  /** A crashed process keeps the place where it died. */
  datatype Proc = Proc(mutation: Mutation, retries: nat, pc: Pc, crashed: bool, ticket: nat)

  datatype Temp = Torn | Whole(store: Store)

  /** The lock file: absent, made by a run that goes on, or left by a create that then failed to
      write into it, whose run takes it for somebody else's. */
  datatype Lock = Free | Held(owner: Pid) | Ownerless

  /** What reached the store file: a commit, or the exit that leaves it absent with the lock freed. */
  datatype Event = Commit(ticket: nat, mutation: Mutation) | Lost(ticket: nat)

  datatype Files = Files(
    store: Option<Store>, lock: Lock,
    temps: map<Pid, Temp>, baks: map<Pid, Store>,
    log: seq<Event>,          // history, in order
    grants: nat,              // history: how often the lock was taken
    last: Store,              // history: the store of the last commit
    lost: map<Pid, Store>)    // history: what each losing process had parked

  datatype State = State(files: Files, procs: map<Pid, Proc>)

  /** A missing store file reads as an empty store. */
  function Contents(f: Files): Store { if f.store.Some? then f.store.value else EMPTY }

  function ApplyEvent(s: Store, e: Event): Store {
    if e.Commit? then e.mutation(s) else EMPTY
  }

  /** The store the history amounts to, one event at a time. */
  function Fold(init: Store, log: seq<Event>): Store {
    if log == [] then init else ApplyEvent(Fold(init, log[..|log| - 1]), log[|log| - 1])
  }

  /** How the outside treats one step: it works, the call fails with the retryable pair
      EEXIST/EPERM, it fails otherwise, or the process dies just before it. */
  datatype Luck = Works | Refused | Breaks | Dies

  const TRANSIENT_LOCK_CREATE_RETRIES := 3

  function AcquireStep(f: Files, p: Pid, r: Proc, luck: Luck): (Files, Proc)
    requires r.pc.Acquire?
  {
    var Acquire(attempt, transient) := r.pc;
    if luck == Works && f.lock.Free? then
      (f.(lock := Held(p), grants := f.grants + 1), r.(pc := Read, ticket := f.grants))
    else if luck == Works then  // EEXIST: the lock is taken
      (f, r.(pc := if attempt >= r.retries then Ended(LockedOut) else Acquire(attempt + 1, transient)))
    else
      // Any other error; one that strikes between the exclusive create and the write leaves the file behind.
      (if luck == Breaks && f.lock.Free? then f.(lock := Ownerless) else f,
       r.(pc := if attempt >= r.retries || transient + 1 > TRANSIENT_LOCK_CREATE_RETRIES then Ended(Failed)
                else Acquire(attempt + 1, transient + 1)))
  }

  function CommitStep(f: Files, p: Pid, r: Proc, next: Store, parked: bool): (Files, Proc) {
    (f.(store := Some(next), temps := f.temps - {p}, last := next, log := f.log + [Commit(r.ticket, r.mutation)]),
     r.(pc := if parked then DropBak else Release(Committed)))
  }

  /** One step of a live process. */
  function LocalStep(f: Files, p: Pid, r: Proc, luck: Luck): (Files, Proc) {
    match r.pc
    case Acquire(_, _) => AcquireStep(f, p, r, luck)
    case Read =>
      (f, r.(pc := if luck == Works then OpenTemp(r.mutation(Contents(f))) else Release(Failed)))
    case OpenTemp(next) =>
      if luck == Works then (f.(temps := f.temps[p := Torn]), r.(pc := FillTemp(next)))
      else (f, r.(pc := Release(Failed)))
    case FillTemp(next) =>
      if luck == Works then (f.(temps := f.temps[p := Whole(next)]), r.(pc := Rename(next)))
      else (f, r.(pc := Release(Failed)))
    case Rename(next) =>
      if luck == Works then CommitStep(f, p, r, next, false)
      else (f, r.(pc := if luck == Refused then Park(next) else Release(Failed)))
    case Park(next) =>
      if luck == Works && f.store.Some? then
        (f.(store := None, baks := f.baks[p := f.store.value]), r.(pc := RetryRename(next, true)))
      else (f, r.(pc := RetryRename(next, false)))
    case RetryRename(next, parked) =>
      if luck == Works then CommitStep(f, p, r, next, parked)
      else if parked && p in f.baks then
        (f.(log := f.log + [Lost(r.ticket)], lost := f.lost[p := f.baks[p]]), r.(pc := Release(Failed)))
      else (f, r.(pc := Release(Failed)))
    case DropBak =>
      (if luck == Works then f.(baks := f.baks - {p}) else f, r.(pc := Release(Committed)))
    case Release(o) =>
      (if luck == Works then f.(lock := Free) else f, r.(pc := Ended(o)))
    case Ended(_) => (f, r)
  }

  function Step(s: State, p: Pid, luck: Luck): State {
    if p !in s.procs || s.procs[p].crashed then s
    else if luck == Dies then s.(procs := s.procs[p := s.procs[p].(crashed := true)])
    else
      var (f, r) := LocalStep(s.files, p, s.procs[p], luck);
      State(f, s.procs[p := r])
  }

  datatype Move = Move(pid: Pid, luck: Luck)

  /** Any interleaving. */
  function Run(s: State, moves: seq<Move>): State {
    if moves == [] then s
    else Step(Run(s, moves[..|moves| - 1]), moves[|moves| - 1].pid, moves[|moves| - 1].luck)
  }

  /** Any store, any processes about to start, no lock. */
  ghost predicate Initial(s: State) {
    && s.files == Files(s.files.store, Free, map[], map[], [], 0, Contents(s.files), map[])
    && forall p :: p in s.procs ==> s.procs[p].pc == Acquire(0, 0) && !s.procs[p].crashed
  }

  // ---- Invariant ----

  predicate Inside(pc: Pc) { !pc.Acquire? && !pc.Ended? }

  /** Has read the store and not yet replaced it. */
  predicate Pending(pc: Pc) { pc.Read? || pc.OpenTemp? || pc.FillTemp? || pc.Rename? || pc.Park? || pc.RetryRename? }

  /** What the lock holder has done so far. */
  ghost predicate HolderOk(f: Files, init: Store, p: Pid, r: Proc) {
    var committed := Fold(init, f.log);
    var next := r.mutation(committed);
    match r.pc
    case Acquire(_, _) => false
    case OpenTemp(n) => Contents(f) == committed && n == next
    case FillTemp(n) => Contents(f) == committed && n == next
    case Rename(n) => Contents(f) == committed && n == next && p in f.temps && f.temps[p] == Whole(next)
    case Park(n) => Contents(f) == committed && n == next && p in f.temps && f.temps[p] == Whole(next)
    case RetryRename(n, parked) =>
      && n == next && p in f.temps && f.temps[p] == Whole(next)
      && (parked ==> f.store.None? && p in f.baks && f.baks[p] == committed)
      && (!parked ==> Contents(f) == committed)
    case DropBak => Contents(f) == committed && f.store == Some(f.last)
    case _ => Contents(f) == committed
  }

  predicate LastTicketBelow(log: seq<Event>, t: nat) {
    log != [] ==> log[|log| - 1].ticket < t
  }

  ghost predicate Logged(log: seq<Event>, r: Proc) {
    Commit(r.ticket, r.mutation) in log
  }

  /** What holds of one process, whatever the others do. */
  ghost predicate ProcOk(f: Files, init: Store, p: Pid, r: Proc) {
    && (Inside(r.pc) ==> f.lock == Held(p))
    && (f.lock == Held(p) ==> HolderOk(f, init, p, r))
    && (Pending(r.pc) ==> r.ticket < f.grants && LastTicketBelow(f.log, r.ticket))
    && (!r.pc.Release? && !r.pc.Ended? ==> p !in f.lost)
    && ((r.pc.Acquire? || (Pending(r.pc) && !r.pc.RetryRename?)) ==> p !in f.baks)
    && (r.pc.DropBak? || r.pc == Release(Committed) || r.pc == Ended(Committed) ==> Logged(f.log, r))
  }

  /** The last committed store is whole somewhere. */
  ghost predicate Intact(f: Files) {
    f.store == Some(f.last) || (exists q :: q in f.baks && f.baks[q] == f.last) || f.last == EMPTY
  }

  ghost predicate FilesOk(f: Files, init: Store) {
    && (!f.lock.Held? ==> Contents(f) == Fold(init, f.log))
    && Intact(f)
    && LastTicketBelow(f.log, f.grants)
    && (forall i :: 0 < i < |f.log| ==> f.log[i - 1].ticket < f.log[i].ticket)
    && (forall q :: q in f.lost ==> q in f.baks && f.baks[q] == f.lost[q])
  }

  ghost predicate Inv(s: State, init: Store) {
    && FilesOk(s.files, init)
    && (s.files.lock.Held? ==> s.files.lock.owner in s.procs)
    && (forall p :: p in s.procs ==> ProcOk(s.files, init, p, s.procs[p]))
  }

  lemma FoldSnoc(init: Store, log: seq<Event>, e: Event)
    ensures Fold(init, log + [e]) == ApplyEvent(Fold(init, log), e)
  {
    assert (log + [e])[..|log|] == log;
  }

  /** The rename that publishes the new store; parked tells which of the two it is. */
  lemma CommitKeeps(f: Files, init: Store, p: Pid, r: Proc, next: Store, parked: bool)
    requires FilesOk(f, init) && ProcOk(f, init, p, r)
    requires r.pc == RetryRename(next, parked) || (r.pc == Rename(next) && !parked)
    ensures var (g, t) := CommitStep(f, p, r, next, parked); ProcOk(g, init, p, t) && FilesOk(g, init)
  {
    FoldSnoc(init, f.log, Commit(r.ticket, r.mutation));
  }

  /** The second rename failed after the park. */
  lemma LosingKeeps(f: Files, init: Store, p: Pid, r: Proc, luck: Luck)
    requires FilesOk(f, init) && ProcOk(f, init, p, r)
    requires r.pc.RetryRename? && r.pc.parked && luck != Works
    ensures var (g, t) := LocalStep(f, p, r, luck); ProcOk(g, init, p, t) && FilesOk(g, init)
  {
    FoldSnoc(init, f.log, Lost(r.ticket));
  }

  lemma ParkKeeps(f: Files, init: Store, p: Pid, r: Proc, luck: Luck)
    requires FilesOk(f, init) && ProcOk(f, init, p, r) && r.pc.Park?
    ensures var (g, t) := LocalStep(f, p, r, luck); ProcOk(g, init, p, t) && FilesOk(g, init)
  {
    var g := LocalStep(f, p, r, luck).0;
    if q :| q in f.baks && f.baks[q] == f.last {
      assert q in g.baks && g.baks[q] == f.last;
    }
    if luck == Works && f.store.Some? {
      assert p in g.baks;
    }
  }

  lemma AcquireKeeps(f: Files, init: Store, p: Pid, r: Proc, luck: Luck)
    requires FilesOk(f, init) && ProcOk(f, init, p, r) && r.pc.Acquire? && luck != Dies
    ensures var (g, t) := LocalStep(f, p, r, luck); ProcOk(g, init, p, t) && FilesOk(g, init)
  {
  }

  lemma PrepareKeeps(f: Files, init: Store, p: Pid, r: Proc, luck: Luck)
    requires FilesOk(f, init) && ProcOk(f, init, p, r) && (r.pc.Read? || r.pc.OpenTemp? || r.pc.FillTemp?)
    requires luck != Dies
    ensures var (g, t) := LocalStep(f, p, r, luck); ProcOk(g, init, p, t) && FilesOk(g, init)
  {
  }

  lemma FinishKeeps(f: Files, init: Store, p: Pid, r: Proc, luck: Luck)
    requires FilesOk(f, init) && ProcOk(f, init, p, r) && (r.pc.DropBak? || r.pc.Release? || r.pc.Ended?)
    requires luck != Dies
    ensures var (g, t) := LocalStep(f, p, r, luck); ProcOk(g, init, p, t) && FilesOk(g, init)
  {
  }

  lemma LocalKeeps(f: Files, init: Store, p: Pid, r: Proc, luck: Luck)
    requires FilesOk(f, init) && ProcOk(f, init, p, r) && luck != Dies
    ensures var (g, t) := LocalStep(f, p, r, luck); ProcOk(g, init, p, t) && FilesOk(g, init)
  {
    match r.pc
    case Rename(next) => if luck == Works { CommitKeeps(f, init, p, r, next, false); }
    case Park(_) => ParkKeeps(f, init, p, r, luck);
    case RetryRename(next, parked) =>
      if luck == Works { CommitKeeps(f, init, p, r, next, parked); }
      else if parked { LosingKeeps(f, init, p, r, luck); }
    case Acquire(_, _) => AcquireKeeps(f, init, p, r, luck);
    case Read => PrepareKeeps(f, init, p, r, luck);
    case OpenTemp(_) => PrepareKeeps(f, init, p, r, luck);
    case FillTemp(_) => PrepareKeeps(f, init, p, r, luck);
    case _ => FinishKeeps(f, init, p, r, luck);
  }

  /** A step of p never breaks what holds of q. */
  lemma LocalKeepsOthers(f: Files, init: Store, p: Pid, r: Proc, luck: Luck, q: Pid, o: Proc)
    requires FilesOk(f, init) && ProcOk(f, init, p, r) && ProcOk(f, init, q, o) && q != p && luck != Dies
    ensures ProcOk(LocalStep(f, p, r, luck).0, init, q, o)
  {
    if r.pc.Acquire? {
      AcquireSparesOthers(f, init, p, r, luck, q, o);
    } else if !r.pc.Ended? {
      HolderSparesOthers(f, init, p, r, luck, q, o);
    }
  }

  /** q is outside, so only its own `.bak`, its lost store and its commit are its concern. */
  lemma HolderSparesOthers(f: Files, init: Store, p: Pid, r: Proc, luck: Luck, q: Pid, o: Proc)
    requires ProcOk(f, init, p, r) && ProcOk(f, init, q, o) && q != p && luck != Dies && Inside(r.pc)
    ensures ProcOk(LocalStep(f, p, r, luck).0, init, q, o)
  {
    OnlyMine(f, p, r, luck, q);
    OnlyGrows(f, p, r, luck);
    var g := LocalStep(f, p, r, luck).0;
    assert f.lock == Held(p) && !Inside(o.pc) && g.lock != Held(q);
    if Logged(f.log, o) { assert Logged(g.log, o); }
  }

  /** A step takes the lock for itself at most, and leaves every other process's files alone. */
  lemma OnlyMine(f: Files, p: Pid, r: Proc, luck: Luck, q: Pid)
    ensures var g := LocalStep(f, p, r, luck).0;
      && (g.lock == f.lock || !g.lock.Held? || g.lock.owner == p)
      && (q != p ==> (q in g.baks <==> q in f.baks) && (q in g.lost <==> q in f.lost))
  {
    LockIsMine(f, p, r, luck);
    if q != p { OthersBaksStay(f, p, r, luck, q); }
  }

  lemma LockIsMine(f: Files, p: Pid, r: Proc, luck: Luck)
    ensures var g := LocalStep(f, p, r, luck).0; g.lock == f.lock || !g.lock.Held? || g.lock.owner == p
  {
  }

  lemma OthersBaksStay(f: Files, p: Pid, r: Proc, luck: Luck, q: Pid)
    requires q != p
    ensures var g := LocalStep(f, p, r, luck).0; (q in g.baks <==> q in f.baks) && (q in g.lost <==> q in f.lost)
  {
    var g := LocalStep(f, p, r, luck).0;
    match r.pc
    case Park(_) => assert g.lost == f.lost;
    case RetryRename(_, _) => assert g.baks == f.baks;
    case DropBak => assert g.lost == f.lost;
    case _ => assert g.baks == f.baks && g.lost == f.lost;
  }

  lemma OnlyGrows(f: Files, p: Pid, r: Proc, luck: Luck)
    ensures f.log <= LocalStep(f, p, r, luck).0.log && f.grants <= LocalStep(f, p, r, luck).0.grants
  {
  }

  lemma AcquireSparesOthers(f: Files, init: Store, p: Pid, r: Proc, luck: Luck, q: Pid, o: Proc)
    requires r.pc.Acquire? && ProcOk(f, init, q, o) && q != p && luck != Dies
    ensures ProcOk(LocalStep(f, p, r, luck).0, init, q, o)
  {
  }

  lemma StepKeepsInv(s: State, init: Store, p: Pid, luck: Luck)
    requires Inv(s, init)
    ensures Inv(Step(s, p, luck), init)
  {
    if p in s.procs && !s.procs[p].crashed && luck != Dies {
      var (f, r) := LocalStep(s.files, p, s.procs[p], luck);
      LocalKeeps(s.files, init, p, s.procs[p], luck);
      forall q | q in s.procs && q != p ensures ProcOk(f, init, q, s.procs[q]) {
        LocalKeepsOthers(s.files, init, p, s.procs[p], luck, q, s.procs[q]);
      }
      HolderRuns(s, init, p, luck);
    }
  }

  /** Whoever holds the lock is one of the processes. */
  lemma HolderRuns(s: State, init: Store, p: Pid, luck: Luck)
    requires Inv(s, init) && p in s.procs && luck != Dies
    ensures var f := LocalStep(s.files, p, s.procs[p], luck).0; f.lock.Held? ==> f.lock.owner in s.procs
  {
    OnlyMine(s.files, p, s.procs[p], luck, p);
  }
}
