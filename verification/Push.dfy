/** `pushSkill`: upload new run records in order behind a cursor, skip what the cloud rejects
    for good, stop at what may be retried. */
module Push {
  import opened Wrappers
  import opened Sequences

  datatype Reply = Status(code: nat) | NetworkError
  datatype Outcome = Pushed | Rejected | TooLarge | AuthFailed | Error

  function OutcomeOf(r: Reply): Outcome {
    if r.NetworkError? then Error
    else if r.code == 202 then Pushed
    else if r.code == 401 then AuthFailed
    else if r.code == 400 then Rejected
    else if r.code == 413 then TooLarge
    else Error
  }

  predicate Permanent(o: Outcome) { o == Rejected || o == TooLarge }

  /** The cursor advances past accepted and permanently rejected records. */
  predicate Consumes(o: Outcome) { o == Pushed || Permanent(o) }

  /** What reached the cloud. */
  datatype Sent = SkillFile | RunRecord(index: nat, outcome: Outcome)

  datatype SkillState = SkillState(pushed: nat, skillUploaded: bool, rejected: seq<nat>)

  datatype Options = Options(all: bool, dryRun: bool, withSkill: bool, publish: bool)

  /** What the push depends on outside the state: which records are mock runs, whether a key is
      configured, whether the skill upload succeeds, and the reply to each record. */
  datatype World = World(mock: seq<bool>, configured: bool, uploads: bool, reply: nat -> Reply)

  datatype Result = Result(cursorBefore: nat, results: seq<Sent>, pushedCount: nat, rejectedCount: nat,
                           cursorAfter: nat, aborted: bool, skillUploaded: bool)

  function Cursor(s: Option<SkillState>): nat { if s.None? then 0 else s.value.pushed }

  function Audit(s: Option<SkillState>): seq<nat> { if s.None? then [] else s.value.rejected }

  function Uploaded(s: Option<SkillState>): bool { s.Some? && s.value.skillUploaded }

  /** The records sent from index i on: all up to the first that may be retried, with it. */
  function Sends(reply: nat -> Reply, i: nat, n: nat): seq<Sent>
    decreases n - i
  {
    if i >= n then []
    else
      var o := OutcomeOf(reply(i));
      [RunRecord(i, o)] + if Consumes(o) then Sends(reply, i + 1, n) else []
  }

  function ConsumedBy(s: Sent): seq<nat> { if s.RunRecord? && Consumes(s.outcome) then [s.index] else [] }

  function RejectedBy(s: Sent): seq<nat> { if s.RunRecord? && Permanent(s.outcome) then [s.index] else [] }

  /** Indices consumed, and indices rejected for good, in order. */
  function Consumed(log: seq<Sent>): seq<nat> { if log == [] then [] else ConsumedBy(log[0]) + Consumed(log[1..]) }

  function Accepted(log: seq<Sent>): nat {
    if log == [] then 0
    else (if log[0].RunRecord? && log[0].outcome == Pushed then 1 else 0) + Accepted(log[1..])
  }

  function Rejections(log: seq<Sent>): seq<nat> { if log == [] then [] else RejectedBy(log[0]) + Rejections(log[1..]) }

  function From(o: Options, s: Option<SkillState>): nat { if o.all then 0 else Cursor(s) }

  predicate HasMock(w: World, from: nat) { exists i :: from <= i < |w.mock| && w.mock[i] }

  /** Nothing is sent and nothing is stored. */
  predicate Refuses(o: Options, s: Option<SkillState>, w: World) {
    HasMock(w, From(o, s)) || (!o.dryRun && (!w.configured || (NeedsSkill(o, s) && !w.uploads)))
  }

  predicate NeedsSkill(o: Options, s: Option<SkillState>) { o.withSkill || o.publish || !Uploaded(s) }

  function Log(o: Options, s: Option<SkillState>, w: World): seq<Sent> {
    if Refuses(o, s, w) || o.dryRun then []
    else (if NeedsSkill(o, s) then [SkillFile] else []) + Sends(w.reply, From(o, s), |w.mock|)
  }

  /** What a dry run pretends. */
  function Hypothetical(from: nat, n: nat): seq<Sent> {
    seq(if from <= n then n - from else 0, i requires 0 <= i => RunRecord(from + i, Pushed))
  }

  function ResultOf(o: Options, s: Option<SkillState>, w: World): Result {
    var from := From(o, s);
    if o.dryRun then Result(from, Hypothetical(from, |w.mock|), 0, 0, from, false, false)
    else
      var sends := Sends(w.reply, from, |w.mock|);
      var after := from + |Consumed(sends)|;
      Result(from, sends, Accepted(sends), |Rejections(sends)|, after, after < |w.mock|, NeedsSkill(o, s))
  }

  function NewState(o: Options, s: Option<SkillState>, w: World): Option<SkillState> {
    if Refuses(o, s, w) || o.dryRun then s
    else
      var sends := Sends(w.reply, From(o, s), |w.mock|);
      Some(SkillState(From(o, s) + |Consumed(sends)|, NeedsSkill(o, s) || Uploaded(s), Audit(s) + Rejections(sends)))
  }

  lemma {:induction false} ConsumedAppend(a: seq<Sent>, b: seq<Sent>)
    ensures Consumed(a + b) == Consumed(a) + Consumed(b)
  {
    if a == [] {
      assert a + b == b;
    } else {
      ConsumedAppend(a[1..], b);
      assert (a + b)[0] == a[0] && (a + b)[1..] == a[1..] + b;
      Assoc(ConsumedBy(a[0]), Consumed(a[1..]), Consumed(b));
    }
  }

  lemma {:induction false} RejectionsAppend(a: seq<Sent>, b: seq<Sent>)
    ensures Rejections(a + b) == Rejections(a) + Rejections(b)
  {
    if a == [] {
      assert a + b == b;
    } else {
      RejectionsAppend(a[1..], b);
      assert (a + b)[0] == a[0] && (a + b)[1..] == a[1..] + b;
      Assoc(RejectedBy(a[0]), Rejections(a[1..]), Rejections(b));
    }
  }

  lemma {:induction false} AcceptedSnoc(log: seq<Sent>, s: Sent)
    ensures Accepted(log + [s]) == Accepted(log) + if s.RunRecord? && s.outcome == Pushed then 1 else 0
  {
    var all := log + [s];
    if log == [] {
      assert all[0] == s && all[1..] == [];
    } else {
      AcceptedSnoc(log[1..], s);
      assert all[0] == log[0] && all[1..] == log[1..] + [s];
    }
  }

  lemma LogSnoc(log: seq<Sent>, s: Sent)
    ensures Consumed(log + [s]) == Consumed(log) + ConsumedBy(s)
    ensures Rejections(log + [s]) == Rejections(log) + RejectedBy(s)
  {
    ConsumedAppend(log, [s]);
    RejectionsAppend(log, [s]);
    assert Consumed([s]) == ConsumedBy(s) && Rejections([s]) == RejectedBy(s);
  }

  lemma ConsumedHead(s: Sent, rest: seq<Sent>)
    ensures Consumed([s] + rest) == ConsumedBy(s) + Consumed(rest)
  {
    assert ([s] + rest)[1..] == rest;
  }

  /** The counters after these sends. */
  ghost predicate Tallied(results: seq<Sent>, pushedCount: nat, newlyRejected: seq<nat>, consumed: nat) {
    && pushedCount == Accepted(results) && newlyRejected == Rejections(results)
    && pushedCount + |newlyRejected| == |Consumed(results)| == consumed
  }

  lemma TallyStep(results: seq<Sent>, pushedCount: nat, newlyRejected: seq<nat>, consumed: nat, i: nat, o: Outcome)
    requires Tallied(results, pushedCount, newlyRejected, consumed)
    ensures var next := results + [RunRecord(i, o)];
      && (o == Pushed ==> Tallied(next, pushedCount + 1, newlyRejected, consumed + 1))
      && (Permanent(o) ==> Tallied(next, pushedCount, newlyRejected + [i], consumed + 1))
      && (!Consumes(o) ==> Tallied(next, pushedCount, newlyRejected, consumed))
  {
    LogSnoc(results, RunRecord(i, o));
    AcceptedSnoc(results, RunRecord(i, o));
  }

  lemma LogGrows(before: seq<Sent>, o: Options, s: Option<SkillState>, w: World)
    requires !Refuses(o, s, w) && !o.dryRun
    ensures before + Log(o, s, w) ==
      (if NeedsSkill(o, s) then before + [SkillFile] else before) + Sends(w.reply, From(o, s), |w.mock|)
  {
    var sends := Sends(w.reply, From(o, s), |w.mock|);
    if NeedsSkill(o, s) { Assoc(before, [SkillFile], sends); } else { assert [] + sends == sends; }
  }

  class Pusher {
    var state: Option<SkillState>
    ghost var log: seq<Sent>

    constructor ()
      ensures state == None && log == []
    {
      state, log := None, [];
    }

    /** None when it throws. */
    method Push(o: Options, w: World) returns (r: Option<Result>)
      modifies this
      ensures state == NewState(o, old(state), w) && log == old(log) + Log(o, old(state), w)
      ensures r == if Refuses(o, old(state), w) then None else Some(ResultOf(o, old(state), w))
    {
      var cursorBefore := if o.all then 0 else Cursor(state);
      var n := |w.mock|;
      if HasMock(w, cursorBefore) { return None; }
      if o.dryRun {
        return Some(Result(cursorBefore, Hypothetical(cursorBefore, n), 0, 0, cursorBefore, false, false));
      }
      if !w.configured { return None; }
      var skillUploaded := false;
      if NeedsSkill(o, state) {
        if !w.uploads { return None; }
        skillUploaded := true;
        log := log + [SkillFile];
      }
      var results, pushedCount, newlyRejected, aborted := SendAll(w, cursorBefore);
      LogGrows(old(log), o, old(state), w);
      var consumedCount := pushedCount + |newlyRejected|;
      var cursorAfter := cursorBefore + consumedCount;
      state := Some(SkillState(cursorAfter, skillUploaded || Uploaded(state), Audit(state) + newlyRejected));
      return Some(Result(cursorBefore, results, pushedCount, |newlyRejected|, cursorAfter, aborted, skillUploaded));
    }

    method SendAll(w: World, cursorBefore: nat)
      returns (results: seq<Sent>, pushedCount: nat, newlyRejected: seq<nat>, aborted: bool)
      modifies this`log
      ensures results == Sends(w.reply, cursorBefore, |w.mock|) && log == old(log) + results
      ensures Tallied(results, pushedCount, newlyRejected, |Consumed(results)|)
      ensures aborted == (cursorBefore + |Consumed(results)| < |w.mock|)
    {
      results, pushedCount, newlyRejected, aborted := [], 0, [], false;
      ghost var n := |w.mock|;
      ghost var all := Sends(w.reply, cursorBefore, n);
      var i := cursorBefore;
      while i < |w.mock|
        invariant cursorBefore <= i && (i <= n || i == cursorBefore)
        invariant all == results + Sends(w.reply, i, n)
        invariant log == old(log) + results
        invariant Tallied(results, pushedCount, newlyRejected, i - cursorBefore)
        decreases n - i
      {
        var outcome := OutcomeOf(w.reply(i));
        ghost var rest := if Consumes(outcome) then Sends(w.reply, i + 1, n) else [];
        Assoc(results, [RunRecord(i, outcome)], rest);
        TallyStep(results, pushedCount, newlyRejected, i - cursorBefore, i, outcome);
        log := log + [RunRecord(i, outcome)];
        results := results + [RunRecord(i, outcome)];
        if outcome == Pushed {
          pushedCount := pushedCount + 1;
        } else if Permanent(outcome) {
          newlyRejected := newlyRejected + [i];
        } else {
          aborted := true;
          return;
        }
        i := i + 1;
      }
    }
  }

  // ---- One push ----

  function Range(from: nat, n: nat): seq<nat> { seq(n, i requires 0 <= i < n => from + i) }

  lemma SendsHead(reply: nat -> Reply, i: nat, n: nat)
    requires i < n
    ensures var o := OutcomeOf(reply(i)); var rest := if Consumes(o) then Sends(reply, i + 1, n) else [];
      && Sends(reply, i, n) == [RunRecord(i, o)] + rest
      && Consumed(Sends(reply, i, n)) == (if Consumes(o) then [i] else []) + Consumed(rest)
  {
    var o := OutcomeOf(reply(i));
    ConsumedHead(RunRecord(i, o), if Consumes(o) then Sends(reply, i + 1, n) else []);
  }

  lemma {:induction false} ConsumedInOrder(reply: nat -> Reply, i: nat, n: nat)
    ensures var k := |Consumed(Sends(reply, i, n))|;
      Consumed(Sends(reply, i, n)) == Range(i, k) && (i <= n ==> i + k <= n)
    decreases n - i
  {
    if i < n {
      SendsHead(reply, i, n);
      if Consumes(OutcomeOf(reply(i))) {
        ConsumedInOrder(reply, i + 1, n);
        RangeHead(i, |Consumed(Sends(reply, i + 1, n))|);
      }
    }
  }

  lemma {:induction false} StopsShort(reply: nat -> Reply, i: nat, n: nat)
    requires i + |Consumed(Sends(reply, i, n))| < n
    ensures var sends := Sends(reply, i, n); sends != [] && StopsAt(reply, sends[|sends| - 1], i + |Consumed(sends)|)
    decreases n - i
  {
    SendsHead(reply, i, n);
    if Consumes(OutcomeOf(reply(i))) { StopsShort(reply, i + 1, n); }
  }

  /** A push consumes consecutive records from its start; it stops short only at a record that
      may be retried, which it sent last. */
  lemma SendsInOrder(reply: nat -> Reply, i: nat, n: nat)
    ensures var sends := Sends(reply, i, n); var k := |Consumed(sends)|;
      && Consumed(sends) == Range(i, k)
      && (i <= n ==> i + k <= n)
      && (i + k < n ==> sends != [] && StopsAt(reply, sends[|sends| - 1], i + k))
  {
    ConsumedInOrder(reply, i, n);
    if i + |Consumed(Sends(reply, i, n))| < n { StopsShort(reply, i, n); }
  }

  predicate StopsAt(reply: nat -> Reply, last: Sent, i: nat) {
    last == RunRecord(i, OutcomeOf(reply(i))) && !Consumes(last.outcome)
  }

  /** Consumed: accepted, or refused for what the record itself is. */
  predicate Settled(r: Reply) { r == Status(202) || r == Status(400) || r == Status(413) }

  /** The codes decide: a record is consumed exactly if it and all before it are answered 202, 400 or 413,
      and goes to the audit list exactly if its own answer is one of the last two. */
  lemma {:induction false} CodesDecide(reply: nat -> Reply, i: nat, n: nat, x: nat)
    ensures x in Consumed(Sends(reply, i, n)) <==> i <= x < n && forall j :: i <= j <= x ==> Settled(reply(j))
    ensures x in Rejections(Sends(reply, i, n)) <==>
      x in Consumed(Sends(reply, i, n)) && (reply(x) == Status(400) || reply(x) == Status(413))
    decreases n - i
  {
    if i < n {
      SendsHead(reply, i, n);
      var o := OutcomeOf(reply(i));
      assert Consumes(o) <==> Settled(reply(i));
      assert Rejections(Sends(reply, i, n)) ==
        RejectedBy(RunRecord(i, o)) + Rejections(if Consumes(o) then Sends(reply, i + 1, n) else []);
      if Consumes(o) { CodesDecide(reply, i + 1, n, x); }
    }
  }

  lemma RangeHead(from: nat, n: nat)
    ensures Range(from, n + 1) == [from] + Range(from + 1, n)
  {
  }

  lemma RangeSplit(from: nat, m: nat, n: nat)
    ensures Range(from, m + n) == Range(from, m) + Range(from + m, n)
  {
  }

  /** A batch with a mock run in it sends nothing, not even the skill. */
  lemma MockSendsNothing(o: Options, s: Option<SkillState>, w: World, i: nat)
    requires From(o, s) <= i < |w.mock| && w.mock[i]
    ensures Log(o, s, w) == [] && NewState(o, s, w) == s
  {
  }

  // ---- Every sequence of pushes ----

  datatype Attempt = Attempt(options: Options, world: World)

  datatype History = History(state: Option<SkillState>, log: seq<Sent>)

  function After(h: History, a: Attempt): History {
    History(NewState(a.options, h.state, a.world), h.log + Log(a.options, h.state, a.world))
  }

  function Run(h: History, attempts: seq<Attempt>): History
    decreases |attempts|
  {
    if attempts == [] then h else Run(After(h, attempts[0]), attempts[1..])
  }

  const FRESH := History(None, [])

  predicate Incremental(attempts: seq<Attempt>) { forall i :: 0 <= i < |attempts| ==> !attempts[i].options.all }

  /** The cursor counts the consumed records, which are 0, 1, 2, ... in order, each once; the
      audit list is exactly the rejected ones. */
  ghost predicate Accounted(h: History) {
    Consumed(h.log) == Range(0, Cursor(h.state)) && Audit(h.state) == Rejections(h.log)
  }

  lemma LogWithSkill(log: seq<Sent>, skill: bool, sends: seq<Sent>)
    ensures var all := log + ((if skill then [SkillFile] else []) + sends);
      Consumed(all) == Consumed(log) + Consumed(sends) && Rejections(all) == Rejections(log) + Rejections(sends)
  {
    var first := log + if skill then [SkillFile] else [];
    if skill {
      LogSnoc(log, SkillFile);
      assert Consumed(log) + [] == Consumed(log) && Rejections(log) + [] == Rejections(log);
    } else {
      assert first == log;
    }
    assert log + ((if skill then [SkillFile] else []) + sends) == first + sends;
    ConsumedAppend(first, sends);
    RejectionsAppend(first, sends);
  }

  /** The history and the cursor move on together. */
  ghost predicate Advances(h: History, after: History, sends: seq<Sent>) {
    && Cursor(after.state) == Cursor(h.state) + |Consumed(sends)|
    && Audit(after.state) == Audit(h.state) + Rejections(sends)
    && Consumed(after.log) == Consumed(h.log) + Consumed(sends)
    && Rejections(after.log) == Rejections(h.log) + Rejections(sends)
  }

  lemma AttemptAdvances(h: History, a: Attempt)
    requires !a.options.all && !Refuses(a.options, h.state, a.world) && !a.options.dryRun
    ensures Advances(h, After(h, a), Sends(a.world.reply, Cursor(h.state), |a.world.mock|))
  {
    LogWithSkill(h.log, NeedsSkill(a.options, h.state), Sends(a.world.reply, Cursor(h.state), |a.world.mock|));
  }

  lemma AttemptAccounted(h: History, a: Attempt)
    requires Accounted(h) && !a.options.all
    ensures Accounted(After(h, a)) && Cursor(After(h, a).state) >= Cursor(h.state)
  {
    if Refuses(a.options, h.state, a.world) || a.options.dryRun {
      assert h.log + [] == h.log;
    } else {
      var sends := Sends(a.world.reply, Cursor(h.state), |a.world.mock|);
      AttemptAdvances(h, a);
      SendsAccounted(h, After(h, a), a.world.reply, |a.world.mock|, sends);
    }
  }

  lemma SendsAccounted(h: History, after: History, reply: nat -> Reply, n: nat, sends: seq<Sent>)
    requires Accounted(h) && sends == Sends(reply, Cursor(h.state), n) && Advances(h, after, sends)
    ensures Accounted(after)
  {
    SendsInOrder(reply, Cursor(h.state), n);
    RangeSplit(0, Cursor(h.state), |Consumed(sends)|);
  }

  lemma {:induction false} RunAccounted(h: History, attempts: seq<Attempt>)
    requires Accounted(h) && Incremental(attempts)
    ensures Accounted(Run(h, attempts)) && Cursor(Run(h, attempts).state) >= Cursor(h.state)
    decreases |attempts|
  {
    if attempts != [] {
      AttemptAccounted(h, attempts[0]);
      RunAccounted(After(h, attempts[0]), attempts[1..]);
    }
  }

  lemma {:induction false} RejectionsConsumed(log: seq<Sent>, lo: nat)
    requires Consumed(log) == Range(lo, |Consumed(log)|)
    ensures forall i, j :: 0 <= i < j < |Rejections(log)| ==> Rejections(log)[i] < Rejections(log)[j]
    ensures forall i :: 0 <= i < |Rejections(log)| ==> lo <= Rejections(log)[i] < lo + |Consumed(log)|
  {
    if log != [] {
      var rest := Consumed(log[1..]);
      if log[0].RunRecord? && Consumes(log[0].outcome) {
        assert Consumed(log) == [log[0].index] + rest && Consumed(log)[0] == lo;
        assert rest == Consumed(log)[1..] == Range(lo + 1, |rest|);
        RejectionsConsumed(log[1..], lo + 1);
      } else {
        RejectionsConsumed(log[1..], lo);
      }
    }
  }

  lemma {:induction false} RangeTimes(from: nat, n: nat, x: nat)
    ensures Times(Range(from, n), x) == if from <= x < from + n then 1 else 0
    decreases n
  {
    if n > 0 {
      RangeTimes(from + 1, n - 1, x);
      assert Range(from, n)[1..] == Range(from + 1, n - 1) && Range(from, n)[0] == from;
    }
  }

  /** Over any sequence of pushes without `--all`: each record below the cursor was accepted or
      rejected exactly once and none above it, and the audit list is strictly increasing and
      holds exactly the rejected ones. */
  lemma EachOnce(attempts: seq<Attempt>, x: nat)
    requires Incremental(attempts)
    ensures var h := Run(FRESH, attempts);
      && Times(Consumed(h.log), x) == (if x < Cursor(h.state) then 1 else 0)
      && Audit(h.state) == Rejections(h.log)
      && forall i, j :: 0 <= i < j < |Audit(h.state)| ==> Audit(h.state)[i] < Audit(h.state)[j] < Cursor(h.state)
  {
    var h := Run(FRESH, attempts);
    assert Consumed([]) == Range(0, 0);
    RunAccounted(FRESH, attempts);
    RangeTimes(0, Cursor(h.state), x);
    RejectionsConsumed(h.log, 0);
  }

  /** The first record the next push sends is the one at the cursor: after an aborted push,
      the one that stopped it. */
  lemma RetriesAtCursor(h: History, a: Attempt, b: Attempt)
    requires !a.options.all && !b.options.all && !a.options.dryRun && !b.options.dryRun
    requires !Refuses(a.options, h.state, a.world) && !Refuses(b.options, After(h, a).state, b.world)
    requires Cursor(After(h, a).state) < |a.world.mock| <= |b.world.mock|
    ensures var c := Cursor(After(h, a).state);
      && !Consumes(OutcomeOf(a.world.reply(c)))
      && Sends(b.world.reply, c, |b.world.mock|) != []
      && Sends(b.world.reply, c, |b.world.mock|)[0] == RunRecord(c, OutcomeOf(b.world.reply(c)))
  {
    var c := Cursor(After(h, a).state);
    SendsInOrder(a.world.reply, Cursor(h.state), |a.world.mock|);
    assert c == Cursor(h.state) + |Consumed(Sends(a.world.reply, Cursor(h.state), |a.world.mock|))|;
    assert Sends(b.world.reply, c, |b.world.mock|)[0] == RunRecord(c, OutcomeOf(b.world.reply(c)));
  }

  // ---- With `--all` ----

  /** The records end here, or this one may be retried. */
  predicate EndsAt(w: World, i: nat) { i == |w.mock| || (i < |w.mock| && !Consumes(OutcomeOf(w.reply(i)))) }

  /** A push with `--all` starts over, and moves the cursor back exactly when it is stopped, or
      runs out of records, before the old cursor. */
  lemma AllRewindsExactly(o: Options, s: Option<SkillState>, w: World)
    requires o.all && !o.dryRun && !Refuses(o, s, w)
    ensures Cursor(NewState(o, s, w)) < Cursor(s) <==>
      exists i: nat :: i < Cursor(s) && EndsAt(w, i)
  {
    var c := Cursor(NewState(o, s, w));
    var sends := Sends(w.reply, 0, |w.mock|);
    SendsInOrder(w.reply, 0, |w.mock|);
    assert c == |Consumed(sends)| <= |w.mock|;
    AllConsumed(w.reply, 0, |w.mock|, c);
    assert EndsAt(w, c);
  }

  /** Two records uploaded, a third push with `--all` that the network stops at once: the cursor is back at the
      start, and the next push sends both records again. */
  lemma RewindSendsAgain(down: World, up: World)
    requires down.mock == up.mock == [false, false] && down.configured && up.configured && down.reply(0) == NetworkError
    requires up.reply(0) == up.reply(1) == Status(202)
    ensures var s := Some(SkillState(2, true, [])); var t := NewState(Options(true, false, false, false), s, down);
      && Cursor(t) == 0
      && Log(Options(false, false, false, false), t, up) == [RunRecord(0, Pushed), RunRecord(1, Pushed)]
  {
    assert Sends(down.reply, 0, 2) == [RunRecord(0, Error)];
    assert Consumed([RunRecord(0, Error)]) == [];
    assert Sends(up.reply, 2, 2) == [];
    assert Sends(up.reply, 1, 2) == [RunRecord(1, Pushed)];
    assert Sends(up.reply, 0, 2) == [RunRecord(0, Pushed)] + Sends(up.reply, 1, 2);
  }

  lemma {:induction false} AllConsumed(reply: nat -> Reply, i: nat, n: nat, c: nat)
    requires i <= c <= n && c == i + |Consumed(Sends(reply, i, n))|
    ensures forall j :: i <= j < c ==> Consumes(OutcomeOf(reply(j)))
    decreases n - i
  {
    if i < c {
      var o := OutcomeOf(reply(i));
      var rest := if Consumes(o) then Sends(reply, i + 1, n) else [];
      ConsumedHead(RunRecord(i, o), rest);
      assert Sends(reply, i, n) == [RunRecord(i, o)] + rest;
      if Consumes(o) { AllConsumed(reply, i + 1, n, c); }
    }
  }
}
