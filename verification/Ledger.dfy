/** Deferred attestations on an append-only run ledger: a pending attestation is never edited,
    only answered by a second record that names it. */
module Ledger {
  import opened Wrappers
  import opened Sequences

  // ---- Records ----

  datatype Confidence = Exact | Partial | Absent | Pending

  /** `deferredUntil` is a printed instant; empty and missing are different. */
  datatype Attest = Attest(confidence: Confidence, deferredUntil: Option<string>, selector: string)

  /** The identity of one dispatch whose post-state is still to be seen. */
  datatype Key = Key(step: nat, deferredUntil: string, approvalHash: string, artifactDigest: string, dispatchId: string)

  datatype Waiting = Waiting(key: Key, selector: string)

  /** `resolutionOf` is the join a resolution carries, apart from its step number. */
  datatype StepRecord = StepRecord(n: nat, attest: Option<Attest>, approvalHash: Option<string>,
                                   dispatchId: Option<string>,
                                   artifactDigest: Option<string>, resolutionOf: Option<Key>)

  datatype Record = Record(steps: seq<StepRecord>, deferredResolution: bool)

  /** `pendingAttestations`, for one step. */
  function WaitingIn(s: StepRecord): seq<Waiting> {
    if s.attest.None? || s.attest.value.confidence != Pending then []
    else if s.attest.value.deferredUntil.None? || s.attest.value.deferredUntil.value == "" then []
    else if s.approvalHash.None? || s.dispatchId.None? || s.artifactDigest.None? then []
    else
      [Waiting(Key(s.n, s.attest.value.deferredUntil.value, s.approvalHash.value, s.artifactDigest.value,
                   s.dispatchId.value),
               s.attest.value.selector)]
  }

  /** The keys a step answers. */
  function AnswersIn(s: StepRecord): seq<Key> {
    if s.attest.None? || s.attest.value.deferredUntil.None? || s.attest.value.confidence == Pending then []
    else if s.resolutionOf.None? then []
    else [s.resolutionOf.value.(step := s.n)]
  }

  function Steps(records: seq<Record>): seq<StepRecord> {
    if records == [] then [] else records[0].steps + Steps(records[1..])
  }

  function WaitingList(steps: seq<StepRecord>): seq<Waiting> {
    if steps == [] then [] else WaitingIn(steps[0]) + WaitingList(steps[1..])
  }

  function AnswerList(steps: seq<StepRecord>): seq<Key> {
    if steps == [] then [] else AnswersIn(steps[0]) + AnswerList(steps[1..])
  }

  function ToSet<T>(s: seq<T>): set<T> { set x | x in s }

  /** The first attestation of each key that is not to be skipped, in order. */
  function Fresh(ws: seq<Waiting>, skip: set<Key>): seq<Waiting> {
    if ws == [] then []
    else if ws[0].key in skip then Fresh(ws[1..], skip)
    else [ws[0]] + Fresh(ws[1..], skip + {ws[0].key})
  }

  function Unresolved(records: seq<Record>): seq<Waiting> {
    Fresh(WaitingList(Steps(records)), ToSet(AnswerList(Steps(records))))
  }

  lemma {:induction false} StepsAppend(a: seq<Record>, b: seq<Record>)
    ensures Steps(a + b) == Steps(a) + Steps(b)
  {
    if a == [] {
      assert a + b == b;
    } else {
      StepsAppend(a[1..], b);
      assert (a + b)[0] == a[0] && (a + b)[1..] == a[1..] + b;
      Assoc(a[0].steps, Steps(a[1..]), Steps(b));
    }
  }

  lemma {:induction false} WaitingAppend(a: seq<StepRecord>, b: seq<StepRecord>)
    ensures WaitingList(a + b) == WaitingList(a) + WaitingList(b)
  {
    if a == [] {
      assert a + b == b;
    } else {
      WaitingAppend(a[1..], b);
      assert (a + b)[0] == a[0] && (a + b)[1..] == a[1..] + b;
      Assoc(WaitingIn(a[0]), WaitingList(a[1..]), WaitingList(b));
    }
  }

  lemma {:induction false} AnswersAppend(a: seq<StepRecord>, b: seq<StepRecord>)
    ensures AnswerList(a + b) == AnswerList(a) + AnswerList(b)
  {
    if a == [] {
      assert a + b == b;
    } else {
      AnswersAppend(a[1..], b);
      assert (a + b)[0] == a[0] && (a + b)[1..] == a[1..] + b;
      Assoc(AnswersIn(a[0]), AnswerList(a[1..]), AnswerList(b));
    }
  }

  /** `selectUnresolved` as it runs: one pass collects the answered keys, a second takes the
      pending ones not answered and not seen. */
  method SelectUnresolved(records: seq<Record>) returns (out: seq<Waiting>)
    ensures out == Unresolved(records)
  {
    var steps := Steps(records);
    var answered: set<Key> := {};
    for i := 0 to |steps|
      invariant answered == ToSet(AnswerList(steps[..i]))
    {
      assert steps[..i + 1] == steps[..i] + [steps[i]];
      AnswersAppend(steps[..i], [steps[i]]);
      assert AnswerList([steps[i]]) == AnswersIn(steps[i]);
      answered := answered + ToSet(AnswersIn(steps[i]));
    }
    assert steps[..|steps|] == steps;
    out := FirstOfEach(steps, answered);
  }

  lemma FreshHead(steps: seq<StepRecord>, i: nat, skip: set<Key>, out: seq<Waiting>)
    requires i < |steps|
    ensures var here, rest := WaitingIn(steps[i]), WaitingList(steps[i + 1..]);
      out + Fresh(WaitingList(steps[i..]), skip) ==
      if here == [] || here[0].key in skip then out + Fresh(rest, skip)
      else (out + here) + Fresh(rest, skip + {here[0].key})
  {
    assert steps[i..][0] == steps[i] && steps[i..][1..] == steps[i + 1..];
    var here := WaitingIn(steps[i]);
    if here == [] {
      assert WaitingList(steps[i..]) == WaitingList(steps[i + 1..]);
    } else {
      assert WaitingList(steps[i..])[1..] == WaitingList(steps[i + 1..]);
      Assoc(out, here, Fresh(WaitingList(steps[i + 1..]), skip + {here[0].key}));
    }
  }

  method FirstOfEach(steps: seq<StepRecord>, answered: set<Key>) returns (out: seq<Waiting>)
    ensures out == Fresh(WaitingList(steps), answered)
  {
    out := [];
    var seen: set<Key> := {};
    assert steps[0..] == steps && answered + seen == answered;
    for i := 0 to |steps|
      invariant Fresh(WaitingList(steps), answered) == out + Fresh(WaitingList(steps[i..]), answered + seen)
    {
      FreshHead(steps, i, answered + seen, out);
      var here := WaitingIn(steps[i]);
      if here != [] && here[0].key !in answered && here[0].key !in seen {
        assert answered + (seen + {here[0].key}) == (answered + seen) + {here[0].key};
        out := out + here;
        seen := seen + {here[0].key};
      }
    }
  }

  // ---- Resolving ----

  /** The skill as it is now, per step; `fillMatches` says the filled probe args have the
      approved commitment. */
  datatype SkillStep = SkillStep(n: nat, declaresProbe: bool, approve: Option<string>, hash: string,
                                 parameterized: bool, committed: bool, fillMatches: bool)

  function FindStep(skill: seq<SkillStep>, n: nat): Option<SkillStep> {
    if skill == [] then None else if skill[0].n == n then Some(skill[0]) else FindStep(skill[1..], n)
  }

  /** The probe may run only for what was approved at dispatch. */
  predicate Intact(skill: seq<SkillStep>, key: Key) {
    var s := FindStep(skill, key.step);
    && s.Some? && s.value.declaresProbe
    && s.value.approve == Some(key.approvalHash) && s.value.hash == key.approvalHash
    && (s.value.parameterized ==> s.value.committed && s.value.fillMatches)
  }

  /** What the probe saw: the number of declared fields, or nothing. */
  datatype Probe = Observed(fields: nat) | Failed

  /** Everything a pass depends on; `parse` is None for an instant that does not parse. */
  datatype World = World(wraps: bool, drift: bool, tools: bool, skill: seq<SkillStep>,
                         probe: Key -> Probe, parse: string -> Option<int>, now: int)

  predicate Elapsed(w: World, key: Key) {
    var deadline := w.parse(key.deferredUntil);
    deadline.Some? && w.now >= deadline.value
  }

  predicate Saw(w: World, key: Key) { w.probe(key).Observed? && w.probe(key).fields > 0 }

  /** `resolveDeferred`. */
  function ResolveDeferred(w: World, p: Waiting): Attest {
    Attest(if Saw(w, p.key) then Partial else if Elapsed(w, p.key) then Absent else Pending, Some(p.key.deferredUntil),
           p.selector)
  }

  predicate Settles(w: World, p: Waiting) { Intact(w.skill, p.key) && !ResolveDeferred(w, p).confidence.Pending? }

  function Answer(w: World, p: Waiting): StepRecord {
    StepRecord(p.key.step, Some(ResolveDeferred(w, p)), None, None, None, Some(p.key))
  }

  function Answered(w: World, ps: seq<Waiting>): seq<StepRecord> {
    if ps == [] then [] else (if Settles(w, ps[0]) then [Answer(w, ps[0])] else []) + Answered(w, ps[1..])
  }

  function Refusals(w: World, ps: seq<Waiting>): nat {
    if ps == [] then 0 else (if Intact(w.skill, ps[0].key) then 0 else 1) + Refusals(w, ps[1..])
  }

  predicate Ready(w: World) { w.wraps && !w.drift && w.tools }

  /** The record a pass appends, if any. */
  function Resolution(w: World, records: seq<Record>): seq<Record> {
    var steps := Answered(w, Unresolved(records));
    if Ready(w) && steps != [] then [Record(steps, true)] else []
  }

  function ExitCode(w: World, records: seq<Record>): nat {
    if Unresolved(records) == [] then 0
    else if !Ready(w) || Refusals(w, Unresolved(records)) > 0 then 1
    else 0
  }

  class RunLedger {
    var records: seq<Record>

    /** One execution appends its record. */
    method Append(record: Record)
      modifies this
      ensures records == old(records) + [record]
    {
      records := records + [record];
    }

    /** `reelier resolve`: at most one record is appended, and nothing else changes. */
    method Resolve(w: World) returns (code: nat)
      modifies this
      ensures records == old(records) + Resolution(w, old(records))
      ensures code == ExitCode(w, old(records))
    {
      var unresolved := SelectUnresolved(records);
      if unresolved == [] { return 0; }
      if !w.wraps || w.drift || !w.tools { return 1; }
      var resolutions: seq<StepRecord> := [];
      var integrityFailures := 0;
      for i := 0 to |unresolved|
        invariant records == old(records)
        invariant Answered(w, unresolved) == resolutions + Answered(w, unresolved[i..])
        invariant Refusals(w, unresolved) == integrityFailures + Refusals(w, unresolved[i..])
      {
        var pending := unresolved[i];
        assert unresolved[i..][0] == pending && unresolved[i..][1..] == unresolved[i + 1..];
        if !Intact(w.skill, pending.key) {
          integrityFailures := integrityFailures + 1;
          continue;
        }
        var attest := ResolveDeferred(w, pending);
        if attest.confidence.Pending? { continue; }
        resolutions := resolutions + [StepRecord(pending.key.step, Some(attest), None, None, None, Some(pending.key))];
      }
      assert resolutions == Answered(w, unresolved);
      if resolutions != [] { records := records + [Record(resolutions, true)]; }
      code := if integrityFailures > 0 then 1 else 0;
    }
  }
}
