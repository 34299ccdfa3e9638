/** Properties of every sequence of executions and resolve passes over one ledger. */
module LedgerTheorems {
  import opened Wrappers
  import opened Sequences
  import opened Ledger

  function KeysOf(ws: seq<Waiting>): seq<Key> { seq(|ws|, i requires 0 <= i < |ws| => ws[i].key) }

  /** What is left when these keys are taken out, order kept. */
  function Without(ws: seq<Waiting>, keys: set<Key>): seq<Waiting> {
    if ws == [] then [] else (if ws[0].key in keys then [] else [ws[0]]) + Without(ws[1..], keys)
  }

  // ---- Selection ----

  lemma {:induction false} FreshWithout(ws: seq<Waiting>, skip: set<Key>, more: set<Key>)
    ensures Fresh(ws, skip + more) == Without(Fresh(ws, skip), more)
  {
    if ws != [] {
      var k := ws[0].key;
      if k in skip {
        FreshWithout(ws[1..], skip, more);
      } else {
        FreshWithout(ws[1..], skip + {k}, more);
        if k in more {
          assert skip + {k} + more == skip + more;
        } else {
          assert skip + {k} + more == skip + more + {k};
        }
        assert ([ws[0]] + Fresh(ws[1..], skip + {k}))[1..] == Fresh(ws[1..], skip + {k});
      }
    }
  }

  lemma {:induction false} FreshAppend(a: seq<Waiting>, b: seq<Waiting>, skip: set<Key>)
    ensures Fresh(a + b, skip) == Fresh(a, skip) + Fresh(b, skip + ToSet(KeysOf(a)))
  {
    if a == [] {
      assert a + b == b && skip + ToSet(KeysOf(a)) == skip;
    } else {
      var k := a[0].key;
      assert (a + b)[0] == a[0] && (a + b)[1..] == a[1..] + b;
      assert KeysOf(a) == [k] + KeysOf(a[1..]);
      FreshAppend(a[1..], b, skip);
      FreshAppend(a[1..], b, skip + {k});
      assert skip + {k} + ToSet(KeysOf(a[1..])) == skip + ToSet(KeysOf(a));
      if k in skip { assert skip + ToSet(KeysOf(a[1..])) == skip + ToSet(KeysOf(a)); }
    }
  }

  /** Selected are the pending keys not skipped, each once. */
  lemma {:induction false} FreshExactly(ws: seq<Waiting>, skip: set<Key>)
    ensures ToSet(KeysOf(Fresh(ws, skip))) == ToSet(KeysOf(ws)) - skip
    ensures Distinct(KeysOf(Fresh(ws, skip)))
    ensures forall w :: w in Fresh(ws, skip) ==> w in ws
  {
    if ws != [] {
      var k := ws[0].key;
      assert KeysOf(ws) == [k] + KeysOf(ws[1..]) && ws == [ws[0]] + ws[1..];
      if k in skip {
        FreshExactly(ws[1..], skip);
      } else {
        var rest := Fresh(ws[1..], skip + {k});
        FreshExactly(ws[1..], skip + {k});
        assert k !in ToSet(KeysOf(rest)) && KeysOf([ws[0]] + rest) == [k] + KeysOf(rest);
        assert ToSet([k] + KeysOf(rest)) == {k} + ToSet(KeysOf(rest));
      }
    }
  }

  function Pendings(records: seq<Record>): set<Key> { ToSet(KeysOf(WaitingList(Steps(records)))) }

  function Answers(records: seq<Record>): seq<Key> { AnswerList(Steps(records)) }

  /** A ledger's unresolved attestations are its pending keys without an answer, each once. */
  lemma UnresolvedExactly(records: seq<Record>)
    ensures ToSet(KeysOf(Unresolved(records))) == Pendings(records) - ToSet(Answers(records))
    ensures Distinct(KeysOf(Unresolved(records)))
  {
    FreshExactly(WaitingList(Steps(records)), ToSet(Answers(records)));
  }

  lemma Extended(records: seq<Record>, r: Record)
    ensures Steps(records + [r]) == Steps(records) + r.steps
    ensures WaitingList(Steps(records + [r])) == WaitingList(Steps(records)) + WaitingList(r.steps)
    ensures Answers(records + [r]) == Answers(records) + AnswerList(r.steps)
  {
    StepsAppend(records, [r]);
    assert Steps([r]) == r.steps + Steps([]) == r.steps;
    WaitingAppend(Steps(records), r.steps);
    AnswersAppend(Steps(records), r.steps);
  }

  /** A record that only answers takes exactly its answers out, in order. */
  lemma ResolvedSubtracts(records: seq<Record>, r: Record)
    requires WaitingList(r.steps) == []
    ensures Unresolved(records + [r]) == Without(Unresolved(records), ToSet(AnswerList(r.steps)))
  {
    Extended(records, r);
    assert WaitingList(Steps(records + [r])) == WaitingList(Steps(records));
    FreshWithout(WaitingList(Steps(records)), ToSet(Answers(records)), ToSet(AnswerList(r.steps)));
    assert ToSet(Answers(records + [r])) == ToSet(Answers(records)) + ToSet(AnswerList(r.steps));
  }

  /** A record that only waits keeps what was unresolved and adds its new keys after it. */
  lemma ExecutedExtends(records: seq<Record>, r: Record)
    requires AnswerList(r.steps) == []
    ensures Unresolved(records + [r]) ==
      Unresolved(records) + Fresh(WaitingList(r.steps), ToSet(Answers(records)) + Pendings(records))
  {
    Extended(records, r);
    assert Answers(records + [r]) == Answers(records);
    FreshAppend(WaitingList(Steps(records)), WaitingList(r.steps), ToSet(Answers(records)));
  }

  // ---- What a pass writes ----

  function SettledKeys(w: World, ps: seq<Waiting>): seq<Key> {
    if ps == [] then [] else (if Settles(w, ps[0]) then [ps[0].key] else []) + SettledKeys(w, ps[1..])
  }

  lemma {:induction false} AnsweredSteps(w: World, ps: seq<Waiting>)
    ensures WaitingList(Answered(w, ps)) == [] && AnswerList(Answered(w, ps)) == SettledKeys(w, ps)
    ensures forall s :: s in Answered(w, ps) ==> s.attest.Some? && s.attest.value.confidence in {Partial, Absent}
  {
    if ps != [] {
      AnsweredSteps(w, ps[1..]);
      var rest := Answered(w, ps[1..]);
      if Settles(w, ps[0]) {
        var s := Answer(w, ps[0]);
        assert ([s] + rest)[1..] == rest && WaitingIn(s) == [] && AnswersIn(s) == [ps[0].key];
        assert WaitingList([s] + rest) == WaitingIn(s) + WaitingList(rest);
        assert AnswerList([s] + rest) == AnswersIn(s) + AnswerList(rest);
      } else {
        assert Answered(w, ps) == rest;
      }
    }
  }

  lemma {:induction false} SettledExactly(w: World, ps: seq<Waiting>)
    requires Distinct(KeysOf(ps))
    ensures Distinct(SettledKeys(w, ps))
    ensures forall k :: k in SettledKeys(w, ps) <==> exists p :: p in ps && p.key == k && Settles(w, p)
  {
    if ps != [] {
      assert KeysOf(ps) == [ps[0].key] + KeysOf(ps[1..]) && ps == [ps[0]] + ps[1..];
      forall i | 0 <= i < |ps[1..]| ensures ps[1..][i].key != ps[0].key {
        assert KeysOf(ps)[0] == ps[0].key && KeysOf(ps)[i + 1] == ps[1..][i].key;
      }
      assert Distinct(KeysOf(ps[1..])) by {
        forall i, j | 0 <= i < j < |ps[1..]| ensures KeysOf(ps[1..])[i] != KeysOf(ps[1..])[j] {
          assert KeysOf(ps)[i + 1] != KeysOf(ps)[j + 1];
        }
      }
      SettledExactly(w, ps[1..]);
      assert ps[0].key !in SettledKeys(w, ps[1..]);
    }
  }

  function Remaining(w: World, ps: seq<Waiting>): seq<Waiting> {
    if ps == [] then [] else (if Settles(w, ps[0]) then [] else [ps[0]]) + Remaining(w, ps[1..])
  }

  lemma {:induction false} WithoutSettled(w: World, ps: seq<Waiting>, keys: set<Key>)
    requires forall p :: p in ps ==> (p.key in keys <==> Settles(w, p))
    ensures Without(ps, keys) == Remaining(w, ps)
  {
    if ps != [] { WithoutSettled(w, ps[1..], keys); }
  }

  /** After a pass, exactly those are unresolved that were refused, or neither observed nor overdue. */
  lemma PassLeaves(w: World, records: seq<Record>)
    requires Ready(w)
    ensures Unresolved(records + Resolution(w, records)) == Remaining(w, Unresolved(records))
  {
    var ps := Unresolved(records);
    UnresolvedExactly(records);
    AnsweredSteps(w, ps);
    SettledExactly(w, ps);
    forall p | p in ps ensures p.key in SettledKeys(w, ps) <==> Settles(w, p) {
      if p.key in SettledKeys(w, ps) {
        var q :| q in ps && q.key == p.key && Settles(w, q);
        var i :| 0 <= i < |ps| && ps[i] == p;
        var j :| 0 <= j < |ps| && ps[j] == q;
        assert KeysOf(ps)[i] == KeysOf(ps)[j];
      }
    }
    WithoutSettled(w, ps, ToSet(SettledKeys(w, ps)));
    var steps := Answered(w, ps);
    if steps == [] {
      assert records + [] == records;
      NoneSettled(w, ps);
    } else {
      ResolvedSubtracts(records, Record(steps, true));
    }
  }

  lemma {:induction false} NoneSettled(w: World, ps: seq<Waiting>)
    requires Answered(w, ps) == []
    ensures Remaining(w, ps) == ps
  {
    if ps != [] { NoneSettled(w, ps[1..]); }
  }

  lemma {:induction false} RemainingExactly(w: World, ps: seq<Waiting>)
    ensures Remaining(w, ps) == [] <==> forall p :: p in ps ==> Settles(w, p)
  {
    if ps != [] {
      RemainingExactly(w, ps[1..]);
      assert ps == [ps[0]] + ps[1..];
    }
  }

  /** A pass clears the ledger exactly when every unresolved attestation is intact and was
      observed or has a deadline that parses and has passed. */
  lemma PassClearsExactly(w: World, records: seq<Record>)
    requires Ready(w)
    ensures Unresolved(records + Resolution(w, records)) == [] <==>
      forall p :: p in Unresolved(records) ==> Intact(w.skill, p.key) && (Saw(w, p.key) || Elapsed(w, p.key))
  {
    PassLeaves(w, records);
    RemainingExactly(w, Unresolved(records));
  }

  /** The step answers p, and its confidence says why: something was seen, or nothing was and the deadline
      had passed. */
  ghost predicate Tells(w: World, p: Waiting, s: StepRecord) {
    var saw := w.probe(p.key).Observed? && w.probe(p.key).fields > 0;
    var deadline := w.parse(p.key.deferredUntil);
    && s.resolutionOf == Some(p.key) && s.n == p.key.step && s.attest.Some?
    && s.attest.value.deferredUntil == Some(p.key.deferredUntil) && s.attest.value.selector == p.selector
    && (s.attest.value.confidence == Partial <==> saw)
    && (s.attest.value.confidence == Absent <==> !saw)
    && (!saw ==> deadline.Some? && deadline.value <= w.now)
  }

  lemma {:induction false} AnswersTell(w: World, ps: seq<Waiting>, s: StepRecord)
    ensures s in Answered(w, ps) ==> exists p :: p in ps && Intact(w.skill, p.key) && Tells(w, p, s)
  {
    if ps != [] && s in Answered(w, ps) {
      var head := if Settles(w, ps[0]) then [Answer(w, ps[0])] else [];
      assert Answered(w, ps) == head + Answered(w, ps[1..]);
      if s in head {
        assert Tells(w, ps[0], s);
      } else {
        AnswersTell(w, ps[1..], s);
        var p :| p in ps[1..] && Intact(w.skill, p.key) && Tells(w, p, s);
        assert p in ps;
      }
    }
  }

  /** Whatever a pass writes answers an unresolved attestation of an intact step, and tells a late sight from
      an absence. */
  lemma PassTells(w: World, records: seq<Record>, s: StepRecord)
    requires s in Steps(Resolution(w, records))
    ensures exists p :: p in Unresolved(records) && Intact(w.skill, p.key) && Tells(w, p, s)
  {
    var steps := Answered(w, Unresolved(records));
    if Resolution(w, records) != [] {
      assert Steps([Record(steps, true)]) == steps + Steps([]) == steps;
    }
    AnswersTell(w, Unresolved(records), s);
  }

  lemma {:induction false} RefusalsExactly(w: World, ps: seq<Waiting>)
    ensures Refusals(w, ps) > 0 <==> exists p :: p in ps && !Intact(w.skill, p.key)
  {
    if ps != [] {
      assert ps == [ps[0]] + ps[1..];
      RefusalsExactly(w, ps[1..]);
    }
  }

  /** The step that dispatched is not, or no longer, approved as it was dispatched. */
  ghost predicate ApprovalMoved(w: World, key: Key) {
    forall i :: 0 <= i < |w.skill| && w.skill[i].n == key.step ==>
      w.skill[i].approve != Some(key.approvalHash) || w.skill[i].hash != key.approvalHash
  }

  lemma {:induction false} FoundStep(skill: seq<SkillStep>, n: nat)
    ensures FindStep(skill, n).Some? ==> FindStep(skill, n).value in skill && FindStep(skill, n).value.n == n
  {
    if skill != [] { FoundStep(skill[1..], n); }
  }

  /** A pass over an attestation whose approval moved leaves it unresolved and does not exit clean; and a pass
      with anything to do exits clean exactly if it could run and refused nothing. */
  lemma PassExits(w: World, records: seq<Record>)
    ensures ExitCode(w, records) == 0 <==>
      Unresolved(records) == [] ||
        (w.wraps && !w.drift && w.tools && forall p :: p in Unresolved(records) ==> Intact(w.skill, p.key))
    ensures forall p :: p in Unresolved(records) && ApprovalMoved(w, p.key) ==>
      ExitCode(w, records) == 1 && p in Unresolved(records + Resolution(w, records))
  {
    RefusalsExactly(w, Unresolved(records));
    forall p | p in Unresolved(records) && ApprovalMoved(w, p.key)
      ensures !Intact(w.skill, p.key) && p in Unresolved(records + Resolution(w, records))
    {
      FoundStep(w.skill, p.key.step);
      if Ready(w) {
        PassLeaves(w, records);
        RemainingHolds(w, Unresolved(records), p);
      } else {
        assert records + [] == records;
      }
    }
  }

  /** So without refusals and with every deadline past, only a deadline that does not parse and
      a probe that saw nothing can leave something behind: and that is left whatever the time. */
  lemma UnreadableWaitsForever(w: World, records: seq<Record>, p: Waiting)
    requires Ready(w) && p in Unresolved(records)
    requires w.parse(p.key.deferredUntil).None? && !Saw(w, p.key)
    ensures p in Unresolved(records + Resolution(w, records))
  {
    PassLeaves(w, records);
    RemainingHolds(w, Unresolved(records), p);
  }

  lemma {:induction false} RemainingHolds(w: World, ps: seq<Waiting>, p: Waiting)
    requires p in ps && !Settles(w, p)
    ensures p in Remaining(w, ps)
  {
    if p != ps[0] { RemainingHolds(w, ps[1..], p); }
  }

  /** Running the same pass again writes nothing. */
  lemma PassTwice(w: World, records: seq<Record>)
    ensures var after := records + Resolution(w, records); Resolution(w, after) == []
  {
    if Ready(w) {
      PassLeaves(w, records);
      SettledGone(w, Unresolved(records));
    } else {
      assert records + [] == records;
    }
  }

  lemma {:induction false} SettledGone(w: World, ps: seq<Waiting>)
    ensures Answered(w, Remaining(w, ps)) == []
  {
    if ps != [] {
      SettledGone(w, ps[1..]);
      if !Settles(w, ps[0]) {
        assert Remaining(w, ps)[1..] == Remaining(w, ps[1..]) && Remaining(w, ps)[0] == ps[0];
      } else {
        assert Remaining(w, ps) == Remaining(w, ps[1..]);
      }
    }
  }

  // ---- Runs ----

  datatype Action = Execute(record: Record) | Pass(world: World)

  function After(records: seq<Record>, a: Action): seq<Record> {
    if a.Execute? then records + [a.record] else records + Resolution(a.world, records)
  }

  function Run(records: seq<Record>, actions: seq<Action>): seq<Record>
    decreases |actions|
  {
    if actions == [] then records else Run(After(records, actions[0]), actions[1..])
  }

  /** Executions answer nothing: only a resolution carries a join. */
  predicate Genuine(actions: seq<Action>) {
    forall i :: 0 <= i < |actions| && actions[i].Execute? ==> Unjoined(actions[i].record)
  }

  predicate Unjoined(r: Record) { forall i :: 0 <= i < |r.steps| ==> r.steps[i].resolutionOf.None? }

  /** The ledger only grows. */
  lemma {:induction false} Grows(records: seq<Record>, actions: seq<Action>)
    ensures records <= Run(records, actions)
    decreases |actions|
  {
    if actions != [] { Grows(After(records, actions[0]), actions[1..]); }
  }

  predicate Honest(s: StepRecord) {
    s.resolutionOf.Some? ==> s.attest.Some? && s.attest.value.confidence in {Partial, Absent}
  }

  ghost predicate Sound(records: seq<Record>) {
    && Distinct(Answers(records))
    && (forall k :: k in Answers(records) ==> k in Pendings(records))
    && (forall s :: s in Steps(records) ==> Honest(s))
  }

  lemma {:induction false} UnjoinedAnswers(steps: seq<StepRecord>)
    requires forall i :: 0 <= i < |steps| ==> steps[i].resolutionOf.None?
    ensures AnswerList(steps) == []
  {
    if steps != [] { UnjoinedAnswers(steps[1..]); }
  }

  lemma KeysAppend(a: seq<Waiting>, b: seq<Waiting>)
    ensures KeysOf(a + b) == KeysOf(a) + KeysOf(b) && ToSet(KeysOf(a)) <= ToSet(KeysOf(a + b))
  {
    assert KeysOf(a + b) == KeysOf(a) + KeysOf(b);
  }

  lemma PendingsGrow(records: seq<Record>, r: Record)
    ensures Pendings(records) <= Pendings(records + [r])
  {
    Extended(records, r);
    KeysAppend(WaitingList(Steps(records)), WaitingList(r.steps));
  }

  lemma ExecutionSound(records: seq<Record>, r: Record)
    requires Sound(records) && Unjoined(r)
    ensures Sound(records + [r])
  {
    UnjoinedAnswers(r.steps);
    Extended(records, r);
    PendingsGrow(records, r);
  }

  lemma DistinctAppend<T>(a: seq<T>, b: seq<T>)
    requires Distinct(a) && Distinct(b) && forall x :: x in b ==> x !in a
    ensures Distinct(a + b)
  {
    var c := a + b;
    forall i, j | 0 <= i < j < |c| ensures c[i] != c[j] {
      if j >= |a| { assert c[j] == b[j - |a|] && c[j] in b; }
    }
  }

  lemma PassSound(records: seq<Record>, w: World)
    requires Sound(records)
    ensures Sound(records + Resolution(w, records))
  {
    var ps := Unresolved(records);
    var steps := Answered(w, ps);
    if Resolution(w, records) == [] {
      assert records + [] == records;
    } else {
      var r := Record(steps, true);
      UnresolvedExactly(records);
      AnsweredSteps(w, ps);
      SettledExactly(w, ps);
      Extended(records, r);
      PendingsGrow(records, r);
      forall k | k in SettledKeys(w, ps) ensures k in Pendings(records) && k !in Answers(records) {
        var p :| p in ps && p.key == k && Settles(w, p);
        var i :| 0 <= i < |ps| && ps[i] == p;
        assert KeysOf(ps)[i] == k;
        assert k in ToSet(KeysOf(ps));
      }
      DistinctAppend(Answers(records), SettledKeys(w, ps));
    }
  }

  lemma {:induction false} RunSound(records: seq<Record>, actions: seq<Action>)
    requires Sound(records) && Genuine(actions)
    ensures Sound(Run(records, actions))
    decreases |actions|
  {
    if actions != [] {
      if actions[0].Execute? {
        ExecutionSound(records, actions[0].record);
      } else {
        PassSound(records, actions[0].world);
      }
      RunSound(After(records, actions[0]), actions[1..]);
    }
  }

  lemma {:induction false} DistinctTimes(keys: seq<Key>, k: Key)
    requires Distinct(keys)
    ensures Times(keys, k) == if k in keys then 1 else 0
  {
    if keys != [] {
      DistinctTimes(keys[1..], k);
      assert keys == [keys[0]] + keys[1..];
    }
  }

  /** In every ledger a skill can come to have, each dispatch that was ever left pending is
      either unresolved or answered exactly once, nothing else is answered, and no answer
      claims to be exact. */
  lemma AnsweredOnce(actions: seq<Action>, k: Key)
    requires Genuine(actions)
    ensures var ledger := Run([], actions);
      && (k in Pendings(ledger) ==> Times(Answers(ledger), k) == if k in KeysOf(Unresolved(ledger)) then 0 else 1)
      && (k !in Pendings(ledger) ==> Times(Answers(ledger), k) == 0)
      && forall s :: s in Steps(ledger) && s.resolutionOf.Some? ==>
        s.attest.Some? && s.attest.value.confidence in {Partial, Absent}
  {
    var ledger := Run([], actions);
    RunSound([], actions);
    UnresolvedExactly(ledger);
    DistinctTimes(Answers(ledger), k);
    assert k in ToSet(KeysOf(Unresolved(ledger))) <==> k in KeysOf(Unresolved(ledger));
  }
}
