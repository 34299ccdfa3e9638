/** What the approval ceremony promises, first for one step and then for whole runs
    over every flag combination, step list and sequence of outside answers. */
module ApproveTheorems {
  import opened Wrappers
  import opened Approve
  import opened ApproveLoop

  // ---- One step ----

  /** The only two consents that give up a state binding. */
  ghost predicate DowngradeConsent(f: Flags, w: World) {
    (!f.probe && f.dropExpect && (f.all || w.answers.approve))
    || (f.probe && !f.all && w.answers.withoutBinding)
  }

  lemma StepNoSilentDowngrade(f: Flags, vars: map<Name, string>, s: StepView, w: World)
    requires Accepted(f) && s.WellFormed() && s.binding.Some?
    ensures var v := Ceremony(f, vars, s, w);
      v.binding.None? ==> DowngradeConsent(f, w) && s.ProbePlaceholders() == []
  {
  }

  /** The filled args of a stamped parameterized probe: what was shown is what is committed. */
  ghost predicate CommitsProbe(s: StepView, vars: map<Name, string>, w: World, b: Binding)
    requires s.attest.Some?
  {
    var a := s.attest.value;
    && w.probe.Observed? && w.probe.typed != map[]
    && b.at == w.observedAt && b.keyId == KeyIdOf(w.freshKey)
    && b.pre == PreMac(w.freshKey, a.tool, w.probe.typed)
    && b.fields.Keys == w.probe.typed.Keys
    && (forall name :: name in b.fields ==> b.fields[name] == FieldMac(w.freshKey, a.tool, name, w.probe.typed[name]))
    && !AnyMissing(a.args, vars)
    && (s.ProbePlaceholders() == [] ==> b.probeArgs == None)
    && (s.ProbePlaceholders() != [] ==>
          var filled := Fill(a.args, Inputs(vars, w.dates));
          filled.Some? && b.probeArgs == Some(ArgsMac(w.freshKey, a.tool, filled.value)))
    && SendsCommitted(s, vars, w)
  }

  /** Every computed date reads the same when the args are committed and when they are sent. */
  ghost predicate DatesAgree(s: StepView, w: World) {
    forall n :: n in s.ProbePlaceholders() && IsComputedDate(n) ==> SameText(n, w.dates, w.probeDates)
  }

  /** What the probe was sent with: the literal args, or the committed ones exactly if no computed date moved. */
  ghost predicate SendsCommitted(s: StepView, vars: map<Name, string>, w: World)
    requires s.attest.Some?
  {
    var sent, committed := Fill(s.attest.value.args, Inputs(vars, w.probeDates)),
      Fill(s.attest.value.args, Inputs(vars, w.dates));
    && sent.Some?
    && (s.ProbePlaceholders() == [] ==> sent.value == s.attest.value.args)
    && (sent == committed <==> DatesAgree(s, w))
  }

  lemma SentIsCommitted(s: StepView, vars: map<Name, string>, w: World)
    requires s.attest.Some? && Fill(s.attest.value.args, Inputs(vars, w.probeDates)).Some?
    requires Fill(s.attest.value.args, Inputs(vars, w.dates)).Some?
    ensures SendsCommitted(s, vars, w)
  {
    var args := s.attest.value.args;
    FilledTwice(args, vars, w.dates, w.probeDates);
    if Placeholders(args) == [] { LiteralFill(args, Inputs(vars, w.probeDates)); }
  }

  lemma DispatchedProbeIsFilled(a: Attest, vars: map<Name, string>, w: World)
    requires RunProbe(a, vars, w).Observed?
    ensures !AnyMissing(a.args, vars)
  {
    if n :| n in Placeholders(a.args) && IsMissing(n, vars) {
      MissingFillFails(a.args, Inputs(vars, w.probeDates), n);
    }
  }

  /** A state-bound stamp always rests on a probe that ran with every hole filled,
      under a fresh key that reached the keystore. */
  lemma StepBoundCommits(f: Flags, vars: map<Name, string>, s: StepView, w: World)
    requires Accepted(f) && s.WellFormed()
    requires Ceremony(f, vars, s, w).outcome == Approved(true)
    ensures var v := Ceremony(f, vars, s, w);
      f.probe && w.keystoreWritable && s.attest.Some? && v.binding.Some? && CommitsProbe(s, vars, w, v.binding.value)
  {
    if s.Current() && s.binding.Some? {
      ReVerifyStamps(f, vars, s, w);
    } else {
      FreshStamps(f, vars, s, w);
    }
    StampCommits(f, vars, s, w);
  }

  ghost function StampedHere(f: Flags, vars: map<Name, string>, s: StepView, w: World): Verdict
    requires s.attest.Some? && w.probe.Observed?
  {
    Stamp(f, s, w, w.probe.typed,
          if s.ProbePlaceholders() != [] then Fill(s.attest.value.args, Inputs(vars, w.dates)) else None)
  }

  lemma ReVerifyStamps(f: Flags, vars: map<Name, string>, s: StepView, w: World)
    requires s.attest.Some? && s.binding.Some? && ReVerify(f, vars, s, w).outcome == Approved(true)
    ensures w.keystoreWritable && RunProbe(s.attest.value, vars, w).Observed? && w.probe.Observed?
    ensures w.probe.typed != map[]
    ensures ReVerify(f, vars, s, w) == StampedHere(f, vars, s, w)
    ensures Fill(s.attest.value.args, Inputs(vars, w.dates)).Some?
  {
    if AnyMissing(s.attest.value.args, vars) && RunProbe(s.attest.value, vars, w).Observed? {
      DispatchedProbeIsFilled(s.attest.value, vars, w);
    }
  }

  lemma FreshStamps(f: Flags, vars: map<Name, string>, s: StepView, w: World)
    requires FreshBind(f, vars, s, w).outcome == Approved(true)
    ensures w.keystoreWritable && s.attest.Some?
    ensures RunProbe(s.attest.value, vars, w).Observed? && w.probe.Observed? && w.probe.typed != map[]
    ensures FreshBind(f, vars, s, w) == StampedHere(f, vars, s, w)
    ensures Fill(s.attest.value.args, Inputs(vars, w.dates)).Some?
  {
  }

  lemma StampCommits(f: Flags, vars: map<Name, string>, s: StepView, w: World)
    requires s.attest.Some? && RunProbe(s.attest.value, vars, w).Observed? && w.probe.Observed?
    requires w.probe.typed != map[]
    requires Fill(s.attest.value.args, Inputs(vars, w.dates)).Some?
    ensures CommitsProbe(s, vars, w, StampedHere(f, vars, s, w).binding.value)
  {
    DispatchedProbeIsFilled(s.attest.value, vars, w);
    SentIsCommitted(s, vars, w);
  }

  /** A first bind admits no computed date, so what it commits is always what it sent. */
  lemma FreshSendsCommitted(f: Flags, vars: map<Name, string>, s: StepView, w: World)
    requires FreshBind(f, vars, s, w).outcome == Approved(true)
    ensures s.attest.Some? && Fill(s.attest.value.args, Inputs(vars, w.dates)).Some?
    ensures Fill(s.attest.value.args, Inputs(vars, w.probeDates)) == Fill(s.attest.value.args, Inputs(vars, w.dates))
  {
    FreshStamps(f, vars, s, w);
    SentIsCommitted(s, vars, w);
    assert DatesAgree(s, w);
  }

  /** An approval is of exactly the fields the step ends with, and nothing else changes it. */
  ghost predicate Recorded(s: StepView, v: Verdict) {
    && (v.outcome.Approved? ==> v.approve == Some(Applied(s, v).Hash()))
    && (v.outcome.Approved? ==> (v.outcome.bound <==> v.binding.Some?))
    && (!v.outcome.Approved? ==> Applied(s, v) == s)
    && Applied(s, v).WellFormed()
  }

  lemma UnboundRecorded(s: StepView)
    ensures Recorded(s, Unbound(s))
  {
  }

  lemma StampRecorded(f: Flags, s: StepView, w: World, typed: Typed, filled: Option<Template>)
    requires s.attest.Some?
    ensures Recorded(s, Stamp(f, s, w, typed, filled))
  {
  }

  lemma DegradeRecorded(f: Flags, s: StepView, w: World, first: bool)
    requires s.WellFormed()
    ensures Recorded(s, Degrade(f, s, w, first))
  {
    UnboundRecorded(s);
  }

  lemma PlainRecorded(f: Flags, s: StepView, w: World)
    requires s.WellFormed()
    ensures Recorded(s, Plain(f, s, w))
  {
    UnboundRecorded(s);
  }

  lemma FreshRecorded(f: Flags, vars: map<Name, string>, s: StepView, w: World)
    requires s.WellFormed()
    ensures Recorded(s, FreshBind(f, vars, s, w))
  {
    var v := FreshBind(f, vars, s, w);
    DegradeRecorded(f, s, w, false);
    DegradeRecorded(f, s, w, true);
    if v.outcome == Approved(true) {
      FreshStamps(f, vars, s, w);
      var filled := if s.ProbePlaceholders() != [] then Fill(s.attest.value.args, Inputs(vars, w.dates)) else None;
      StampRecorded(f, s, w, w.probe.typed, filled);
    }
  }

  lemma ReVerifyRecorded(f: Flags, vars: map<Name, string>, s: StepView, w: World)
    requires s.attest.Some? && s.binding.Some?
    ensures Recorded(s, ReVerify(f, vars, s, w))
  {
    var v := ReVerify(f, vars, s, w);
    if v.outcome == Approved(true) {
      ReVerifyStamps(f, vars, s, w);
      var filled := if s.ProbePlaceholders() != [] then Fill(s.attest.value.args, Inputs(vars, w.dates)) else None;
      StampRecorded(f, s, w, w.probe.typed, filled);
    }
  }

  lemma StepOutcomeAndState(f: Flags, vars: map<Name, string>, s: StepView, w: World)
    requires Accepted(f) && s.WellFormed()
    ensures Recorded(s, Ceremony(f, vars, s, w))
  {
    if !f.probe {
      PlainRecorded(f, s, w);
    } else if s.Current() && s.binding.Some? {
      ReVerifyRecorded(f, vars, s, w);
    } else {
      FreshRecorded(f, vars, s, w);
    }
  }

  /** A moved world (or re-pointed probe args) is never committed to by `--all` alone. */
  lemma StepMovedWorldNeedsConsent(f: Flags, vars: map<Name, string>, s: StepView, w: World)
    requires Accepted(f) && s.WellFormed() && f.probe && s.Current() && s.binding.Some?
    requires Ceremony(f, vars, s, w).outcome.Approved?
    requires w.lookup.KeyFound? && w.probe.Observed?
    requires PreMac(w.lookup.key, s.attest.value.tool, w.probe.typed) != s.binding.value.pre
    ensures f.rebind || (!f.all && w.answers.rebind)
  {
  }

  lemma StepKeepsDeadline(f: Flags, vars: map<Name, string>, s: StepView, w: World)
    requires Accepted(f) && s.WellFormed() && f.expires.None? && s.binding.Some?
    ensures var v := Ceremony(f, vars, s, w);
      v.binding.Some? ==> v.binding.value.expiresAt == s.binding.value.expiresAt
  {
  }

  lemma StepAllProbe(f: Flags, vars: map<Name, string>, s: StepView, w: World)
    requires Accepted(f) && s.WellFormed() && f.all && f.probe
    ensures var v := Ceremony(f, vars, s, w);
      v.outcome.Approved? ==> v.outcome == Approved(true)
  {
  }

  // ---- Whole runs ----

  /** Each step ends as its own ceremony left it, or was never reached. */
  lemma {:induction false} StepAt(f: Flags, vars: map<Name, string>, steps: seq<StepView>, ws: seq<World>, n: nat,
                                  i: nat)
    requires Accepted(f) && AllWellFormed(steps) && |ws| == |steps| && i < n <= |steps|
    ensures var r := RunSteps(f, vars, steps, ws, n);
      && (r.steps[i] == Applied(steps[i], Ceremony(f, vars, steps[i], ws[i])) || (r.threw && r.steps[i] == steps[i]))
  {
    if i < n - 1 {
      StepAt(f, vars, steps, ws, n - 1, i);
    }
  }

  /** No silent downgrade, over every run: a step that had a binding and ends without
      one was given up by an explicit consent, and its probe had no placeholders. */
  lemma NoSilentDowngrade(f: Flags, vars: map<Name, string>, steps: seq<StepView>, ws: seq<World>, i: nat)
    requires Accepted(f) && AllWellFormed(steps) && |ws| == |steps| && i < |steps|
    requires steps[i].binding.Some? && RunSteps(f, vars, steps, ws, |steps|).steps[i].binding.None?
    ensures DowngradeConsent(f, ws[i]) && steps[i].ProbePlaceholders() == []
  {
    StepAt(f, vars, steps, ws, |steps|, i);
    StepNoSilentDowngrade(f, vars, steps[i], ws[i]);
  }

  /** Under `--all --probe` a changed step ends state-bound to the observation of this run. */
  lemma AllProbeEndsStateBound(f: Flags, vars: map<Name, string>, steps: seq<StepView>, ws: seq<World>, i: nat)
    requires Accepted(f) && AllWellFormed(steps) && |ws| == |steps| && i < |steps|
    requires f.all && f.probe
    ensures var r := RunSteps(f, vars, steps, ws, |steps|);
      r.steps[i] != steps[i] ==>
        && steps[i].attest.Some? && r.steps[i].binding.Some?
        && CommitsProbe(steps[i], vars, ws[i], r.steps[i].binding.value)
        && r.steps[i].Current()
  {
    var r := RunSteps(f, vars, steps, ws, |steps|);
    if r.steps[i] != steps[i] {
      StepAt(f, vars, steps, ws, |steps|, i);
      StepOutcomeAndState(f, vars, steps[i], ws[i]);
      StepAllProbe(f, vars, steps[i], ws[i]);
      StepBoundCommits(f, vars, steps[i], ws[i]);
    }
  }

  /** Whatever changed is approved for exactly the fields it ends with, and a binding
      that changed commits this run's probe, filled args included. */
  lemma ChangedStepsAreApproved(f: Flags, vars: map<Name, string>, steps: seq<StepView>, ws: seq<World>, i: nat)
    requires Accepted(f) && AllWellFormed(steps) && |ws| == |steps| && i < |steps|
    ensures var t := RunSteps(f, vars, steps, ws, |steps|).steps[i];
      && t.WellFormed()
      && (t != steps[i] ==> t.Current())
      && (t != steps[i] && t.binding.Some? ==>
            steps[i].attest.Some? && CommitsProbe(steps[i], vars, ws[i], t.binding.value))
      && (f.expires.None? && steps[i].binding.Some? && t.binding.Some? ==>
            t.binding.value.expiresAt == steps[i].binding.value.expiresAt)
  {
    StepAt(f, vars, steps, ws, |steps|, i);
    StepOutcomeAndState(f, vars, steps[i], ws[i]);
    var v := Ceremony(f, vars, steps[i], ws[i]);
    if v.outcome == Approved(true) { StepBoundCommits(f, vars, steps[i], ws[i]); }
    if f.expires.None? && steps[i].binding.Some? { StepKeepsDeadline(f, vars, steps[i], ws[i]); }
  }

  ghost predicate Degraded(o: Outcome) {
    o == ProbeUnbindable || o == WorldMoved || o == StateBoundChanged || o == ReVerifyUnavailable
  }

  /** A run that approved nothing changed nothing, so not writing the file loses nothing. */
  lemma {:induction false} NothingApprovedNothingChanged(f: Flags, vars: map<Name, string>, steps: seq<StepView>,
                                                         ws: seq<World>, n: nat)
    requires Accepted(f) && AllWellFormed(steps) && |ws| == |steps| && n <= |steps|
    requires RunSteps(f, vars, steps, ws, n).counts.approved == 0
    ensures RunSteps(f, vars, steps, ws, n).steps == steps
  {
    if n > 0 {
      StepOutcomeAndState(f, vars, steps[n - 1], ws[n - 1]);
      NothingApprovedNothingChanged(f, vars, steps, ws, n - 1);
    }
  }

  /** Counting alone, over the outcomes of a run that did not throw. */
  ghost function CountAll(outcomes: seq<Outcome>): Counts {
    if outcomes == [] then ZERO else CountAll(outcomes[..|outcomes| - 1]).Add(outcomes[|outcomes| - 1])
  }

  lemma AddOne(c: Counts, o: Outcome)
    requires o != Threw
    ensures c.Add(o).Total() == c.Total() + 1
    ensures c.stateBound <= c.approved ==> c.Add(o).stateBound <= c.Add(o).approved
    ensures c.Add(o).ExitCode() == 0 <==> c.ExitCode() == 0 && !Degraded(o)
  {
  }

  lemma {:induction false} CountsAddUp(outcomes: seq<Outcome>)
    requires Threw !in outcomes
    ensures CountAll(outcomes).Total() == |outcomes| && CountAll(outcomes).stateBound <= CountAll(outcomes).approved
  {
    if outcomes != [] {
      var init := outcomes[..|outcomes| - 1];
      CountsAddUp(init);
      AddOne(CountAll(init), outcomes[|outcomes| - 1]);
    }
  }

  lemma {:induction false} ExitCodeCounts(outcomes: seq<Outcome>)
    requires Threw !in outcomes
    ensures CountAll(outcomes).ExitCode() == 0 <==> (forall o :: o in outcomes ==> !Degraded(o))
  {
    if outcomes != [] {
      var init, last := outcomes[..|outcomes| - 1], outcomes[|outcomes| - 1];
      assert outcomes == init + [last];
      ExitCodeCounts(init);
      AddOne(CountAll(init), last);
    }
  }

  ghost function Outcomes(f: Flags, vars: map<Name, string>, steps: seq<StepView>, ws: seq<World>,
                          n: nat): (os: seq<Outcome>)
    requires Accepted(f) && AllWellFormed(steps) && |ws| == |steps| && n <= |steps|
    ensures |os| == n && forall i :: 0 <= i < n ==> os[i] == Ceremony(f, vars, steps[i], ws[i]).outcome
  {
    seq(n, i requires 0 <= i < n => Ceremony(f, vars, steps[i], ws[i]).outcome)
  }

  lemma {:induction false} RunCounts(f: Flags, vars: map<Name, string>, steps: seq<StepView>, ws: seq<World>, n: nat)
    requires Accepted(f) && AllWellFormed(steps) && |ws| == |steps| && n <= |steps|
    requires !RunSteps(f, vars, steps, ws, n).threw
    ensures var os := Outcomes(f, vars, steps, ws, n);
      Threw !in os && RunSteps(f, vars, steps, ws, n).counts == CountAll(os)
  {
    if n > 0 {
      RunCounts(f, vars, steps, ws, n - 1);
      var os := Outcomes(f, vars, steps, ws, n);
      assert os[..n - 1] == Outcomes(f, vars, steps, ws, n - 1);
      assert os == os[..n - 1] + [os[n - 1]];
    }
  }

  /** Accounting: exactly one of the seven outcome counters rises per step, bound steps are
      approved steps, and the exit code is 0 exactly when no step degraded. */
  lemma Accounting(f: Flags, vars: map<Name, string>, steps: seq<StepView>, ws: seq<World>)
    requires Accepted(f) && AllWellFormed(steps) && |ws| == |steps|
    requires !RunSteps(f, vars, steps, ws, |steps|).threw
    ensures var c := RunSteps(f, vars, steps, ws, |steps|).counts;
      && c.Total() == |steps| && c.stateBound <= c.approved
      && (c.ExitCode() == 0 <==>
            forall o :: o in Outcomes(f, vars, steps, ws, |steps|) ==> !Degraded(o))
  {
    var os := Outcomes(f, vars, steps, ws, |steps|);
    RunCounts(f, vars, steps, ws, |steps|);
    CountsAddUp(os);
    ExitCodeCounts(os);
  }

  ghost predicate PlainAll(f: Flags) { f.all && !f.probe && !f.dropExpect && f.expires.None? }

  /** Once settled, a plain `approve --all` leaves a step alone. */
  ghost predicate Settled(s: StepView) { s.WellFormed() && (s.Current() || s.binding.Some?) }

  lemma {:induction false} SettledStepsStay(f: Flags, vars: map<Name, string>, steps: seq<StepView>, ws: seq<World>,
                                            n: nat)
    requires Accepted(f) && AllWellFormed(steps) && |ws| == |steps| && n <= |steps| && PlainAll(f)
    requires forall i :: 0 <= i < |steps| ==> Settled(steps[i])
    ensures var r := RunSteps(f, vars, steps, ws, n);
      r.steps == steps && r.counts.approved == 0 && !r.threw
  {
    if n > 0 {
      SettledStepsStay(f, vars, steps, ws, n - 1);
    }
  }

  /** Repeating a plain `approve --all` approves nothing, whatever the answers. */
  lemma {:induction false} PlainAllTwice(f: Flags, vars: map<Name, string>, steps: seq<StepView>, ws: seq<World>,
                                         ws': seq<World>)
    requires Accepted(f) && AllWellFormed(steps) && |ws| == |ws'| == |steps| && PlainAll(f)
    ensures var once := RunSteps(f, vars, steps, ws, |steps|);
      && AllWellFormed(once.steps)
      && RunSteps(f, vars, once.steps, ws', |steps|).steps == once.steps
      && RunSteps(f, vars, once.steps, ws', |steps|).counts.approved == 0
  {
    var once := RunSteps(f, vars, steps, ws, |steps|);
    NoThrowWithoutProbe(f, vars, steps, ws, |steps|);
    forall i | 0 <= i < |steps| ensures Settled(once.steps[i]) {
      StepAt(f, vars, steps, ws, |steps|, i);
    }
    SettledStepsStay(f, vars, once.steps, ws', |steps|);
  }

  lemma {:induction false} NoThrowWithoutProbe(f: Flags, vars: map<Name, string>, steps: seq<StepView>, ws: seq<World>,
                                               n: nat)
    requires Accepted(f) && AllWellFormed(steps) && |ws| == |steps| && n <= |steps| && !f.probe
    ensures !RunSteps(f, vars, steps, ws, n).threw
  {
    if n > 0 {
      NoThrowWithoutProbe(f, vars, steps, ws, n - 1);
    }
  }
}
