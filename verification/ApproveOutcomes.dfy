/** Which outcome each step ends in, told from the step, the flags and what the run saw of
    the world, and what the exit code of a whole run says about its steps. */
module ApproveOutcomes {
  import opened Wrappers
  import opened Approve
  import opened ApproveLoop
  import opened ApproveTheorems

  /** The probe could be sent and answered with a declared field. */
  ghost predicate Answered(s: StepView, vars: map<Name, string>, w: World)
    requires s.attest.Some?
  {
    Fill(s.attest.value.args, Inputs(vars, w.probeDates)).Some? && w.probe.Observed? && w.probe.typed != map[]
  }

  // ---- Without `--probe` ----

  /** A binding the run is asked neither to verify nor allowed to lose: kept over a changed step, or dropped
      from a parameterized probe. */
  ghost predicate BindingInTheWay(f: Flags, s: StepView) {
    s.binding.Some? && if f.dropExpect then s.ProbePlaceholders() != [] else !s.Current()
  }

  ghost predicate NothingToDo(f: Flags, s: StepView) { s.Current() && !(f.dropExpect && s.binding.Some?) }

  lemma PlainOutcome(f: Flags, vars: map<Name, string>, s: StepView, w: World)
    requires Accepted(f) && s.WellFormed() && !f.probe
    ensures var o := Ceremony(f, vars, s, w).outcome;
      && (o == StateBoundChanged <==> BindingInTheWay(f, s))
      && (o == Unchanged <==> NothingToDo(f, s))
      && (o == Approved(false) <==>
            !BindingInTheWay(f, s) && !NothingToDo(f, s) && (f.all || w.answers.approve))
      && (o == Skipped <==>
            !BindingInTheWay(f, s) && !NothingToDo(f, s) && !f.all && !w.answers.approve)
  {
  }

  // ---- Re-verifying a step that is bound and current ----

  ghost predicate ReVerified(f: Flags, s: StepView) { f.probe && s.Current() && s.binding.Some? }

  /** The probe args of this run are the committed ones, or none were committed. */
  ghost predicate SameArgs(s: StepView, vars: map<Name, string>, w: World)
    requires s.attest.Some? && s.binding.Some? && w.lookup.KeyFound?
  {
    var filled, committed := Fill(s.attest.value.args, Inputs(vars, w.dates)), s.binding.value.probeArgs;
    committed.None? || (filled.Some? && committed == Some(ArgsMac(w.lookup.key, s.attest.value.tool, filled.value)))
  }

  /** There is a commitment, its key and an observation to hold against it. */
  ghost predicate Comparable(f: Flags, vars: map<Name, string>, s: StepView, w: World)
    requires s.attest.Some? && s.binding.Some?
  {
    && !StatusCodeOverMcp(s, w) && w.lookup.KeyFound?
    && Fill(s.attest.value.args, Inputs(vars, w.dates)).Some? && Answered(s, vars, w)
    && (SameArgs(s, vars, w) || f.rebind)
  }

  /** The observation of this run has the committed MAC. */
  ghost predicate SameMac(s: StepView, w: World)
    requires s.attest.Some? && s.binding.Some? && w.lookup.KeyFound? && w.probe.Observed?
  {
    s.binding.value.pre == PreMac(w.lookup.key, s.attest.value.tool, w.probe.typed)
  }

  /** `--expires` asks for a deadline other than the committed one. */
  ghost predicate NewDeadline(f: Flags, s: StepView, w: World)
    requires s.binding.Some?
  {
    f.expires.Some? && s.binding.value.expiresAt != Some(w.observedAt + f.expires.value)
  }

  lemma MissingCannotFill(t: Template, b: Inputs)
    ensures AnyMissing(t, b.vars) ==> Fill(t, b).None?
  {
    if n :| n in Placeholders(t) && IsMissing(n, b.vars) { MissingFillFails(t, b, n); }
  }

  /** Nothing is compared unless everything needed is there: the command throws over args no `--var` can
      complete, and says that re-verification is unavailable in every other case. */
  lemma ReVerifyNeeds(f: Flags, vars: map<Name, string>, s: StepView, w: World)
    requires Accepted(f) && s.WellFormed() && ReVerified(f, s)
    ensures var o, args := Ceremony(f, vars, s, w).outcome, s.attest.value.args;
      var cannotFill := Fill(args, Inputs(vars, w.dates)).None?;
      && (o == Threw <==>
            !StatusCodeOverMcp(s, w) && w.lookup.KeyFound? && !AnyMissing(args, vars) && cannotFill)
      && (o == ReVerifyUnavailable <==> o != Threw && !Comparable(f, vars, s, w))
  {
    MissingCannotFill(s.attest.value.args, Inputs(vars, w.dates));
    MissingCannotFill(s.attest.value.args, Inputs(vars, w.probeDates));
  }

  /** What a comparison ends in. */
  lemma ReVerifyOutcome(f: Flags, vars: map<Name, string>, s: StepView, w: World)
    requires Accepted(f) && s.WellFormed() && ReVerified(f, s) && Comparable(f, vars, s, w)
    ensures var o := Ceremony(f, vars, s, w).outcome;
      var holds, late := SameArgs(s, vars, w) && SameMac(s, w), NewDeadline(f, s, w);
      var yes := if holds then f.all || w.answers.restamp else f.rebind || (!f.all && w.answers.rebind);
      && (o == Unchanged <==> holds && !late)
      && (o == WorldMoved <==> !SameMac(s, w) && f.all && !f.rebind)
      && (o == Skipped <==> !f.all && !yes && (holds ==> late))
      && (o == ProbeUnbindable <==> yes && (holds ==> late) && !w.keystoreWritable)
      && (o == Approved(true) <==> yes && (holds ==> late) && w.keystoreWritable)
  {
    MissingCannotFill(s.attest.value.args, Inputs(vars, w.dates));
  }

  // ---- Binding a step for the first time, or again after a change ----

  ghost predicate NoComputedDate(s: StepView) { forall n :: n in s.ProbePlaceholders() ==> !IsComputedDate(n) }

  /** What a binding needs from the file and the `--var` values. */
  ghost predicate Bindable(s: StepView, vars: map<Name, string>, w: World) {
    && s.attest.Some? && s.attest.value.projection.Some? && !StatusCodeOverMcp(s, w)
    && NoComputedDate(s) && !AnyMissing(s.attest.value.args, vars) && Placeholders(s.args) == []
  }

  /** A typo such as `{{today+3}}` throws as soon as the probe args are filled: while missing names are
      looked for when there are placeholders, else only once nothing else stands in the way. */
  ghost predicate TypoIsMet(s: StepView, vars: map<Name, string>, w: World) {
    && s.attest.Some? && AnyMalformed(s.attest.value.args)
    && NoComputedDate(s) && !AnyMissing(s.attest.value.args, vars)
    && (s.ProbePlaceholders() != [] || Bindable(s, vars, w))
  }

  /** A yes to the observation that was shown. */
  ghost predicate Agreed(f: Flags, w: World) { f.all || w.answers.bindObserved }

  lemma FillsWhenWellFormed(s: StepView, vars: map<Name, string>, w: World)
    requires s.attest.Some? && NoComputedDate(s) && !AnyMissing(s.attest.value.args, vars)
    ensures Fill(s.attest.value.args, Inputs(vars, w.dates)).None? <==> AnyMalformed(s.attest.value.args)
    ensures Fill(s.attest.value.args, Inputs(vars, w.probeDates)).None? <==> AnyMalformed(s.attest.value.args)
  {
    FillExactly(s.attest.value.args, Inputs(vars, w.dates));
    FillExactly(s.attest.value.args, Inputs(vars, w.probeDates));
  }

  lemma FreshBindThrows(f: Flags, vars: map<Name, string>, s: StepView, w: World)
    requires Accepted(f) && s.WellFormed() && f.probe && !ReVerified(f, s)
    ensures Ceremony(f, vars, s, w).outcome == Threw <==> TypoIsMet(s, vars, w)
  {
    if s.attest.Some? && NoComputedDate(s) && !AnyMissing(s.attest.value.args, vars) {
      FillsWhenWellFormed(s, vars, w);
    }
  }

  /** A step that cannot be bound is left alone if it is approved as it stands; else the approval without a
      binding is refused under `--all` and over a parameterized probe, and offered in every other case. */
  lemma UnbindableOutcome(f: Flags, vars: map<Name, string>, s: StepView, w: World)
    requires Accepted(f) && s.WellFormed() && f.probe && !ReVerified(f, s)
    requires !TypoIsMet(s, vars, w) && !Bindable(s, vars, w)
    ensures var o, holes := Ceremony(f, vars, s, w).outcome, s.ProbePlaceholders() != [];
      && (o == Unchanged <==> s.Current())
      && (o == ProbeUnbindable <==> !s.Current() && f.all)
      && (o == StateBoundChanged <==> !s.Current() && !f.all && holes)
      && (o == Approved(false) <==> !s.Current() && !f.all && !holes && w.answers.withoutBinding)
      && (o == Skipped <==> !s.Current() && !f.all && !holes && !w.answers.withoutBinding)
  {
    if s.attest.Some? && NoComputedDate(s) && !AnyMissing(s.attest.value.args, vars) {
      FillsWhenWellFormed(s, vars, w);
    }
  }

  /** A bindable step is bound exactly if the probe answered, the observation was agreed to, and the key was
      stored; a parameterized probe whose key was not stored counts as a changed binding even under `--all`. */
  lemma BindableOutcome(f: Flags, vars: map<Name, string>, s: StepView, w: World)
    requires Accepted(f) && s.WellFormed() && f.probe && !ReVerified(f, s)
    requires !TypoIsMet(s, vars, w) && Bindable(s, vars, w)
    ensures var o, holes, silent := Ceremony(f, vars, s, w).outcome, s.ProbePlaceholders() != [],
        !Answered(s, vars, w);
      var unstored := !silent && Agreed(f, w) && !w.keystoreWritable;
      var without := (silent || unstored) && !f.all && !holes;
      && (o == Approved(true) <==> !silent && Agreed(f, w) && w.keystoreWritable)
      && (o == ProbeUnbindable <==> f.all && (silent || (unstored && !holes)))
      && (o == StateBoundChanged <==> holes && (unstored || (silent && !f.all)))
      && (o == Approved(false) <==> without && w.answers.withoutBinding)
      && (o == Skipped <==> (without && !w.answers.withoutBinding) || (!silent && !Agreed(f, w)))
  {
    FillsWhenWellFormed(s, vars, w);
  }

  /** No probe is to run: none was asked for, a re-verification lacks its key or has other args than were committed,
      or the step cannot be bound anyway. */
  ghost predicate NoProbeDue(f: Flags, vars: map<Name, string>, s: StepView, w: World)
    requires s.WellFormed()
  {
    if !f.probe then true
    else if ReVerified(f, s) then
      StatusCodeOverMcp(s, w) || !w.lookup.KeyFound? || (!SameArgs(s, vars, w) && !f.rebind)
    else !Bindable(s, vars, w)
  }

  /** And then nothing that is decided depends on what a probe would have answered. */
  lemma ProbeNotConsulted(f: Flags, vars: map<Name, string>, s: StepView, w: World, probe: Probe,
                          dates: map<Name, string>)
    requires Accepted(f) && s.WellFormed() && NoProbeDue(f, vars, s, w)
    ensures Ceremony(f, vars, s, w) == Ceremony(f, vars, s, w.(probe := probe, probeDates := dates))
  {
    if ReVerified(f, s) {
      ReVerifyWithoutProbe(f, vars, s, w, probe, dates);
    } else if f.probe {
      BindWithoutProbe(f, vars, s, w, probe, dates);
    }
  }

  lemma ReVerifyWithoutProbe(f: Flags, vars: map<Name, string>, s: StepView, w: World, probe: Probe,
                             dates: map<Name, string>)
    requires s.attest.Some? && s.binding.Some?
    requires StatusCodeOverMcp(s, w) || !w.lookup.KeyFound? || (!SameArgs(s, vars, w) && !f.rebind)
    ensures ReVerify(f, vars, s, w) == ReVerify(f, vars, s, w.(probe := probe, probeDates := dates))
  {
    MissingCannotFill(s.attest.value.args, Inputs(vars, w.dates));
  }

  lemma BindWithoutProbe(f: Flags, vars: map<Name, string>, s: StepView, w: World, probe: Probe,
                         dates: map<Name, string>)
    requires !Bindable(s, vars, w)
    ensures FreshBind(f, vars, s, w) == FreshBind(f, vars, s, w.(probe := probe, probeDates := dates))
  {
  }

  /** The deadline of a new binding: the one asked for, counted from the observation; else the old one, if there
      was one; else none. */
  lemma DeadlineExactly(f: Flags, vars: map<Name, string>, s: StepView, w: World)
    requires Accepted(f) && s.WellFormed() && Ceremony(f, vars, s, w).outcome == Approved(true)
    ensures var bound := Ceremony(f, vars, s, w).binding;
      && bound.Some?
      && (f.expires.Some? ==> bound.value.expiresAt == Some(w.observedAt + f.expires.value))
      && (f.expires.None? && s.binding.Some? ==> bound.value.expiresAt == s.binding.value.expiresAt)
      && (f.expires.None? && s.binding.None? ==> bound.value.expiresAt == None)
  {
    if s.Current() && s.binding.Some? { ReVerifyStamps(f, vars, s, w); } else { FreshStamps(f, vars, s, w); }
  }

  // ---- Whole runs ----

  /** Counts that agree with a bag of outcomes. */
  ghost predicate Tallied(c: Counts, m: multiset<Outcome>) {
    && c.approved == m[Approved(true)] + m[Approved(false)] && c.stateBound == m[Approved(true)]
    && c.skipped == m[Skipped] && c.same == m[Unchanged] && c.probeFailed == m[ProbeUnbindable]
    && c.worldMoved == m[WorldMoved] && c.stateBoundChanged == m[StateBoundChanged]
    && c.unavailable == m[ReVerifyUnavailable]
  }

  lemma TallyOne(c: Counts, m: multiset<Outcome>, o: Outcome)
    requires Tallied(c, m)
    ensures Tallied(c.Add(o), m + multiset{o})
  {
  }

  lemma {:induction false} TallyAll(os: seq<Outcome>)
    ensures Tallied(CountAll(os), multiset(os))
  {
    if os != [] {
      var init, last := os[..|os| - 1], os[|os| - 1];
      assert os == init + [last];
      TallyAll(init);
      TallyOne(CountAll(init), multiset(init), last);
    }
  }

  /** Each counter is the number of steps that ended so. */
  lemma CountersExactly(f: Flags, vars: map<Name, string>, steps: seq<StepView>, ws: seq<World>)
    requires Accepted(f) && AllWellFormed(steps) && |ws| == |steps|
    requires !RunSteps(f, vars, steps, ws, |steps|).threw
    ensures Tallied(RunSteps(f, vars, steps, ws, |steps|).counts, multiset(Outcomes(f, vars, steps, ws, |steps|)))
  {
    RunCounts(f, vars, steps, ws, |steps|);
    TallyAll(Outcomes(f, vars, steps, ws, |steps|));
  }

  /** The world, and the probe args, are as committed. */
  ghost predicate Holds(s: StepView, vars: map<Name, string>, w: World)
    requires s.attest.Some? && s.binding.Some? && w.lookup.KeyFound? && w.probe.Observed?
  {
    SameArgs(s, vars, w) && SameMac(s, w)
  }

  /** A re-verified step that does not spoil the exit code under `--all`. */
  ghost predicate Clean(f: Flags, vars: map<Name, string>, s: StepView, w: World) {
    && s.attest.Some? && s.binding.Some? && Comparable(f, vars, s, w)
    && (Holds(s, vars, w) || f.rebind)
    && ((Holds(s, vars, w) && !NewDeadline(f, s, w)) || w.keystoreWritable)
  }

  lemma CleanExactly(f: Flags, vars: map<Name, string>, s: StepView, w: World)
    requires Accepted(f) && s.WellFormed() && ReVerified(f, s) && f.all
    ensures var o := Ceremony(f, vars, s, w).outcome;
      !Degraded(o) && o != Threw <==> Clean(f, vars, s, w)
  {
    ReVerifyNeeds(f, vars, s, w);
    if Comparable(f, vars, s, w) { ReVerifyOutcome(f, vars, s, w); }
  }

  /** `approve --all --probe` over steps that are bound and current exits with 0 exactly if every one of them
      was compared, each moved one was given up to `--rebind`, and each new binding was stored. */
  lemma ReVerifyExit(f: Flags, vars: map<Name, string>, steps: seq<StepView>, ws: seq<World>)
    requires Accepted(f) && AllWellFormed(steps) && |ws| == |steps| && f.all
    requires forall i :: 0 <= i < |steps| ==> ReVerified(f, steps[i])
    ensures var r := RunSteps(f, vars, steps, ws, |steps|);
      !r.threw && r.counts.ExitCode() == 0 <==>
        forall i :: 0 <= i < |steps| ==> Clean(f, vars, steps[i], ws[i])
  {
    var os := Outcomes(f, vars, steps, ws, |steps|);
    ExitsClean(f, vars, steps, ws);
    forall i | 0 <= i < |steps| ensures Fine(os[i]) <==> Clean(f, vars, steps[i], ws[i]) {
      CleanExactly(f, vars, steps[i], ws[i]);
    }
  }

  ghost predicate Fine(o: Outcome) { !Degraded(o) && o != Threw }

  /** A run exits with 0 exactly if no step of it threw or degraded. */
  lemma ExitsClean(f: Flags, vars: map<Name, string>, steps: seq<StepView>, ws: seq<World>)
    requires Accepted(f) && AllWellFormed(steps) && |ws| == |steps|
    ensures var r, os := RunSteps(f, vars, steps, ws, |steps|), Outcomes(f, vars, steps, ws, |steps|);
      !r.threw && r.counts.ExitCode() == 0 <==> forall i :: 0 <= i < |os| ==> Fine(os[i])
  {
    var os := Outcomes(f, vars, steps, ws, |steps|);
    ThrewExactly(f, vars, steps, ws, |steps|);
    if !RunSteps(f, vars, steps, ws, |steps|).threw {
      Accounting(f, vars, steps, ws);
      RunCounts(f, vars, steps, ws, |steps|);
      assert forall i :: 0 <= i < |os| ==> os[i] in os;
    }
  }

  lemma {:induction false} ThrewExactly(f: Flags, vars: map<Name, string>, steps: seq<StepView>, ws: seq<World>, n: nat)
    requires Accepted(f) && AllWellFormed(steps) && |ws| == |steps| && n <= |steps|
    ensures RunSteps(f, vars, steps, ws, n).threw <==>
      exists i :: 0 <= i < n && Ceremony(f, vars, steps[i], ws[i]).outcome == Threw
  {
    if n > 0 {
      ThrewExactly(f, vars, steps, ws, n - 1);
    }
  }

  /** The operator saw the new world, or the new deadline, and said no. */
  ghost predicate Declined(f: Flags, vars: map<Name, string>, s: StepView, w: World)
    requires s.attest.Some? && s.binding.Some? && w.lookup.KeyFound? && w.probe.Observed?
  {
    && !f.all
    && if Holds(s, vars, w) then NewDeadline(f, s, w) && !w.answers.restamp else !f.rebind && !w.answers.rebind
  }

  /** A clean exit, whatever the flags and the other steps: a re-verified step ends with a commitment to what
      this run observed, the old one or a new one, unless the operator declined. */
  lemma CleanExitMeansCommitted(f: Flags, vars: map<Name, string>, steps: seq<StepView>, ws: seq<World>, i: nat)
    requires Accepted(f) && AllWellFormed(steps) && |ws| == |steps| && i < |steps| && ReVerified(f, steps[i])
    requires !RunSteps(f, vars, steps, ws, |steps|).threw
    requires RunSteps(f, vars, steps, ws, |steps|).counts.ExitCode() == 0
    ensures Comparable(f, vars, steps[i], ws[i])
    ensures var s, t, w := steps[i], RunSteps(f, vars, steps, ws, |steps|).steps[i], ws[i];
      if Declined(f, vars, s, w) then t == s
      else if Holds(s, vars, w) && !NewDeadline(f, s, w) then t == s
      else t.Current() && t.binding.Some? && CommitsProbe(s, vars, w, t.binding.value)
  {
    var s, w, os := steps[i], ws[i], Outcomes(f, vars, steps, ws, |steps|);
    Accounting(f, vars, steps, ws);
    RunCounts(f, vars, steps, ws, |steps|);
    assert os[i] in os && os[i] == Ceremony(f, vars, s, w).outcome;
    ReVerifyNeeds(f, vars, s, w);
    ReVerifyOutcome(f, vars, s, w);
    StepAt(f, vars, steps, ws, |steps|, i);
    StepOutcomeAndState(f, vars, s, w);
    if os[i] == Approved(true) { StepBoundCommits(f, vars, s, w); }
  }
}
