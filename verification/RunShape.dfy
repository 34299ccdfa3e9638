/** `computeRunShape`: the latest run of a skill against the runs before it, leaving out
    synthetic failure runs and deferred follow-ups. */
module RunShape {
  import opened Wrappers
  import opened Sequences
  import opened RobustStats

  /** A run record; `metrics` are its footprint counters in report order, `started` its
      parsed start, None if the stamp does not parse. */
  datatype Run = Run(deferredResolution: bool, mock: bool, startedAt: string, started: Option<real>,
                     metrics: seq<real>, skill: Option<string>)

  datatype Signal = Signal(metric: nat, latest: real, baseline: Baseline, deviates: bool)

  datatype Shape =
    | NoRuns
    | InsufficientHistory(startedAt: string, priorRuns: nat, newest: bool)
    | Compared(startedAt: string, priorRuns: nat, signals: seq<Signal>, skillChanged: Option<bool>, newest: bool)

  const MIN_PRIOR_RUNS := 3
  const MAX_BASELINE_RUNS := 20
  const METRICS := 11
  const GAP := 11
  const SILENCE := 12

  predicate Counted(runs: seq<Run>) { forall i :: 0 <= i < |runs| ==> |runs[i].metrics| == METRICS }

  function Keep(run: Run, keep: bool): seq<Run> { if keep then [run] else [] }

  function Executions(runs: seq<Run>): seq<Run> {
    if runs == [] then [] else Keep(runs[0], !runs[0].deferredResolution) + Executions(runs[1..])
  }

  function Real(runs: seq<Run>): seq<Run> {
    if runs == [] then [] else Keep(runs[0], !runs[0].mock) + Real(runs[1..])
  }

  /** Where in the list the real runs stand; a run is the record at its position, not an equal one. */
  function RealAt(runs: seq<Run>): (at: seq<nat>)
    ensures forall i :: 0 <= i < |at| ==> at[i] < |runs|
  {
    if runs == [] then []
    else
      var k := |runs| - 1;
      RealAt(runs[..k]) + if runs[k].mock then [] else [k]
  }

  function Last<T>(s: seq<T>, n: nat): seq<T> { if |s| <= n then s else s[|s| - n..] }

  function Column(runs: seq<Run>, metric: nat): seq<real>
    requires Counted(runs) && metric < METRICS
  {
    seq(|runs|, i requires 0 <= i < |runs| => runs[i].metrics[metric])
  }

  /** A start-to-start interval; dropped, never clamped, if it cannot be measured. */
  function Interval(a: Option<real>, b: Option<real>): Option<real> {
    if a.Some? && b.Some? && b.value - a.value >= 0.0 then Some(b.value - a.value) else None
  }

  function List<T>(o: Option<T>): seq<T> { if o.Some? then [o.value] else [] }

  function Gaps(runs: seq<Run>): seq<real> {
    if |runs| < 2 then []
    else Gaps(runs[..|runs| - 1]) + List(Interval(runs[|runs| - 2].started, runs[|runs| - 1].started))
  }

  function MetricSignal(latest: Run, priors: seq<Run>, metric: nat): Signal
    requires Counted(priors) && |latest.metrics| == METRICS && priors != [] && metric < METRICS
  {
    var b := BaselineOf(Column(priors, metric));
    Signal(metric, latest.metrics[metric], b, Deviates(latest.metrics[metric], b, false))
  }

  function TimedSignal(metric: nat, interval: Option<real>, gaps: seq<real>, high: bool): seq<Signal>
    requires gaps != []
  {
    if interval.None? then []
    else [Signal(metric, interval.value, BaselineOf(gaps), Deviates(interval.value, BaselineOf(gaps), high))]
  }

  function GapSignals(latest: Run, priors: seq<Run>, now: Option<real>): seq<Signal>
    requires priors != []
  {
    var gaps := Gaps(priors);
    if |gaps| < MIN_PRIOR_RUNS then []
    else
      TimedSignal(GAP, Interval(priors[|priors| - 1].started, latest.started), gaps, false)
      + TimedSignal(SILENCE, Interval(latest.started, now), gaps, true)
  }

  function MetricSignals(latest: Run, priors: seq<Run>): seq<Signal>
    requires Counted(priors) && |latest.metrics| == METRICS && priors != []
  {
    seq(METRICS, m requires 0 <= m < METRICS => MetricSignal(latest, priors, m))
  }

  function SignalsOf(latest: Run, priors: seq<Run>, now: Option<real>): seq<Signal>
    requires Counted(priors) && |latest.metrics| == METRICS && priors != []
  {
    MetricSignals(latest, priors) + GapSignals(latest, priors, now)
  }

  lemma {:induction false} ExecutionsCounted(runs: seq<Run>)
    requires Counted(runs)
    ensures Counted(Executions(runs))
  {
    if runs != [] { ExecutionsCounted(runs[1..]); }
  }

  lemma {:induction false} RealCounted(runs: seq<Run>)
    requires Counted(runs)
    ensures Counted(Real(runs))
    ensures forall i :: 0 <= i < |Real(runs)| ==> !Real(runs)[i].mock
  {
    if runs != [] { RealCounted(runs[1..]); }
  }

  /** The report about the newest of the real runs. */
  function About(usable: seq<Run>, newest: bool, now: Option<real>): Shape
    requires Counted(usable)
  {
    if usable == [] then NoRuns
    else
      var latest := usable[|usable| - 1];
      var priors := Last(usable[..|usable| - 1], MAX_BASELINE_RUNS);
      if |priors| < MIN_PRIOR_RUNS then InsufficientHistory(latest.startedAt, |priors|, newest)
      else
        var before := priors[|priors| - 1].skill;
        Compared(latest.startedAt, |priors|, SignalsOf(latest, priors, now),
                 if latest.skill.None? || before.None? then None else Some(latest.skill != before), newest)
  }

  /** The subject, the last real run, is the last execution. */
  predicate SubjectIsNewest(executions: seq<Run>) {
    var at := RealAt(executions);
    at != [] && at[|at| - 1] == |executions| - 1
  }

  function Report(runs: seq<Run>, now: Option<real>): Shape
    requires Counted(runs)
  {
    var executions := Executions(runs);
    ExecutionsCounted(runs);
    RealCounted(executions);
    About(Real(executions), SubjectIsNewest(executions), now)
  }

  lemma {:induction false} RealAtIsReal(runs: seq<Run>)
    ensures |RealAt(runs)| == |Real(runs)|
    ensures forall i :: 0 <= i < |Real(runs)| ==> runs[RealAt(runs)[i]] == Real(runs)[i]
  {
    if runs != [] {
      var k := |runs| - 1;
      RealAtIsReal(runs[..k]);
      assert runs == runs[..k] + [runs[k]];
      RealAppend(runs[..k], [runs[k]]);
      One(runs[k]);
    }
  }

  /** As it runs: the gaps and the signals are pushed in loops. */
  method ComputeRunShape(runs: seq<Run>, now: Option<real>) returns (r: Shape)
    requires Counted(runs)
    ensures r == Report(runs, now)
  {
    var executions := Executions(runs);
    ExecutionsCounted(runs);
    var usable := Real(executions);
    RealCounted(executions);
    if usable == [] { return NoRuns; }
    RealAtIsReal(executions);
    var at := RealAt(executions);
    var latest := executions[at[|at| - 1]];
    var newest := at[|at| - 1] == |executions| - 1;
    assert latest == usable[|usable| - 1] && newest == SubjectIsNewest(executions);
    r := CompareLatest(usable, latest, newest, now);
  }

  method CompareLatest(usable: seq<Run>, latest: Run, newest: bool, now: Option<real>) returns (r: Shape)
    requires Counted(usable) && usable != [] && latest == usable[|usable| - 1]
    ensures r == About(usable, newest, now)
  {
    var priors := Last(usable[..|usable| - 1], MAX_BASELINE_RUNS);
    if |priors| < MIN_PRIOR_RUNS { return InsufficientHistory(latest.startedAt, |priors|, newest); }
    var signals := PushSignals(latest, priors, now);
    var before := priors[|priors| - 1].skill;
    var skillChanged := if latest.skill.None? || before.None? then None else Some(latest.skill != before);
    r := Compared(latest.startedAt, |priors|, signals, skillChanged, newest);
  }

  method MeasureGaps(priors: seq<Run>) returns (gaps: seq<real>)
    requires priors != []
    ensures gaps == Gaps(priors)
  {
    gaps := [];
    for i := 1 to |priors|
      invariant gaps == Gaps(priors[..i])
    {
      assert priors[..i + 1][..i] == priors[..i];
      gaps := gaps + List(Interval(priors[i - 1].started, priors[i].started));
    }
    assert priors[..|priors|] == priors;
  }

  method PushMetrics(latest: Run, priors: seq<Run>) returns (signals: seq<Signal>)
    requires Counted(priors) && |latest.metrics| == METRICS && priors != []
    ensures signals == MetricSignals(latest, priors)
  {
    signals := [];
    for m := 0 to METRICS
      invariant |signals| == m && forall i :: 0 <= i < m ==> signals[i] == MetricSignal(latest, priors, i)
    {
      signals := signals + [MetricSignal(latest, priors, m)];
    }
  }

  method PushSignals(latest: Run, priors: seq<Run>, now: Option<real>) returns (signals: seq<Signal>)
    requires Counted(priors) && |latest.metrics| == METRICS && priors != []
    ensures signals == SignalsOf(latest, priors, now)
  {
    signals := PushMetrics(latest, priors);
    var gaps := MeasureGaps(priors);
    var timed: seq<Signal> := [];
    if |gaps| >= MIN_PRIOR_RUNS {
      timed := TimedSignal(GAP, Interval(priors[|priors| - 1].started, latest.started), gaps, false);
      timed := timed + TimedSignal(SILENCE, Interval(latest.started, now), gaps, true);
    }
    assert timed == GapSignals(latest, priors, now);
    signals := signals + timed;
  }

  // ---- Main results ----

  lemma {:induction false} ExecutionsAppend(a: seq<Run>, b: seq<Run>)
    ensures Executions(a + b) == Executions(a) + Executions(b)
  {
    if a == [] {
      assert a + b == b;
    } else {
      ExecutionsAppend(a[1..], b);
      assert (a + b)[0] == a[0] && (a + b)[1..] == a[1..] + b;
      Assoc(Keep(a[0], !a[0].deferredResolution), Executions(a[1..]), Executions(b));
    }
  }

  lemma {:induction false} RealAppend(a: seq<Run>, b: seq<Run>)
    ensures Real(a + b) == Real(a) + Real(b)
  {
    if a == [] {
      assert a + b == b;
    } else {
      RealAppend(a[1..], b);
      assert (a + b)[0] == a[0] && (a + b)[1..] == a[1..] + b;
      Assoc(Keep(a[0], !a[0].mock), Real(a[1..]), Real(b));
    }
  }

  /** The report apart from whether its subject is the newest record. */
  function Content(s: Shape): Shape { if s.NoRuns? then s else s.(newest := true) }

  lemma InsertedCounted(a: seq<Run>, extra: Run, b: seq<Run>)
    requires Counted(a) && Counted(b) && |extra.metrics| == METRICS
    ensures Counted(a + b) && Counted(a + [extra] + b)
  {
    var with := a + [extra] + b;
    forall i | 0 <= i < |with| ensures |with[i].metrics| == METRICS {
      assert with[i] == if i < |a| then a[i] else if i == |a| then extra else b[i - |a| - 1];
    }
  }

  lemma One(run: Run)
    ensures Executions([run]) == Keep(run, !run.deferredResolution) && Real([run]) == Keep(run, !run.mock)
  {
    assert [run][1..] == [];
  }

  lemma ExecutionsInsert(a: seq<Run>, extra: Run, b: seq<Run>)
    ensures Executions(a + [extra] + b) ==
      if extra.deferredResolution then Executions(a + b) else Executions(a) + [extra] + Executions(b)
    ensures Executions(a + b) == Executions(a) + Executions(b)
  {
    ExecutionsAppend(a + [extra], b);
    ExecutionsAppend(a, [extra]);
    ExecutionsAppend(a, b);
    One(extra);
    assert Executions(a) + [] == Executions(a);
  }

  lemma RealInsert(a: seq<Run>, extra: Run, b: seq<Run>)
    requires extra.mock
    ensures Real(a + [extra] + b) == Real(a + b)
  {
    RealAppend(a + [extra], b);
    RealAppend(a, [extra]);
    RealAppend(a, b);
    One(extra);
    assert Real(a) + [] == Real(a);
  }

  /** A synthetic failure run or a deferred follow-up, wherever it is inserted, moves no figure. */
  lemma InsertedChangesNothing(a: seq<Run>, extra: Run, b: seq<Run>, now: Option<real>)
    requires Counted(a) && Counted(b) && |extra.metrics| == METRICS && (extra.mock || extra.deferredResolution)
    ensures Counted(a + b) && Counted(a + [extra] + b)
    ensures Content(Report(a + [extra] + b, now)) == Content(Report(a + b, now))
    ensures extra.deferredResolution ==> Report(a + [extra] + b, now) == Report(a + b, now)
  {
    InsertedCounted(a, extra, b);
    ExecutionsInsert(a, extra, b);
    if !extra.deferredResolution { MockChangesNothing(a, extra, b, now); }
  }

  lemma MockChangesNothing(a: seq<Run>, extra: Run, b: seq<Run>, now: Option<real>)
    requires Counted(a + b) && Counted(a + [extra] + b) && extra.mock && !extra.deferredResolution
    ensures Content(Report(a + [extra] + b, now)) == Content(Report(a + b, now))
  {
    var less, more := Executions(a + b), Executions(a + [extra] + b);
    ExecutionsInsert(a, extra, b);
    RealInsert(Executions(a), extra, Executions(b));
    ReportIs(a + b, now);
    ReportIs(a + [extra] + b, now);
    AboutNewest(Real(less), now);
  }

  lemma ReportIs(runs: seq<Run>, now: Option<real>)
    requires Counted(runs)
    ensures Counted(Real(Executions(runs)))
    ensures Report(runs, now) == About(Real(Executions(runs)), SubjectIsNewest(Executions(runs)), now)
  {
    ExecutionsCounted(runs);
    RealCounted(Executions(runs));
  }

  lemma AboutNewest(usable: seq<Run>, now: Option<real>)
    requires Counted(usable)
    ensures Content(About(usable, true, now)) == Content(About(usable, false, now))
  {
  }

  function StartedAt(s: Shape): string
    requires !s.NoRuns?
  {
    s.startedAt
  }

  /** Where the subject stands: at the last execution that is not synthetic. */
  lemma {:induction false} SubjectAt(executions: seq<Run>) returns (k: nat)
    requires RealAt(executions) != []
    ensures k < |executions| && k == RealAt(executions)[|RealAt(executions)| - 1] && !executions[k].mock
    ensures forall j :: k < j < |executions| ==> executions[j].mock
  {
    var n := |executions| - 1;
    if executions[n].mock {
      k := SubjectAt(executions[..n]);
      assert forall j :: k < j < n ==> executions[j] == executions[..n][j];
    } else {
      k := n;
    }
  }

  /** The report is about the last execution that is not synthetic, and says it is the newest exactly when
      the very last execution is not synthetic. */
  lemma NewestExactly(runs: seq<Run>, now: Option<real>) returns (k: nat)
    requires Counted(runs) && !Report(runs, now).NoRuns?
    ensures var executions := Executions(runs);
      && k < |executions| && !executions[k].mock && (forall j :: k < j < |executions| ==> executions[j].mock)
      && StartedAt(Report(runs, now)) == executions[k].startedAt
      && (Report(runs, now).newest <==> !executions[|executions| - 1].mock)
  {
    var executions := Executions(runs);
    ExecutionsCounted(runs);
    RealCounted(executions);
    RealAtIsReal(executions);
    k := SubjectAt(executions);
  }

  /** A metric that is flagged has a value no run of the window had. */
  lemma FlaggedIsNew(latest: Run, priors: seq<Run>, metric: nat)
    requires Counted(priors) && |latest.metrics| == METRICS && priors != [] && metric < METRICS
    ensures MetricSignal(latest, priors, metric).deviates ==>
      forall i :: 0 <= i < |priors| ==> priors[i].metrics[metric] != latest.metrics[metric]
  {
    var column := Column(priors, metric);
    DeviatesExactly(latest.metrics[metric], column, false);
    forall i | 0 <= i < |priors| ensures column[i] in column && column[i] == priors[i].metrics[metric] {}
  }

  /** The real runs that the latest of them is compared with. */
  function Window(usable: seq<Run>): seq<Run>
    requires usable != []
  {
    Last(usable[..|usable| - 1], MAX_BASELINE_RUNS)
  }

  lemma WindowIs(usable: seq<Run>)
    requires usable != []
    ensures var n := |usable|; var k := if n <= 21 then n - 1 else 20;
      |Window(usable)| == k && forall i :: 0 <= i < k ==> Window(usable)[i] == usable[n - 1 - k + i]
  {
  }

  /** The skill counts as changed exactly if the last two real runs both name theirs and the names differ; it is
      not known exactly if one of them does not. */
  lemma SkillChangedExactly(usable: seq<Run>, newest: bool, now: Option<real>)
    requires Counted(usable) && About(usable, newest, now).Compared?
    ensures |usable| >= 2
    ensures var last, before := usable[|usable| - 1].skill, usable[|usable| - 2].skill;
      var flag := About(usable, newest, now).skillChanged;
      && (flag == Some(true) <==> last.Some? && before.Some? && last.value != before.value)
      && (flag == Some(false) <==> last.Some? && before.Some? && last.value == before.value)
      && (flag == None <==> last.None? || before.None?)
  {
    LastOfWindow(usable);
  }

  lemma LastOfWindow(usable: seq<Run>)
    requires |usable| >= 2
    ensures Window(usable) != [] && Window(usable)[|Window(usable)| - 1] == usable[|usable| - 2]
  {
    WindowIs(usable);
  }

  /** What the latest real run is compared with: the up to 20 real runs right before it, if there are at least 3;
      each counter with the same counter of those. */
  lemma WindowExactly(usable: seq<Run>, newest: bool, now: Option<real>, metric: nat)
    requires Counted(usable) && metric < 11
    ensures var r, n := About(usable, newest, now), |usable|;
      var k := if n <= 21 then n - 1 else 20;
      && (r.Compared? <==> n >= 4)
      && (r.InsufficientHistory? ==> r.priorRuns == n - 1)
      && (r.Compared? ==>
            && r.priorRuns == k && |r.signals| >= 11 && r.startedAt == usable[n - 1].startedAt
            && ComparesCounter(usable, k, metric, r.signals[metric]))
  {
    var n := |usable|;
    if n >= 1 { WindowIs(usable); }
    if n >= 4 { CounterCompared(usable, Window(usable), metric); }
  }

  /** The signal of a counter: that of the latest run, over those of the k before it. */
  ghost predicate ComparesCounter(usable: seq<Run>, k: nat, metric: nat, s: Signal)
    requires Counted(usable) && 0 < k < |usable| && metric < 11
  {
    var n := |usable|;
    && s.metric == metric && s.latest == usable[n - 1].metrics[metric]
    && s.baseline == BaselineOf(seq(k, i requires 0 <= i < k => usable[n - 1 - k + i].metrics[metric]))
  }

  lemma CounterCompared(usable: seq<Run>, priors: seq<Run>, metric: nat)
    requires Counted(usable) && Counted(priors) && 0 < |priors| < |usable| && metric < 11
    requires forall i :: 0 <= i < |priors| ==> priors[i] == usable[|usable| - 1 - |priors| + i]
    ensures ComparesCounter(usable, |priors|, metric, MetricSignal(usable[|usable| - 1], priors, metric))
  {
    var n, k := |usable|, |priors|;
    assert Column(priors, metric) == seq(k, i requires 0 <= i < k => usable[n - 1 - k + i].metrics[metric]);
  }

  /** The time from one start to the next, where both parse and the clock did not run back. */
  ghost predicate Measures(a: Option<real>, b: Option<real>, t: real) {
    a.Some? && b.Some? && a.value <= b.value && t == b.value - a.value
  }

  lemma {:induction false} GapsExactly(runs: seq<Run>, t: real)
    ensures t in Gaps(runs) <==> exists i :: 0 < i < |runs| && Measures(runs[i - 1].started, runs[i].started, t)
  {
    if |runs| >= 2 {
      var init, k := runs[..|runs| - 1], |runs| - 1;
      GapsExactly(init, t);
      assert forall i :: 0 <= i < k ==> init[i] == runs[i];
      if Measures(runs[k - 1].started, runs[k].started, t) {
        assert Interval(runs[k - 1].started, runs[k].started) == Some(t);
      }
      if i :| 0 < i < |init| && Measures(init[i - 1].started, init[i].started, t) {
        assert Measures(runs[i - 1].started, runs[i].started, t);
      }
      if i :| 0 < i < |runs| && Measures(runs[i - 1].started, runs[i].started, t) {
        if i < k { assert Measures(init[i - 1].started, init[i].started, t); }
      }
    }
  }

  /** The signal of a measurable interval over the gaps. */
  ghost predicate TimedAs(s: Signal, metric: nat, a: Option<real>, b: Option<real>, gaps: seq<real>, high: bool)
    requires gaps != []
  {
    && s.metric == metric && Measures(a, b, s.latest) && s.baseline == BaselineOf(gaps)
    && s.deviates == Deviates(s.latest, s.baseline, high)
  }

  lemma OneTimed(s: Signal, metric: nat, a: Option<real>, b: Option<real>, gaps: seq<real>, high: bool)
    requires gaps != []
    ensures s in TimedSignal(metric, Interval(a, b), gaps, high) <==> TimedAs(s, metric, a, b, gaps, high)
  {
  }

  /** The two timed signals: the last gap and the silence since, each exactly if it can be measured and at least 3
      gaps of the window can; of the silence only a length beyond the range counts. */
  lemma TimedExactly(latest: Run, priors: seq<Run>, now: Option<real>, s: Signal)
    requires priors != []
    ensures var gaps, last := Gaps(priors), priors[|priors| - 1].started;
      s in GapSignals(latest, priors, now) <==>
        && |gaps| >= 3
        && (TimedAs(s, 11, last, latest.started, gaps, false) || TimedAs(s, 12, latest.started, now, gaps, true))
  {
    var gaps, last := Gaps(priors), priors[|priors| - 1].started;
    if |gaps| >= 3 {
      OneTimed(s, GAP, last, latest.started, gaps, false);
      OneTimed(s, SILENCE, latest.started, now, gaps, true);
    }
  }
}
