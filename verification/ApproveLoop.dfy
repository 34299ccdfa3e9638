/** The ceremony as the command runs it: a loop that mutates steps and counters,
    proved to compute Approve.Ceremony step by step. */
module ApproveLoop {
  import opened Wrappers
  import opened Approve

  class Step {
    const tool: string
    const args: Template
    const attest: Option<Attest>
    const emit: Option<seq<string>>
    var binding: Option<Binding>
    var approve: Option<Digest>

    constructor (view: StepView)
      ensures View() == view
    {
      tool, args, attest, emit := view.tool, view.args, view.attest, view.emit;
      binding, approve := view.binding, view.approve;
    }

    function View(): StepView
      reads this
    {
      StepView(tool, args, attest, emit, binding, approve)
    }
  }

  /** The eight counters of one run. */
  datatype Counts = Counts(approved: nat, stateBound: nat, skipped: nat, same: nat,
                           probeFailed: nat, worldMoved: nat, stateBoundChanged: nat, unavailable: nat)
  {
    function Add(o: Outcome): Counts {
      match o
      case Approved(bound) => this.(approved := approved + 1, stateBound := stateBound + if bound then 1 else 0)
      case Skipped => this.(skipped := skipped + 1)
      case Unchanged => this.(same := same + 1)
      case ProbeUnbindable => this.(probeFailed := probeFailed + 1)
      case WorldMoved => this.(worldMoved := worldMoved + 1)
      case StateBoundChanged => this.(stateBoundChanged := stateBoundChanged + 1)
      case ReVerifyUnavailable => this.(unavailable := unavailable + 1)
      case Threw => this
    }

    /** The seven outcome counters together. */
    function Total(): nat {
      approved + skipped + same + probeFailed + worldMoved + stateBoundChanged + unavailable
    }

    function ExitCode(): nat {
      if probeFailed > 0 || worldMoved > 0 || stateBoundChanged > 0 || unavailable > 0 then 1 else 0
    }
  }

  const ZERO := Counts(0, 0, 0, 0, 0, 0, 0, 0)

  class Session {
    const flags: Flags
    const vars: map<Name, string>
    var counts: Counts

    constructor (flags: Flags, vars: map<Name, string>)
      ensures counts == ZERO && this.flags == flags && this.vars == vars
    {
      this.flags, this.vars, counts := flags, vars, ZERO;
    }

    /** Keystore entry first, then the step: a failed write leaves the step untouched. */
    method BindStep(step: Step, w: World, typed: Typed, filled: Option<Template>) returns (bound: bool)
      requires step.attest.Some?
      modifies step
      ensures bound == w.keystoreWritable
      ensures !bound ==> step.View() == old(step.View())
      ensures bound ==>
        var v := Stamp(flags, old(step.View()), w, typed, filled);
        step.View() == old(step.View()).(binding := v.binding, approve := v.approve)
    {
      if !w.keystoreWritable { return false; }
      var expiresAt := if flags.expires.Some? then Some(w.observedAt + flags.expires.value)
                       else if step.binding.Some? then step.binding.value.expiresAt else None;
      var probe := step.attest.value.tool;
      step.binding := Some(Binding(w.observedAt, KeyIdOf(w.freshKey), PreMac(w.freshKey, probe, typed), expiresAt,
                                   map name | name in typed :: FieldMac(w.freshKey, probe, name, typed[name]),
                                   if filled.Some? then Some(ArgsMac(w.freshKey, probe, filled.value)) else None));
      step.approve := Some(step.View().Hash());
      return true;
    }

    /** `threw` stands for an exception that leaves the whole command. */
    method ProcessStep(step: Step, w: World) returns (threw: bool)
      requires Accepted(flags) && step.View().WellFormed()
      modifies this, step
      ensures var v := Ceremony(flags, vars, old(step.View()), w);
        && step.View() == old(step.View()).(binding := v.binding, approve := v.approve)
        && counts == old(counts).Add(v.outcome)
        && threw == v.outcome.Threw?
    {
      threw := false;
      var dropping := flags.dropExpect && step.binding.Some?;
      var kept := if dropping then None else step.binding;
      var expected := step.View().(binding := kept).Hash();
      var isCurrent := !dropping && step.approve == Some(expected);
      var holes := step.View().ProbePlaceholders();

      if dropping && holes != [] {
        counts := counts.(stateBoundChanged := counts.stateBoundChanged + 1);
        return;
      }
      if !flags.probe && !dropping && step.binding.Some? && !isCurrent {
        counts := counts.(stateBoundChanged := counts.stateBoundChanged + 1);
        return;
      }
      if !flags.probe {
        if isCurrent {
          counts := counts.(same := counts.same + 1);
          return;
        }
        if flags.all || w.answers.approve {
          if dropping { step.binding := None; }
          step.approve := Some(expected);
          counts := counts.(approved := counts.approved + 1);
        } else {
          counts := counts.(skipped := counts.skipped + 1);
        }
        return;
      }
      if isCurrent && step.binding.Some? {
        threw := ReVerifyStep(step, w);
      } else {
        threw := BindFresh(step, w);
      }
    }

    method ReVerifyStep(step: Step, w: World) returns (threw: bool)
      requires Accepted(flags) && step.attest.Some? && step.binding.Some?
      modifies this, step
      ensures var v := ReVerify(flags, vars, old(step.View()), w);
        && step.View() == old(step.View()).(binding := v.binding, approve := v.approve)
        && counts == old(counts).Add(v.outcome)
        && threw == v.outcome.Threw?
    {
      threw := false;
      var a, e := step.attest.value, step.binding.value;
      if StatusCodeOverMcp(step.View(), w) || !w.lookup.KeyFound? {
        counts := counts.(unavailable := counts.unavailable + 1);
        return;
      }
      var key := w.lookup.key;
      var missing := AnyMissing(a.args, vars);
      var filled := None;
      if !missing {
        filled := Fill(a.args, Inputs(vars, w.dates));
        if filled.None? { return true; }
      }
      var rebindingArgs := false;
      if e.probeArgs.Some? {
        if missing || ArgsMac(key, a.tool, filled.value) != e.probeArgs.value {
          if missing || !flags.rebind {
            counts := counts.(unavailable := counts.unavailable + 1);
            return;
          }
          rebindingArgs := true;
        }
      }
      CompareStep(step, w, filled, rebindingArgs);
    }

    /** The rest of re-verification: probe, compare, ask, bind. */
    method CompareStep(step: Step, w: World, filled: Option<Template>, rebindingArgs: bool)
      requires step.attest.Some? && step.binding.Some? && w.lookup.KeyFound?
      modifies this, step
      ensures var v := CompareState(flags, vars, old(step.View()), w, filled, rebindingArgs);
        && step.View() == old(step.View()).(binding := v.binding, approve := v.approve)
        && counts == old(counts).Add(v.outcome)
    {
      var a, e, key := step.attest.value, step.binding.value, w.lookup.key;
      var probe := RunProbe(a, vars, w);
      if probe.ProbeFailed? || probe.typed == map[] {
        counts := counts.(unavailable := counts.unavailable + 1);
        return;
      }
      var typed := probe.typed;
      var commit := if step.View().ProbePlaceholders() != [] then filled else None;
      var stateUnchanged := !rebindingArgs && PreMac(key, a.tool, typed) == e.pre;
      var requested := if flags.expires.Some? then Some(w.observedAt + flags.expires.value) else None;
      var ttlMoves := requested.Some? && requested != e.expiresAt;
      if stateUnchanged && !ttlMoves {
        counts := counts.(same := counts.same + 1);
        return;
      }
      var yes;
      if stateUnchanged {
        yes := flags.all || w.answers.restamp;
      } else {
        if !flags.rebind && flags.all {
          counts := counts.(worldMoved := counts.worldMoved + 1);
          return;
        }
        yes := flags.rebind || w.answers.rebind;
      }
      if !yes {
        counts := counts.(skipped := counts.skipped + 1);
        return;
      }
      BindAgain(step, w, typed, commit);
    }

    /** The end of re-verification: a keystore that cannot be written counts as a failed probe. */
    method BindAgain(step: Step, w: World, typed: Typed, filled: Option<Template>)
      requires step.attest.Some?
      modifies this, step
      ensures var s := old(step.View());
        var v := if w.keystoreWritable then Stamp(flags, s, w, typed, filled) else Keep(s, ProbeUnbindable);
        && step.View() == s.(binding := v.binding, approve := v.approve)
        && counts == old(counts).Add(v.outcome)
    {
      var bound := BindStep(step, w, typed, filled);
      if bound {
        counts := counts.(approved := counts.approved + 1, stateBound := counts.stateBound + 1);
      } else {
        counts := counts.(probeFailed := counts.probeFailed + 1);
      }
    }

    method BindFresh(step: Step, w: World) returns (threw: bool)
      requires Accepted(flags)
      modifies this, step
      ensures var v := FreshBind(flags, vars, old(step.View()), w);
        && step.View() == old(step.View()).(binding := v.binding, approve := v.approve)
        && counts == old(counts).Add(v.outcome)
        && threw == v.outcome.Threw?
    {
      threw := false;
      var view := step.View();
      if EarlyThrow(view, vars, w) { return true; }
      var structural := Structural(view, vars, w);
      if structural && view.Current() && step.binding.None? {
        counts := counts.(same := counts.same + 1);
        return;
      }
      var typed: Typed := map[];
      var filled := None;
      var bindable := false;
      if !structural {
        filled := Fill(step.attest.value.args, Inputs(vars, w.dates));
        if filled.None? { return true; }
        var probe := RunProbe(step.attest.value, vars, w);
        if probe.Observed? && probe.typed != map[] {
          bindable, typed := true, probe.typed;
        }
      }
      if !bindable {
        if flags.all {
          counts := counts.(probeFailed := counts.probeFailed + 1);
          return;
        }
        if view.ProbePlaceholders() != [] {
          counts := counts.(stateBoundChanged := counts.stateBoundChanged + 1);
          return;
        }
        OfferUnbound(step, w);
        return;
      }
      if !(flags.all || w.answers.bindObserved) {
        counts := counts.(skipped := counts.skipped + 1);
        return;
      }
      var bound := BindStep(step, w, typed, if view.ProbePlaceholders() != [] then filled else None);
      if bound {
        counts := counts.(approved := counts.approved + 1, stateBound := counts.stateBound + 1);
        return;
      }
      if view.ProbePlaceholders() != [] {
        counts := counts.(stateBoundChanged := counts.stateBoundChanged + 1);
        return;
      }
      if flags.all {
        counts := counts.(probeFailed := counts.probeFailed + 1);
        return;
      }
      OfferUnbound(step, w);
    }

    /** "Approve WITHOUT state binding?" */
    method OfferUnbound(step: Step, w: World)
      modifies this, step
      ensures var v := if w.answers.withoutBinding then Unbound(old(step.View())) else Keep(old(step.View()), Skipped);
        && step.View() == old(step.View()).(binding := v.binding, approve := v.approve)
        && counts == old(counts).Add(v.outcome)
    {
      if !w.answers.withoutBinding {
        counts := counts.(skipped := counts.skipped + 1);
        return;
      }
      if step.binding.Some? { step.binding := None; }
      step.approve := Some(step.View().Hash());
      counts := counts.(approved := counts.approved + 1);
    }
  }

  // ---- The whole run ----

  datatype RunResult = RunResult(steps: seq<StepView>, counts: Counts, threw: bool)

  function Applied(s: StepView, v: Verdict): StepView { s.(binding := v.binding, approve := v.approve) }

  ghost predicate AllWellFormed(steps: seq<StepView>) {
    forall i :: 0 <= i < |steps| ==> steps[i].WellFormed()
  }

  /** Step by step, left to right; an exception stops the run where it happens. */
  ghost function RunSteps(f: Flags, vars: map<Name, string>, steps: seq<StepView>, ws: seq<World>,
                          n: nat): (r: RunResult)
    requires Accepted(f) && AllWellFormed(steps) && |ws| == |steps| && n <= |steps|
    ensures |r.steps| == |steps|
    ensures forall i :: n <= i < |steps| ==> r.steps[i] == steps[i]
  {
    if n == 0 then RunResult(steps, ZERO, false)
    else
      var r := RunSteps(f, vars, steps, ws, n - 1);
      if r.threw then r
      else
        var v := Ceremony(f, vars, steps[n - 1], ws[n - 1]);
        RunResult(r.steps[n - 1 := Applied(steps[n - 1], v)], r.counts.Add(v.outcome), v.outcome.Threw?)
  }

  ghost function Views(steps: seq<Step>): (vs: seq<StepView>)
    reads steps
    ensures |vs| == |steps| && forall i :: 0 <= i < |steps| ==> vs[i] == steps[i].View()
  {
    seq(|steps|, i requires 0 <= i < |steps| reads steps => steps[i].View())
  }

  /** One step of the list; the others are other objects. */
  method ProcessAt(session: Session, steps: seq<Step>, i: nat, w: World) returns (threw: bool)
    requires Accepted(session.flags) && i < |steps| && Views(steps)[i].WellFormed()
    requires forall j :: 0 <= j < |steps| && j != i ==> steps[j] != steps[i]
    modifies session, steps[i]
    ensures var v := Ceremony(session.flags, session.vars, old(Views(steps))[i], w);
      && Views(steps) == old(Views(steps))[i := Applied(old(Views(steps))[i], v)]
      && session.counts == old(session.counts).Add(v.outcome) && threw == v.outcome.Threw?
  {
    threw := session.ProcessStep(steps[i], w);
    assert forall j :: 0 <= j < |steps| && j != i ==> steps[j].View() == old(steps[j].View());
  }

  /** The state after i steps is the specification's. */
  ghost predicate After(f: Flags, vars: map<Name, string>, steps: seq<StepView>, ws: seq<World>, i: nat,
                        views: seq<StepView>, counts: Counts, threw: bool)
    requires Accepted(f) && AllWellFormed(steps) && |ws| == |steps| && i <= |steps|
  {
    RunSteps(f, vars, steps, ws, i) == RunResult(views, counts, threw)
  }

  lemma NextStep(f: Flags, vars: map<Name, string>, steps: seq<StepView>, ws: seq<World>, i: nat,
                 views: seq<StepView>, counts: Counts)
    requires Accepted(f) && AllWellFormed(steps) && |ws| == |steps| && i < |steps|
    requires After(f, vars, steps, ws, i, views, counts, false)
    ensures |views| == |steps| && views[i] == steps[i] && views[i].WellFormed()
    ensures var v := Ceremony(f, vars, steps[i], ws[i]);
      After(f, vars, steps, ws, i + 1, views[i := Applied(steps[i], v)], counts.Add(v.outcome), v.outcome.Threw?)
  {
  }

  method ApproveSteps(session: Session, steps: seq<Step>, ws: seq<World>) returns (threw: bool)
    requires Accepted(session.flags) && session.counts == ZERO && |ws| == |steps|
    requires AllWellFormed(Views(steps))
    requires forall i, j :: 0 <= i < j < |steps| ==> steps[i] != steps[j]
    modifies session, steps
    ensures RunResult(Views(steps), session.counts, threw)
         == RunSteps(session.flags, session.vars, old(Views(steps)), ws, |steps|)
  {
    var i;
    threw, i := ApproveUntil(session, steps, ws);
    RestIsSkipped(session.flags, session.vars, old(Views(steps)), ws, i,
                  RunResult(Views(steps), session.counts, threw));
  }

  /** The loop, and where it stopped. */
  method ApproveUntil(session: Session, steps: seq<Step>, ws: seq<World>) returns (threw: bool, i: nat)
    requires Accepted(session.flags) && session.counts == ZERO && |ws| == |steps|
    requires AllWellFormed(Views(steps))
    requires forall i, j :: 0 <= i < j < |steps| ==> steps[i] != steps[j]
    modifies session, steps
    ensures i <= |steps| && (threw || i == |steps|) &&
      After(session.flags, session.vars, old(Views(steps)), ws, i, Views(steps), session.counts, threw)
  {
    threw, i := false, 0;
    while i < |steps| && !threw
      invariant 0 <= i <= |steps|
      invariant After(session.flags, session.vars, old(Views(steps)), ws, i, Views(steps), session.counts, threw)
    {
      NextStep(session.flags, session.vars, old(Views(steps)), ws, i, Views(steps), session.counts);
      assert forall j :: 0 <= j < |steps| && j != i ==> steps[j] != steps[i];
      threw := ProcessAt(session, steps, i, ws[i]);
      i := i + 1;
    }
  }

  lemma RestIsSkipped(f: Flags, vars: map<Name, string>, steps: seq<StepView>, ws: seq<World>, i: nat, r: RunResult)
    requires Accepted(f) && AllWellFormed(steps) && |ws| == |steps| && i <= |steps|
    requires r == RunSteps(f, vars, steps, ws, i) && (r.threw || i == |steps|)
    ensures r == RunSteps(f, vars, steps, ws, |steps|)
  {
    if r.threw { StoppedRun(f, vars, steps, ws, i, |steps|); }
  }

  lemma StaysStopped(f: Flags, vars: map<Name, string>, steps: seq<StepView>, ws: seq<World>, n: nat, r: RunResult)
    requires Accepted(f) && AllWellFormed(steps) && |ws| == |steps| && n < |steps|
    requires r == RunSteps(f, vars, steps, ws, n) && r.threw
    ensures RunSteps(f, vars, steps, ws, n + 1) == r
  {
  }

  lemma {:induction false} StoppedRun(f: Flags, vars: map<Name, string>, steps: seq<StepView>, ws: seq<World>, i: nat,
                                      n: nat)
    requires Accepted(f) && AllWellFormed(steps) && |ws| == |steps| && i <= n <= |steps|
    requires RunSteps(f, vars, steps, ws, i).threw
    ensures RunSteps(f, vars, steps, ws, n) == RunSteps(f, vars, steps, ws, i)
  {
    if i < n {
      StoppedRun(f, vars, steps, ws, i, n - 1);
      StaysStopped(f, vars, steps, ws, n - 1, RunSteps(f, vars, steps, ws, i));
    }
  }
}
