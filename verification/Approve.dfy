/** The approval ceremony: `reelier approve` walks the write steps of a skill and
    changes each step's `approve` and `expect` (here `binding`) in place.  Hashes and MACs are
    symbolic: a digest is the tuple of the fields it binds, so it is injective by
    construction (Commitments.dfy proves that of the printed inputs). */
module Approve {
  import opened Wrappers

  // ---- Templates: probe and action arguments with `{{name}}` holes ----

  type Name = string

  /** A string leaf is cut at its holes; `Malformed` is a `{{today+3}}`-style typo,
      which collects as no placeholder but makes the fill throw. */
  datatype Piece = Text(text: string) | Hole(name: Name) | Malformed(body: string)

  datatype Template = Scalar(text: string) | Str(pieces: seq<Piece>) | Node(children: seq<Template>)

  function PiecesPlaceholders(pieces: seq<Piece>): seq<Name> {
    if pieces == [] then []
    else (if pieces[0].Hole? then [pieces[0].name] else []) + PiecesPlaceholders(pieces[1..])
  }

  /** Hole names of the string leaves, left to right. */
  function Placeholders(t: Template): seq<Name>
    decreases t, 1
  {
    match t
    case Scalar(_) => []
    case Str(pieces) => PiecesPlaceholders(pieces)
    case Node(children) => ChildrenPlaceholders(children)
  }

  function ChildrenPlaceholders(ts: seq<Template>): seq<Name>
    decreases ts, 0
  {
    if ts == [] then [] else Placeholders(ts[0]) + ChildrenPlaceholders(ts[1..])
  }

  /** `today`, `today+Nd`, `today-Nd`. */
  predicate IsComputedDate(n: Name) {
    n == "today" ||
    (|n| >= 8 && (n[..6] == "today+" || n[..6] == "today-") && n[|n| - 1] == 'd'
     && forall i :: 6 <= i < |n| - 1 ==> '0' <= n[i] <= '9')
  }

  /** What the operator supplied, and the computed dates that are in range at one instant. */
  datatype Inputs = Inputs(vars: map<Name, string>, dates: map<Name, string>)

  /** What every JavaScript object inherits: a name found there counts as supplied. */
  predicate Inherited(n: Name) {
    n in {"constructor", "toString", "toLocaleString", "valueOf", "hasOwnProperty", "isPrototypeOf",
          "propertyIsEnumerable",
          "__defineGetter__", "__defineSetter__", "__lookupGetter__", "__lookupSetter__"}
  }

  const PROTO := "__proto__"

  /** The value of `vars[n]` as the fill prints it; an inherited function prints as `undefined`, the prototype
      itself, which no `--var` can replace, as `{}`. */
  function VarText(n: Name, vars: map<Name, string>): Option<string> {
    if n == PROTO then Some("{}")
    else if n in vars then Some(vars[n])
    else if Inherited(n) then Some("undefined") else None
  }

  function DateText(n: Name, dates: map<Name, string>): Option<string> { if n in dates then Some(dates[n]) else None }

  function FillPieces(pieces: seq<Piece>, b: Inputs): Option<seq<Piece>> {
    if pieces == [] then Some([])
    else
      var head := match pieces[0]
        case Text(t) => Some(Text(t))
        case Malformed(_) => None
        case Hole(n) =>
          var text := if IsComputedDate(n) then DateText(n, b.dates) else VarText(n, b.vars);
          if text.Some? then Some(Text(text.value)) else None;
      match (head, FillPieces(pieces[1..], b))
      case (Some(h), Some(rest)) => Some([h] + rest)
      case _ => None
  }

  /** The runner's fill: `None` where the original throws. */
  function Fill(t: Template, b: Inputs): Option<Template>
    decreases t, 1
  {
    match t
    case Scalar(_) => Some(t)
    case Str(pieces) => (match FillPieces(pieces, b) case Some(p) => Some(Str(p)) case None => None)
    case Node(children) => (match FillAll(children, b) case Some(c) => Some(Node(c)) case None => None)
  }

  function FillAll(ts: seq<Template>, b: Inputs): Option<seq<Template>>
    decreases ts, 0
  {
    if ts == [] then Some([])
    else match (Fill(ts[0], b), FillAll(ts[1..], b))
      case (Some(h), Some(rest)) => Some([h] + rest)
      case _ => None
  }

  /** A name that is no computed date, no `--var` supplies and no object inherits. */
  predicate IsMissing(n: Name, vars: map<Name, string>) { !IsComputedDate(n) && VarText(n, vars).None? }

  /** Some probe placeholder cannot be filled from this invocation. */
  predicate AnyMissing(t: Template, vars: map<Name, string>) {
    exists n :: n in Placeholders(t) && IsMissing(n, vars)
  }

  /** A name the fill has no text for. */
  predicate Unfillable(n: Name, b: Inputs) { IsMissing(n, b.vars) || (IsComputedDate(n) && n !in b.dates) }

  predicate AnyMalformed(t: Template)
    decreases t
  {
    match t
    case Scalar(_) => false
    case Str(pieces) => exists i :: 0 <= i < |pieces| && pieces[i].Malformed?
    case Node(children) => exists i :: 0 <= i < |children| && AnyMalformed(children[i])
  }

  lemma {:induction false} FillPiecesExactly(pieces: seq<Piece>, b: Inputs)
    ensures FillPieces(pieces, b).None? <==>
      (exists i :: 0 <= i < |pieces| && pieces[i].Malformed?) ||
        exists n :: n in PiecesPlaceholders(pieces) && Unfillable(n, b)
  {
    if pieces != [] {
      FillPiecesExactly(pieces[1..], b);
      assert forall i :: 0 < i < |pieces| ==> pieces[i] == pieces[1..][i - 1];
      assert forall i :: 0 <= i < |pieces| - 1 ==> pieces[1..][i] == pieces[i + 1];
      if pieces[0].Hole? { assert pieces[0].name in PiecesPlaceholders(pieces); }
    }
  }

  /** The fill throws if and only if the template holds, however deep, a malformed hole or a placeholder
      without a text. */
  lemma {:induction false} FillExactly(t: Template, b: Inputs)
    ensures Fill(t, b).None? <==> AnyMalformed(t) || exists n :: n in Placeholders(t) && Unfillable(n, b)
    decreases t, 1
  {
    match t
    case Scalar(_) =>
    case Str(pieces) => FillPiecesExactly(pieces, b);
    case Node(children) => FillAllExactly(children, b);
  }

  lemma {:induction false} FillAllExactly(ts: seq<Template>, b: Inputs)
    ensures FillAll(ts, b).None? <==>
      (exists i :: 0 <= i < |ts| && AnyMalformed(ts[i])) ||
        exists n :: n in ChildrenPlaceholders(ts) && Unfillable(n, b)
    decreases ts, 0
  {
    if ts != [] {
      FillExactly(ts[0], b);
      FillAllExactly(ts[1..], b);
      assert forall i :: 0 < i < |ts| ==> ts[i] == ts[1..][i - 1];
      assert forall i :: 0 <= i < |ts| - 1 ==> ts[1..][i] == ts[i + 1];
    }
  }

  /** So a probe with a missing placeholder is never dispatched. */
  lemma MissingFillFails(t: Template, b: Inputs, n: Name)
    requires n in Placeholders(t) && IsMissing(n, b.vars)
    ensures Fill(t, b) == None
  {
    FillExactly(t, b);
    assert Unfillable(n, b);
  }

  /** But `{{toString}}` fills with no `--var` at all. */
  lemma InheritedNeedsNoVar(b: Inputs)
    requires b.vars == map[]
    ensures var t := Str([Hole("toString")]); !AnyMissing(t, b.vars) && Fill(t, b) == Some(Str([Text("undefined")]))
  {
    var pieces := [Hole("toString")];
    assert pieces[1..] == [] && PiecesPlaceholders(pieces) == ["toString"] + [] == ["toString"];
    assert !IsComputedDate("toString") by { assert "toString"[..6][2] == 'S' && "today+"[2] == 'd' == "today-"[2]; }
    assert FillPieces(pieces[1..], b) == Some([]);
    assert [Text("undefined")] + [] == [Text("undefined")];
    assert FillPieces(pieces, b) == Some([Text("undefined")]);
  }

  lemma {:induction false} LiteralPieces(pieces: seq<Piece>, b: Inputs)
    requires PiecesPlaceholders(pieces) == [] && FillPieces(pieces, b).Some?
    ensures FillPieces(pieces, b) == Some(pieces)
  {
    if pieces != [] {
      assert pieces == [pieces[0]] + pieces[1..];
      LiteralPieces(pieces[1..], b);
    }
  }

  /** A template without placeholders is sent as it stands. */
  lemma {:induction false} LiteralFill(t: Template, b: Inputs)
    requires Placeholders(t) == [] && Fill(t, b).Some?
    ensures Fill(t, b) == Some(t)
    decreases t, 1
  {
    match t
    case Scalar(_) =>
    case Str(pieces) => LiteralPieces(pieces, b);
    case Node(children) => LiteralFillAll(children, b);
  }

  lemma {:induction false} LiteralFillAll(ts: seq<Template>, b: Inputs)
    requires ChildrenPlaceholders(ts) == [] && FillAll(ts, b).Some?
    ensures FillAll(ts, b) == Some(ts)
    decreases ts, 0
  {
    if ts != [] {
      assert ts == [ts[0]] + ts[1..] && Placeholders(ts[0]) + ChildrenPlaceholders(ts[1..]) == [];
      LiteralFill(ts[0], b);
      LiteralFillAll(ts[1..], b);
    }
  }

  predicate SameText(n: Name, d: map<Name, string>, e: map<Name, string>) { n in d && n in e && d[n] == e[n] }

  lemma {:induction false} PiecesTwice(pieces: seq<Piece>, vars: map<Name, string>, d: map<Name, string>,
                                       e: map<Name, string>)
    requires FillPieces(pieces, Inputs(vars, d)).Some? && FillPieces(pieces, Inputs(vars, e)).Some?
    ensures FillPieces(pieces, Inputs(vars, d)) == FillPieces(pieces, Inputs(vars, e)) <==>
      forall n :: n in PiecesPlaceholders(pieces) && IsComputedDate(n) ==> SameText(n, d, e)
  {
    if pieces != [] {
      PiecesTwice(pieces[1..], vars, d, e);
      var p, q := FillPieces(pieces, Inputs(vars, d)).value, FillPieces(pieces, Inputs(vars, e)).value;
      assert p == [p[0]] + p[1..] && q == [q[0]] + q[1..];
      if pieces[0].Hole? { assert pieces[0].name in PiecesPlaceholders(pieces); }
    }
  }

  /** Filled twice from the same variables, a template comes out the same exactly if each of its computed
      dates does. */
  lemma {:induction false} FilledTwice(t: Template, vars: map<Name, string>, d: map<Name, string>, e: map<Name, string>)
    requires Fill(t, Inputs(vars, d)).Some? && Fill(t, Inputs(vars, e)).Some?
    ensures Fill(t, Inputs(vars, d)) == Fill(t, Inputs(vars, e)) <==>
      forall n :: n in Placeholders(t) && IsComputedDate(n) ==> SameText(n, d, e)
    decreases t, 1
  {
    match t
    case Scalar(_) =>
    case Str(pieces) => PiecesTwice(pieces, vars, d, e);
    case Node(children) => AllTwice(children, vars, d, e);
  }

  lemma {:induction false} AllTwice(ts: seq<Template>, vars: map<Name, string>, d: map<Name, string>,
                                    e: map<Name, string>)
    requires FillAll(ts, Inputs(vars, d)).Some? && FillAll(ts, Inputs(vars, e)).Some?
    ensures FillAll(ts, Inputs(vars, d)) == FillAll(ts, Inputs(vars, e)) <==>
      forall n :: n in ChildrenPlaceholders(ts) && IsComputedDate(n) ==> SameText(n, d, e)
    decreases ts, 0
  {
    if ts != [] {
      FilledTwice(ts[0], vars, d, e);
      AllTwice(ts[1..], vars, d, e);
      var p, q := FillAll(ts, Inputs(vars, d)).value, FillAll(ts, Inputs(vars, e)).value;
      assert p == [p[0]] + p[1..] && q == [q[0]] + q[1..];
    }
  }

  // ---- Commitments, symbolically ----

  type Instant = int
  datatype Key = Key(bits: nat)
  datatype KeyId = KeyIdOf(key: Key)
  type Typed = map<string, string>

  datatype Mac =
    | PreMac(key: Key, probe: string, projection: Typed)
    | FieldMac(key: Key, probe: string, field: string, value: string)
    | ArgsMac(key: Key, probe: string, args: Template)

  datatype Attest = Attest(tool: string, args: Template, projection: Option<seq<string>>, defer: Option<string>)

  datatype Binding = Binding(at: Instant, keyId: KeyId, pre: Mac, expiresAt: Option<Instant>,
                           fields: map<string, Mac>, probeArgs: Option<Mac>)

  datatype Digest = Digest(tool: string, args: Template, attest: Option<Attest>,
                           binding: Option<Binding>, emit: Option<seq<string>>)

  const STATUS_CODE_ENTRY := "status.code"

  // ---- One run's inputs ----

  datatype Flags = Flags(all: bool, probe: bool, rebind: bool, dropExpect: bool, expires: Option<nat>)

  /** `--probe` with `--drop-expect`, and `--expires` without `--probe`, are refused
      before any step is looked at. */
  predicate Accepted(f: Flags) {
    !(f.probe && f.dropExpect) && (f.expires.Some? ==> f.probe)
  }

  datatype KeyLookup = StoreUnreadable | KeyAbsent | KeyFound(key: Key)
  datatype Probe = ProbeFailed | Observed(typed: Typed)

  /** The operator's answer to each question the ceremony can ask about one step. */
  datatype Answers = Answers(approve: bool, restamp: bool, rebind: bool, bindObserved: bool, withoutBinding: bool)

  /** Everything one loop iteration learns from outside. */
  datatype World = World(
    lookup: KeyLookup,
    probe: Probe,
    dates: map<Name, string>,       // when the probe args are resolved
    probeDates: map<Name, string>,  // when the probe is dispatched
    observedAt: Instant,
    freshKey: Key,
    keystoreWritable: bool,
    wrappedTool: bool,              // the probe tool is served over MCP in this invocation
    answers: Answers)

  /** The step as a value. */
  datatype StepView = StepView(tool: string, args: Template, attest: Option<Attest>, emit: Option<seq<string>>,
                               binding: Option<Binding>, approve: Option<Digest>)
  {
    /** The skill parser refuses `expect:` without `attest:`. */
    predicate WellFormed() { binding.Some? ==> attest.Some? }

    function Hash(): Digest { Digest(tool, args, attest, binding, emit) }

    predicate Current() { approve == Some(Hash()) }

    function ProbePlaceholders(): seq<Name> {
      if attest.Some? then Placeholders(attest.value.args) else []
    }
  }

  datatype Outcome =
    | Approved(bound: bool) | Skipped | Unchanged
    | ProbeUnbindable | WorldMoved | StateBoundChanged | ReVerifyUnavailable
    | Threw

  /** Two binding-relevant step fields and the branch taken. */
  datatype Verdict = Verdict(outcome: Outcome, binding: Option<Binding>, approve: Option<Digest>)

  // ---- Specification: what one step's ceremony decides ----

  function Keep(s: StepView, o: Outcome): Verdict { Verdict(o, s.binding, s.approve) }

  function ResolvedExpiry(s: StepView, observedAt: Instant, expires: Option<nat>): Option<Instant> {
    if expires.Some? then Some(observedAt + expires.value)
    else if s.binding.Some? then s.binding.value.expiresAt else None
  }

  function Bind(f: Flags, s: StepView, w: World, typed: Typed, filled: Option<Template>): Binding
    requires s.attest.Some?
  {
    var probe := s.attest.value.tool;
    Binding(w.observedAt, KeyIdOf(w.freshKey), PreMac(w.freshKey, probe, typed),
           ResolvedExpiry(s, w.observedAt, f.expires),
           map name | name in typed :: FieldMac(w.freshKey, probe, name, typed[name]),
           if filled.Some? then Some(ArgsMac(w.freshKey, probe, filled.value)) else None)
  }

  /** Bound: the new commitment, and the hash of the fields it completes. */
  function Stamp(f: Flags, s: StepView, w: World, typed: Typed, filled: Option<Template>): Verdict
    requires s.attest.Some?
  {
    var e := Some(Bind(f, s, w, typed, filled));
    Verdict(Approved(true), e, Some(s.(binding := e).Hash()))
  }

  /** Shape-only approval: the binding, if any, is given up. */
  function Unbound(s: StepView): Verdict {
    Verdict(Approved(false), None, Some(s.(binding := None).Hash()))
  }

  function RunProbe(a: Attest, vars: map<Name, string>, w: World): Probe {
    if Fill(a.args, Inputs(vars, w.probeDates)).None? then ProbeFailed else w.probe
  }

  predicate StatusCodeOverMcp(s: StepView, w: World) {
    s.attest.Some? && s.attest.value.projection.Some? &&
    STATUS_CODE_ENTRY in s.attest.value.projection.value && w.wrappedTool
  }

  /** Unbindable from the file and the `--var` values alone. */
  predicate Structural(s: StepView, vars: map<Name, string>, w: World) {
    s.attest.None?
    || (exists n :: n in s.ProbePlaceholders() && IsComputedDate(n))
    || AnyMissing(s.attest.value.args, vars)
    || Placeholders(s.args) != []
    || s.attest.value.projection.None?
    || StatusCodeOverMcp(s, w)
  }

  /** Looking for missing `--var` names already fills the template, so a malformed
      hole throws before the later structural reasons are reached. */
  predicate EarlyThrow(s: StepView, vars: map<Name, string>, w: World) {
    s.attest.Some? && s.ProbePlaceholders() != [] &&
    (forall n :: n in s.ProbePlaceholders() ==> !IsComputedDate(n)) &&
    !AnyMissing(s.attest.value.args, vars) &&
    Fill(s.attest.value.args, Inputs(vars, w.dates)).None?
  }

  /** The offer made after a bind turned out impossible. */
  function Degrade(f: Flags, s: StepView, w: World, refuseParameterizedFirst: bool): Verdict {
    if refuseParameterizedFirst && s.ProbePlaceholders() != [] then Keep(s, StateBoundChanged)
    else if f.all then Keep(s, ProbeUnbindable)
    else if s.ProbePlaceholders() != [] then Keep(s, StateBoundChanged)
    else if w.answers.withoutBinding then Unbound(s)
    else Keep(s, Skipped)
  }

  function Plain(f: Flags, s: StepView, w: World): Verdict {
    var dropping := f.dropExpect && s.binding.Some?;
    if dropping && s.ProbePlaceholders() != [] then Keep(s, StateBoundChanged)
    else if !dropping && s.binding.Some? && !s.Current() then Keep(s, StateBoundChanged)
    else if !dropping && s.Current() then Keep(s, Unchanged)
    else if f.all || w.answers.approve then Unbound(s)
    else Keep(s, Skipped)
  }

  function FreshBind(f: Flags, vars: map<Name, string>, s: StepView, w: World): Verdict {
    if EarlyThrow(s, vars, w) then Keep(s, Threw)
    else if Structural(s, vars, w) then
      if s.Current() && s.binding.None? then Keep(s, Unchanged) else Degrade(f, s, w, false)
    else
      var a := s.attest.value;
      var filled := Fill(a.args, Inputs(vars, w.dates));
      if filled.None? then Keep(s, Threw)
      else
        match RunProbe(a, vars, w)
        case ProbeFailed => Degrade(f, s, w, false)
        case Observed(typed) =>
          if typed == map[] then Degrade(f, s, w, false)
          else if !f.all && !w.answers.bindObserved then Keep(s, Skipped)
          else if !w.keystoreWritable then Degrade(f, s, w, true)
          else Stamp(f, s, w, typed, if s.ProbePlaceholders() != [] then filled else None)
  }

  /** The world against the commitment, once the probe args are settled. */
  function CompareState(f: Flags, vars: map<Name, string>, s: StepView, w: World, filled: Option<Template>,
                        argsDiffer: bool): Verdict
    requires s.attest.Some? && s.binding.Some? && w.lookup.KeyFound?
  {
    var a, e := s.attest.value, s.binding.value;
    match RunProbe(a, vars, w)
    case ProbeFailed => Keep(s, ReVerifyUnavailable)
    case Observed(typed) =>
      if typed == map[] then Keep(s, ReVerifyUnavailable)
      else
        var committed := if s.ProbePlaceholders() != [] then filled else None;
        var unmoved := !argsDiffer && PreMac(w.lookup.key, a.tool, typed) == e.pre;
        var ttlMoves := f.expires.Some? && Some(w.observedAt + f.expires.value) != e.expiresAt;
        if unmoved && !ttlMoves then Keep(s, Unchanged)
        else if !unmoved && f.all && !f.rebind then Keep(s, WorldMoved)
        else
          var consent := if unmoved then f.all || w.answers.restamp else f.rebind || w.answers.rebind;
          if !consent then Keep(s, Skipped)
          else if !w.keystoreWritable then Keep(s, ProbeUnbindable)
          else Stamp(f, s, w, typed, committed)
  }

  function ReVerify(f: Flags, vars: map<Name, string>, s: StepView, w: World): Verdict
    requires s.attest.Some? && s.binding.Some?
  {
    var a, e := s.attest.value, s.binding.value;
    if StatusCodeOverMcp(s, w) || !w.lookup.KeyFound? then Keep(s, ReVerifyUnavailable)
    else
      var missing := AnyMissing(a.args, vars);
      var filled := if missing then None else Fill(a.args, Inputs(vars, w.dates));
      if !missing && filled.None? then Keep(s, Threw)
      else
        var argsDiffer := e.probeArgs.Some? &&
          (missing || ArgsMac(w.lookup.key, a.tool, filled.value) != e.probeArgs.value);
        if argsDiffer && (missing || !f.rebind) then Keep(s, ReVerifyUnavailable)
        else CompareState(f, vars, s, w, filled, argsDiffer)
  }

  function Ceremony(f: Flags, vars: map<Name, string>, s: StepView, w: World): Verdict
    requires Accepted(f) && s.WellFormed()
  {
    if !f.probe then Plain(f, s, w)
    else if s.Current() && s.binding.Some? then ReVerify(f, vars, s, w)
    else FreshBind(f, vars, s, w)
  }
}
