/** The policy file: strict validation, the run-path and wrap-path loaders, and the evaluation
    of deny and dry-run rules. */
module Policy {
  import opened Wrappers
  import opened PolicyText
  import opened Sequences

  // ---- Validation ----

  datatype DenyRule = DenyRule(tool: Option<string>, endpoint: Option<string>, unless: Option<string>)

  datatype Policy = Policy(deny: seq<DenyRule>, dryRun: seq<string>, stateGate: bool)

  const EMPTY := Policy([], [], false)

  /** What the runtime decides: whether a text is the number 1. */
  type IsOne = string -> bool

  const ALLOW_WRITES := "--allow-writes"

  function Field(item: Item, key: string): Option<string> { if key in item then Some(item[key]) else None }

  function NonEmpty(s: Option<string>): Option<string> { if s == Some("") then None else s }

  predicate GoodGlob(s: Option<string>) { s.Some? ==> !Blank(s.value) }

  predicate ValidDeny(item: Item) {
    && (forall k :: k in item ==> k in {"tool", "endpoint", "unless"})
    && (NonEmpty(Field(item, "tool")).Some? || NonEmpty(Field(item, "endpoint")).Some?)
    && GoodGlob(Field(item, "tool")) && GoodGlob(Field(item, "endpoint"))
    && (Field(item, "unless").Some? ==> Field(item, "unless").value == ALLOW_WRITES)
  }

  function DenyOf(item: Item): DenyRule {
    DenyRule(NonEmpty(Field(item, "tool")), NonEmpty(Field(item, "endpoint")), NonEmpty(Field(item, "unless")))
  }

  predicate ValidDryRun(item: Item) {
    (forall k :: k in item ==> k == "tool") && NonEmpty(Field(item, "tool")).Some? && GoodGlob(Field(item, "tool"))
  }

  function ListOf(raw: map<string, Node>, key: string): seq<Item> {
    if key in raw && raw[key].Items? then raw[key].items else []
  }

  predicate ValidObject(isOne: IsOne, raw: map<string, Node>) {
    && (forall k :: k in raw ==> k in {"version", "deny", "dry_run", GATE})
    && ("version" in raw ==> raw["version"].Scalar? && isOne(raw["version"].text))
    && (GATE in raw ==> raw[GATE] == Scalar("refuse"))
    && ("deny" in raw ==> raw["deny"].Items?) && ("dry_run" in raw ==> raw["dry_run"].Items?)
    && (forall i :: 0 <= i < |ListOf(raw, "deny")| ==> ValidDeny(ListOf(raw, "deny")[i]))
    && (forall i :: 0 <= i < |ListOf(raw, "dry_run")| ==> ValidDryRun(ListOf(raw, "dry_run")[i]))
  }

  function ToolOf(item: Item): string { if "tool" in item then item["tool"] else "" }

  function PolicyOf(raw: map<string, Node>): Policy {
    var deny, dryRun := ListOf(raw, "deny"), ListOf(raw, "dry_run");
    Policy(seq(|deny|, i requires 0 <= i < |deny| => DenyOf(deny[i])),
           seq(|dryRun|, i requires 0 <= i < |dryRun| => ToolOf(dryRun[i])),
           GATE in raw)
  }

  /** A rule asks for exactly what its item says; an empty text asks for nothing. */
  lemma RuleAsWritten(raw: map<string, Node>, i: nat, text: string)
    requires "deny" in raw && raw["deny"].Items? && i < |raw["deny"].items|
    ensures var item, rule := raw["deny"].items[i], PolicyOf(raw).deny[i];
      && (rule.tool == Some(text) <==> text != "" && "tool" in item && item["tool"] == text)
      && (rule.endpoint == Some(text) <==> text != "" && "endpoint" in item && item["endpoint"] == text)
      && (rule.unless == Some(text) <==> text != "" && "unless" in item && item["unless"] == text)
  {
  }

  /** None when there is any error. */
  method ValidatePolicyObject(isOne: IsOne, raw: map<string, Node>) returns (r: Option<Policy>)
    ensures r == if ValidObject(isOne, raw) then Some(PolicyOf(raw)) else None
  {
    var known := {"version", "deny", "dry_run", GATE};
    var errors := !(raw.Keys <= known);
    errors := errors || ("version" in raw && !(raw["version"].Scalar? && isOne(raw["version"].text)));
    errors := errors || (GATE in raw && raw[GATE] != Scalar("refuse"));
    errors := errors || ("deny" in raw && !raw["deny"].Items?) || ("dry_run" in raw && !raw["dry_run"].Items?);
    var deny, denyErrors := DenyRules(ListOf(raw, "deny"));
    var dryRun, dryErrors := DryRunRules(ListOf(raw, "dry_run"));
    if errors || denyErrors || dryErrors { return None; }
    r := Some(Policy(deny, dryRun, GATE in raw));
  }

  method DenyRules(items: seq<Item>) returns (deny: seq<DenyRule>, errors: bool)
    ensures deny == seq(|items|, i requires 0 <= i < |items| => DenyOf(items[i]))
    ensures errors <==> exists i :: 0 <= i < |items| && !ValidDeny(items[i])
  {
    deny, errors := [], false;
    for i := 0 to |items|
      invariant |deny| == i && forall j :: 0 <= j < i ==> deny[j] == DenyOf(items[j])
      invariant errors <==> exists j :: 0 <= j < i && !ValidDeny(items[j])
    {
      if !ValidDeny(items[i]) { errors := true; }
      deny := deny + [DenyOf(items[i])];
    }
  }

  method DryRunRules(items: seq<Item>) returns (dryRun: seq<string>, errors: bool)
    ensures !errors ==> dryRun == seq(|items|, i requires 0 <= i < |items| => ToolOf(items[i]))
    ensures errors <==> exists i :: 0 <= i < |items| && !ValidDryRun(items[i])
  {
    dryRun, errors := [], false;
    for i := 0 to |items|
      invariant !errors ==> |dryRun| == i && forall j :: 0 <= j < i ==> dryRun[j] == ToolOf(items[j])
      invariant errors <==> exists j :: 0 <= j < i && !ValidDryRun(items[j])
    {
      if ValidDryRun(items[i]) { dryRun := dryRun + [items[i]["tool"]]; } else { errors := true; }
    }
  }

  function ParsePolicyStrict(isOne: IsOne, source: string): Option<Policy> {
    var raw := Parsed(source);
    if raw.None? || !ValidObject(isOne, raw.value) then None else Some(PolicyOf(raw.value))
  }

  predicate KnownKey(key: string) { key in {"version", "deny", "dry_run", GATE} }

  /** In a text that parses, every defined key is known exactly if every key at the margin is known or
      `__proto__`: that one key slips through where any other unknown one is an error. */
  lemma KnownKeysExactly(source: string)
    requires Parsed(source).Some?
    ensures (forall key :: key in Parsed(source).value ==> KnownKey(key)) <==>
      forall key :: HasTopKey(Lines(StripBom(source)), key) ==> KnownKey(key) || key == PROTO
  {
    ParsedKeys(source);
  }

  /** So in every text that is accepted strictly, each line at the margin has a key, known or `__proto__`. */
  lemma AcceptedKeys(isOne: IsOne, source: string, i: nat)
    requires ParsePolicyStrict(isOne, source).Some? && i < |Lines(StripBom(source))|
    requires AtTop(Uncommented(Lines(StripBom(source))[i]))
    ensures var key := TopKey(Lines(StripBom(source))[i]); key.Some? && (KnownKey(key.value) || key.value == PROTO)
  {
    ParsedKeys(source);
    var ls := Lines(StripBom(source));
    assert Margined(ls[i]);
    assert HasTopKey(ls, TopKey(ls[i]).value);
  }

  /** And the text `__proto__: x` is. */
  lemma ProtoIsAccepted(isOne: IsOne, text: string)
    requires text == PROTO + ": x"
    ensures HasTopKey(Lines(StripBom(text)), PROTO) && ParsePolicyStrict(isOne, text) == Some(EMPTY)
  {
    ProtoText(text);
    assert Lines(StripBom(text))[0] == text;
    assert PolicyOf(map[]) == EMPTY;
  }

  /** In every text that parses strictly, the gate is on exactly when the separate detector
      sees the key: a key that is seen is never resolved to off. */
  lemma GateAgrees(isOne: IsOne, source: string)
    requires ParsePolicyStrict(isOne, source).Some?
    ensures Detected(source) <==> ParsePolicyStrict(isOne, source).value.stateGate
  {
    ParsedHasGate(source);
  }

  // ---- The two loaders ----

  /** What reading a candidate gives; the digest is of the bytes the text was decoded from. */
  datatype FileRead = Missing | Unreadable | Content(digest: string, source: string)

  datatype Which = Project | Global

  datatype Status = Verified | Failed | Unchecked | NoPolicy

  datatype Claim = Claim(status: Status, digest: Option<string>, source: Option<Which>)

  datatype Mode = Off | Refuse | RefuseRun

  datatype Resolution = Resolution(mode: Mode, warning: bool, claim: Claim)

  datatype Load = Load(ok: bool, policy: Policy, which: Option<Which>, digest: Option<string>, unreadable: bool)

  /** The first candidate that exists decides. */
  function Deciding(project: FileRead, global: FileRead): Option<(FileRead, Which)> {
    if !project.Missing? then Some((project, Project)) else if !global.Missing? then Some((global, Global)) else None
  }

  method ResolveStateGateForRun(isOne: IsOne, project: FileRead, global: FileRead) returns (r: Resolution)
    ensures r == RunResolution(isOne, project, global)
  {
    var candidates := [(project, Project), (global, Global)];
    for i := 0 to 2
      invariant forall j :: 0 <= j < i ==> candidates[j].0.Missing?
    {
      var (file, which) := candidates[i];
      assert i == 1 ==> candidates[0].0.Missing?;
      assert (file, which) == if i == 0 then (project, Project) else (global, Global);
      if file.Missing? { continue; }
      if file.Unreadable? { return Resolution(Off, true, Claim(Unchecked, None, Some(which))); }
      var verified := Claim(Verified, Some(file.digest), Some(which));
      var failed := Claim(Failed, Some(file.digest), Some(which));
      var validation := ParsePolicyStrict(isOne, file.source);
      if Detected(file.source) {
        if validation.None? { return Resolution(RefuseRun, false, failed); }
        if validation.value.stateGate { return Resolution(Refuse, false, verified); }
        return Resolution(Off, false, verified);
      }
      if validation.None? { return Resolution(Off, true, failed); }
      GateAgrees(isOne, file.source);
      return Resolution(Off, false, verified);
    }
    assert candidates[0].0.Missing? && candidates[1].0.Missing?;
    return Resolution(Off, false, Claim(NoPolicy, None, None));
  }

  /** What the run path should do, without its branches: refuse iff the deciding file opts in,
      refuse the run iff it names the key and is malformed. */
  function RunResolution(isOne: IsOne, project: FileRead, global: FileRead): Resolution {
    var d := Deciding(project, global);
    if d.None? then Resolution(Off, false, Claim(NoPolicy, None, None))
    else
      var (file, which) := d.value;
      if file.Unreadable? then Resolution(Off, true, Claim(Unchecked, None, Some(which)))
      else
        var policy := ParsePolicyStrict(isOne, file.source);
        var claim := Claim(if policy.Some? then Verified else Failed, Some(file.digest), Some(which));
        if policy.Some? then
          GateAgrees(isOne, file.source);
          Resolution(if policy.value.stateGate then Refuse else Off, false, claim)
        else if Detected(file.source) then Resolution(RefuseRun, false, claim)
        else Resolution(Off, true, claim)
  }

  method LoadPolicyForWrap(isOne: IsOne, project: FileRead, global: FileRead) returns (r: Load)
    ensures r == WrapLoad(isOne, project, global)
  {
    var candidates := [(project, Project), (global, Global)];
    for i := 0 to 2
      invariant forall j :: 0 <= j < i ==> candidates[j].0.Missing?
    {
      var (file, which) := candidates[i];
      assert i == 1 ==> candidates[0].0.Missing?;
      assert (file, which) == if i == 0 then (project, Project) else (global, Global);
      if file.Missing? { continue; }
      if file.Unreadable? { return Load(false, EMPTY, Some(which), None, true); }
      var validation := ParsePolicyStrict(isOne, file.source);
      if validation.None? { return Load(false, EMPTY, Some(which), Some(file.digest), false); }
      return Load(true, validation.value, Some(which), Some(file.digest), false);
    }
    assert candidates[0].0.Missing? && candidates[1].0.Missing?;
    return Load(true, EMPTY, None, None, false);
  }

  function WrapLoad(isOne: IsOne, project: FileRead, global: FileRead): Load {
    var d := Deciding(project, global);
    if d.None? then Load(true, EMPTY, None, None, false)
    else if d.value.0.Unreadable? then Load(false, EMPTY, Some(d.value.1), None, true)
    else
      var policy := ParsePolicyStrict(isOne, d.value.0.source);
      Load(policy.Some?, if policy.Some? then policy.value else EMPTY, Some(d.value.1), Some(d.value.0.digest), false)
  }

  /** `policyRecordFromLoad`, without the rule counts. */
  function ClaimFromLoad(l: Load): Claim {
    if !l.ok then
      if l.unreadable then Claim(Unchecked, None, l.which)
      else Claim(Failed, NonEmpty(l.digest), l.which)
    else if l.which.None? then Claim(NoPolicy, None, None)
    else if NonEmpty(l.digest).None? then Claim(Unchecked, None, l.which)
    else Claim(Verified, l.digest, l.which)
  }

  predicate Hashed(f: FileRead) { f.Content? ==> f.digest != "" }

  /** Whatever the two files read as, both paths let the same file decide and report the same
      status, digest and source. */
  lemma LoadersAgree(isOne: IsOne, project: FileRead, global: FileRead)
    requires Hashed(project) && Hashed(global)
    ensures ClaimFromLoad(WrapLoad(isOne, project, global)) == RunResolution(isOne, project, global).claim
  {
  }

  /** The project's file decides if there is one, whatever the global one says; the global one decides else, and
      as it would in the project's place; without either nothing is denied and nothing warned of. */
  lemma FirstFileDecides(isOne: IsOne, project: FileRead, global: FileRead, other: FileRead)
    ensures !project.Missing? ==>
      && RunResolution(isOne, project, global) == RunResolution(isOne, project, other)
      && WrapLoad(isOne, project, global) == WrapLoad(isOne, project, other)
      && RunResolution(isOne, project, global).claim.source == Some(Project)
    ensures project.Missing? && !global.Missing? ==>
      && RunResolution(isOne, project, global).claim.source == Some(Global)
      && RunResolution(isOne, project, global).mode == RunResolution(isOne, global, other).mode
      && RunResolution(isOne, project, global).warning == RunResolution(isOne, global, other).warning
      && WrapLoad(isOne, project, global).policy == WrapLoad(isOne, global, other).policy
    ensures project.Missing? && global.Missing? ==>
      && RunResolution(isOne, project, global) == Resolution(Off, false, Claim(NoPolicy, None, None))
      && WrapLoad(isOne, project, global).ok && WrapLoad(isOne, project, global).policy == EMPTY
  {
  }

  /** A file that declares the gate is never resolved to off: it gates the run or refuses it. */
  lemma OptInNeverOff(isOne: IsOne, project: FileRead, global: FileRead)
    requires Deciding(project, global).Some? && Deciding(project, global).value.0.Content?
    ensures var file := Deciding(project, global).value.0;
      && (Detected(file.source) <==> RunResolution(isOne, project, global).mode != Off)
      && (RunResolution(isOne, project, global).mode == Refuse <==>
            ParsePolicyStrict(isOne, file.source).Some? && ParsePolicyStrict(isOne, file.source).value.stateGate)
      && (RunResolution(isOne, project, global).warning <==>
            ParsePolicyStrict(isOne, file.source).None? && !Detected(file.source))
  {
    var file := Deciding(project, global).value.0;
    if ParsePolicyStrict(isOne, file.source).Some? { GateAgrees(isOne, file.source); }
  }

  // ---- Evaluation ----

  /** Glob matching, endpoint matching and tool-name normalization. */
  datatype Matching = Matching(glob: (string, string) -> bool, endpoint: (string, string) -> bool,
                               normal: string -> string)

  datatype Verdict = Allow | Deny(rule: DenyRule) | DryRun(tool: string)

  predicate ToolMatches(m: Matching, glob: Option<string>, tool: string) { glob.Some? && m.glob(glob.value, tool) }

  predicate EndpointMatches(m: Matching, glob: Option<string>, hosts: seq<string>) {
    glob.Some? && exists i :: 0 <= i < |hosts| && m.endpoint(glob.value, hosts[i])
  }

  /** The rule applies to the call. */
  predicate Applies(m: Matching, rule: DenyRule, tool: string, hosts: seq<string>, allowWrites: bool) {
    && (ToolMatches(m, rule.tool, tool) || EndpointMatches(m, rule.endpoint, hosts))
    && !(rule.unless == Some(ALLOW_WRITES) && allowWrites)
  }

  function FirstDeny(m: Matching, rules: seq<DenyRule>, tool: string, hosts: seq<string>,
                     allowWrites: bool): Option<DenyRule> {
    if rules == [] then None
    else if Applies(m, rules[0], tool, hosts, allowWrites) then Some(rules[0])
    else FirstDeny(m, rules[1..], tool, hosts, allowWrites)
  }

  function FirstDryRun(m: Matching, rules: seq<string>, tool: string): Option<string> {
    if rules == [] then None else if m.glob(rules[0], tool) then Some(rules[0]) else FirstDryRun(m, rules[1..], tool)
  }

  function Evaluate(m: Matching, p: Policy, tool: string, hosts: seq<string>, allowWrites: bool): Verdict {
    var deny, dry := FirstDeny(m, p.deny, m.normal(tool), hosts, allowWrites), FirstDryRun(m, p.dryRun, m.normal(tool));
    if deny.Some? then Deny(deny.value) else if dry.Some? then DryRun(dry.value) else Allow
  }

  method EvaluatePolicy(m: Matching, p: Policy, toolName: string, hosts: seq<string>, allowWrites: bool)
    returns (v: Verdict)
    ensures v == Evaluate(m, p, toolName, hosts, allowWrites)
  {
    var tool := m.normal(toolName);
    for i := 0 to |p.deny|
      invariant FirstDeny(m, p.deny, tool, hosts, allowWrites) == FirstDeny(m, p.deny[i..], tool, hosts, allowWrites)
    {
      var rule := p.deny[i];
      assert p.deny[i..][0] == rule && p.deny[i..][1..] == p.deny[i + 1..];
      var matched := rule.tool.Some? && m.glob(rule.tool.value, tool);
      if !matched && rule.endpoint.Some? {
        matched := AnyHost(m, rule.endpoint.value, hosts);
      }
      if !matched { continue; }
      if rule.unless == Some(ALLOW_WRITES) && allowWrites { continue; }
      return Deny(rule);
    }
    for i := 0 to |p.dryRun|
      invariant FirstDryRun(m, p.dryRun, tool) == FirstDryRun(m, p.dryRun[i..], tool)
    {
      assert p.dryRun[i..][0] == p.dryRun[i] && p.dryRun[i..][1..] == p.dryRun[i + 1..];
      if m.glob(p.dryRun[i], tool) { return DryRun(p.dryRun[i]); }
    }
    return Allow;
  }

  method AnyHost(m: Matching, glob: string, hosts: seq<string>) returns (matched: bool)
    ensures matched == EndpointMatches(m, Some(glob), hosts)
  {
    for i := 0 to |hosts|
      invariant forall j :: 0 <= j < i ==> !m.endpoint(glob, hosts[j])
    {
      if m.endpoint(glob, hosts[i]) { return true; }
    }
    return false;
  }

  /** Deny comes before dry-run, which comes before allow; within each the first rule decides. */
  lemma {:induction false} Precedence(m: Matching, p: Policy, tool: string, hosts: seq<string>, allowWrites: bool)
    ensures Evaluate(m, p, tool, hosts, allowWrites).Deny? <==>
      exists i :: 0 <= i < |p.deny| && Applies(m, p.deny[i], m.normal(tool), hosts, allowWrites)
    ensures Evaluate(m, p, tool, hosts, allowWrites).DryRun? <==>
      && (forall i :: 0 <= i < |p.deny| ==> !Applies(m, p.deny[i], m.normal(tool), hosts, allowWrites))
      && exists i :: 0 <= i < |p.dryRun| && m.glob(p.dryRun[i], m.normal(tool))
  {
    SomeDeny(m, p.deny, m.normal(tool), hosts, allowWrites);
    SomeDryRun(m, p.dryRun, m.normal(tool));
  }

  lemma {:induction false} SomeDeny(m: Matching, rules: seq<DenyRule>, tool: string, hosts: seq<string>,
                                    allowWrites: bool)
    ensures FirstDeny(m, rules, tool, hosts, allowWrites).Some? <==>
      exists i :: 0 <= i < |rules| && Applies(m, rules[i], tool, hosts, allowWrites)
  {
    if rules != [] {
      SomeDeny(m, rules[1..], tool, hosts, allowWrites);
      assert forall i :: 0 < i < |rules| ==> rules[i] == rules[1..][i - 1];
      assert forall i :: 0 <= i < |rules| - 1 ==> rules[1..][i] == rules[i + 1];
    }
  }

  lemma {:induction false} SomeDryRun(m: Matching, rules: seq<string>, tool: string)
    ensures FirstDryRun(m, rules, tool).Some? <==> exists i :: 0 <= i < |rules| && m.glob(rules[i], tool)
  {
    if rules != [] {
      SomeDryRun(m, rules[1..], tool);
      assert forall i :: 0 < i < |rules| ==> rules[i] == rules[1..][i - 1];
      assert forall i :: 0 <= i < |rules| - 1 ==> rules[1..][i] == rules[i + 1];
    }
  }

  lemma {:induction false} FirstDenyAt(m: Matching, rules: seq<DenyRule>, tool: string, hosts: seq<string>,
                                       allowWrites: bool) returns (i: nat)
    requires FirstDeny(m, rules, tool, hosts, allowWrites).Some?
    ensures i < |rules| && FirstDeny(m, rules, tool, hosts, allowWrites) == Some(rules[i])
    ensures Applies(m, rules[i], tool, hosts, allowWrites)
    ensures forall j :: 0 <= j < i ==> !Applies(m, rules[j], tool, hosts, allowWrites)
  {
    if Applies(m, rules[0], tool, hosts, allowWrites) {
      i := 0;
    } else {
      i := FirstDenyAt(m, rules[1..], tool, hosts, allowWrites);
      i := i + 1;
    }
  }

  /** The rule that decides a call: the first whose tool glob matches the call or whose endpoint glob matches
      one of its hosts, the rules left out that `--allow-writes` lifts. */
  ghost predicate FirstMatching(m: Matching, p: Policy, tool: string, hosts: seq<string>, allowWrites: bool, i: nat) {
    i < |p.deny| && Matched(m, p.deny[i], tool, hosts, allowWrites) &&
    forall j :: 0 <= j < i ==> !Matched(m, p.deny[j], tool, hosts, allowWrites)
  }

  ghost predicate Matched(m: Matching, rule: DenyRule, tool: string, hosts: seq<string>, allowWrites: bool) {
    && ((exists t :: rule.tool == Some(t) && m.glob(t, m.normal(tool)))
        || exists e, h :: rule.endpoint == Some(e) && h in hosts && m.endpoint(e, h))
    && (allowWrites ==> rule.unless != Some("--allow-writes"))
  }

  lemma MatchedApplies(m: Matching, rule: DenyRule, tool: string, hosts: seq<string>, allowWrites: bool)
    ensures Matched(m, rule, tool, hosts, allowWrites) <==> Applies(m, rule, m.normal(tool), hosts, allowWrites)
  {
    if EndpointMatches(m, rule.endpoint, hosts) {
      var i :| 0 <= i < |hosts| && m.endpoint(rule.endpoint.value, hosts[i]);
      assert hosts[i] in hosts;
    }
  }

  lemma DecidedByFirst(m: Matching, p: Policy, tool: string, hosts: seq<string>, allowWrites: bool, rule: DenyRule)
    ensures Evaluate(m, p, tool, hosts, allowWrites) == Deny(rule) <==>
      exists i: nat :: FirstMatching(m, p, tool, hosts, allowWrites, i) && p.deny[i] == rule
  {
    forall i | 0 <= i < |p.deny|
      ensures Matched(m, p.deny[i], tool, hosts, allowWrites) <==>
        Applies(m, p.deny[i], m.normal(tool), hosts, allowWrites)
    {
      MatchedApplies(m, p.deny[i], tool, hosts, allowWrites);
    }
    SomeDeny(m, p.deny, m.normal(tool), hosts, allowWrites);
    if FirstDeny(m, p.deny, m.normal(tool), hosts, allowWrites).Some? {
      var i := FirstDenyAt(m, p.deny, m.normal(tool), hosts, allowWrites);
      assert FirstMatching(m, p, tool, hosts, allowWrites, i);
    }
  }

  // ---- Dead rules ----

  datatype Unmatched = DenyGlob(glob: string) | DryRunGlob(glob: string)

  /** No available tool matches the glob. */
  predicate Dead(m: Matching, glob: string, available: seq<string>) {
    forall i :: 0 <= i < |available| ==> !m.glob(glob, m.normal(available[i]))
  }

  function UnmatchedBy(m: Matching, rule: DenyRule, available: seq<string>): seq<Unmatched> {
    if rule.tool.Some? && Dead(m, rule.tool.value, available) then [DenyGlob(rule.tool.value)] else []
  }

  function UnmatchedDeny(m: Matching, rules: seq<DenyRule>, available: seq<string>): seq<Unmatched> {
    if rules == [] then [] else UnmatchedBy(m, rules[0], available) + UnmatchedDeny(m, rules[1..], available)
  }

  lemma {:induction false} UnmatchedSnoc(m: Matching, rules: seq<DenyRule>, rule: DenyRule, available: seq<string>)
    ensures UnmatchedDeny(m, rules + [rule], available) ==
      UnmatchedDeny(m, rules, available) + UnmatchedBy(m, rule, available)
  {
    var all := rules + [rule];
    if rules == [] {
      assert all[0] == rule && all[1..] == [];
    } else {
      UnmatchedSnoc(m, rules[1..], rule, available);
      assert all[0] == rules[0] && all[1..] == rules[1..] + [rule];
    }
  }

  function UnmatchedDryRun(m: Matching, rules: seq<string>, available: seq<string>): seq<Unmatched> {
    if rules == [] then []
    else
      (if Dead(m, rules[0], available) then [DryRunGlob(rules[0])] else [])
      + UnmatchedDryRun(m, rules[1..], available)
  }

  function Reported(m: Matching, p: Policy, available: seq<string>): seq<Unmatched> {
    UnmatchedDeny(m, p.deny, available) + UnmatchedDryRun(m, p.dryRun, available)
  }

  lemma UnmatchedHead(m: Matching, rules: seq<string>, i: nat, done: seq<Unmatched>, available: seq<string>)
    requires i < |rules|
    ensures done + UnmatchedDryRun(m, rules[i..], available) ==
      (if Dead(m, rules[i], available) then done + [DryRunGlob(rules[i])] else done) +
        UnmatchedDryRun(m, rules[i + 1..], available)
  {
    assert rules[i..][0] == rules[i] && rules[i..][1..] == rules[i + 1..];
    if Dead(m, rules[i], available) {
      Assoc(done, [DryRunGlob(rules[i])], UnmatchedDryRun(m, rules[i + 1..], available));
    } else {
      assert [] + UnmatchedDryRun(m, rules[i + 1..], available) == UnmatchedDryRun(m, rules[i + 1..], available);
    }
  }

  method FindUnmatchedToolRules(m: Matching, p: Policy, available: seq<string>) returns (unmatched: seq<Unmatched>)
    ensures unmatched == Reported(m, p, available)
  {
    var deny := FindUnmatchedDeny(m, p.deny, available);
    unmatched := deny;
    for i := 0 to |p.dryRun|
      invariant Reported(m, p, available) == unmatched + UnmatchedDryRun(m, p.dryRun[i..], available)
    {
      UnmatchedHead(m, p.dryRun, i, unmatched, available);
      if Dead(m, p.dryRun[i], available) { unmatched := unmatched + [DryRunGlob(p.dryRun[i])]; }
    }
  }

  method FindUnmatchedDeny(m: Matching, rules: seq<DenyRule>, available: seq<string>)
    returns (unmatched: seq<Unmatched>)
    ensures unmatched == UnmatchedDeny(m, rules, available)
  {
    unmatched := [];
    for i := 0 to |rules|
      invariant unmatched == UnmatchedDeny(m, rules[..i], available)
    {
      assert rules[..i + 1] == rules[..i] + [rules[i]];
      UnmatchedSnoc(m, rules[..i], rules[i], available);
      if rules[i].tool.Some? && Dead(m, rules[i].tool.value, available) {
        unmatched := unmatched + [DenyGlob(rules[i].tool.value)];
      }
    }
    assert rules[..|rules|] == rules;
  }

  /** Reported, and without an endpoint to fire through. */
  predicate ToolOnly(rule: DenyRule, reported: seq<Unmatched>) {
    rule.tool.Some? && rule.endpoint.None? && DenyGlob(rule.tool.value) in reported
  }

  /** The deny rules without those that carry no endpoint and were reported. */
  function LiveDeny(rules: seq<DenyRule>, reported: seq<Unmatched>): seq<DenyRule> {
    if rules == [] then []
    else
      (if ToolOnly(rules[0], reported) then [] else [rules[0]])
      + LiveDeny(rules[1..], reported)
  }

  function LiveDryRun(rules: seq<string>, reported: seq<Unmatched>): seq<string> {
    if rules == [] then []
    else (if DryRunGlob(rules[0]) in reported then [] else [rules[0]]) + LiveDryRun(rules[1..], reported)
  }

  function Pruned(p: Policy, reported: seq<Unmatched>): Policy {
    Policy(LiveDeny(p.deny, reported), LiveDryRun(p.dryRun, reported), p.stateGate)
  }

  /** What is reported is dead. */
  lemma {:induction false} ReportedDeny(m: Matching, rules: seq<DenyRule>, available: seq<string>, glob: string)
    ensures DenyGlob(glob) in UnmatchedDeny(m, rules, available) ==> Dead(m, glob, available)
    ensures DryRunGlob(glob) !in UnmatchedDeny(m, rules, available)
  {
    if rules != [] { ReportedDeny(m, rules[1..], available, glob); }
  }

  lemma {:induction false} ReportedDryRun(m: Matching, rules: seq<string>, available: seq<string>, glob: string)
    ensures DryRunGlob(glob) in UnmatchedDryRun(m, rules, available) ==> Dead(m, glob, available)
    ensures DenyGlob(glob) !in UnmatchedDryRun(m, rules, available)
  {
    if rules != [] { ReportedDryRun(m, rules[1..], available, glob); }
  }

  ghost predicate AllDead(m: Matching, reported: seq<Unmatched>, available: seq<string>) {
    forall u :: u in reported ==> Dead(m, u.glob, available)
  }

  lemma ReportedIsDead(m: Matching, reported: seq<Unmatched>, available: seq<string>, tool: string, u: Unmatched)
    requires AllDead(m, reported, available) && tool in available && u in reported
    ensures !m.glob(u.glob, m.normal(tool))
  {
    var i :| 0 <= i < |available| && available[i] == tool;
    assert Dead(m, u.glob, available) && !m.glob(u.glob, m.normal(available[i]));
  }

  lemma {:induction false} LiveDenyDecides(m: Matching, rules: seq<DenyRule>, reported: seq<Unmatched>,
                                           available: seq<string>,
                                          tool: string, hosts: seq<string>, allowWrites: bool)
    requires AllDead(m, reported, available) && tool in available
    ensures FirstDeny(m, LiveDeny(rules, reported), m.normal(tool), hosts, allowWrites) ==
      FirstDeny(m, rules, m.normal(tool), hosts, allowWrites)
  {
    if rules != [] {
      LiveDenyDecides(m, rules[1..], reported, available, tool, hosts, allowWrites);
      var rest := LiveDeny(rules[1..], reported);
      if rules[0].tool.Some? && rules[0].endpoint.None? && DenyGlob(rules[0].tool.value) in reported {
        ReportedIsDead(m, reported, available, tool, DenyGlob(rules[0].tool.value));
        assert LiveDeny(rules, reported) == rest;
      } else {
        assert ([rules[0]] + rest)[1..] == rest;
      }
    }
  }

  lemma {:induction false} LiveDryRunDecides(m: Matching, rules: seq<string>, reported: seq<Unmatched>,
                                             available: seq<string>, tool: string)
    requires AllDead(m, reported, available) && tool in available
    ensures FirstDryRun(m, LiveDryRun(rules, reported), m.normal(tool)) == FirstDryRun(m, rules, m.normal(tool))
  {
    if rules != [] {
      LiveDryRunDecides(m, rules[1..], reported, available, tool);
      var rest := LiveDryRun(rules[1..], reported);
      if DryRunGlob(rules[0]) in reported {
        ReportedIsDead(m, reported, available, tool, DryRunGlob(rules[0]));
        assert LiveDryRun(rules, reported) == rest;
      } else {
        assert ([rules[0]] + rest)[1..] == rest;
      }
    }
  }

  /** Deleting every reported rule that has no endpoint changes no verdict on an available tool. */
  lemma DeadRulesAreDead(m: Matching, p: Policy, available: seq<string>, tool: string, hosts: seq<string>,
                         allowWrites: bool)
    requires tool in available
    ensures Evaluate(m, Pruned(p, Reported(m, p, available)), tool, hosts, allowWrites) ==
      Evaluate(m, p, tool, hosts, allowWrites)
  {
    var reported := Reported(m, p, available);
    forall u | u in reported ensures Dead(m, u.glob, available) {
      ReportedDeny(m, p.deny, available, u.glob);
      ReportedDryRun(m, p.dryRun, available, u.glob);
    }
    LiveDenyDecides(m, p.deny, reported, available, tool, hosts, allowWrites);
    LiveDryRunDecides(m, p.dryRun, reported, available, tool);
  }

  /** With an endpoint a reported rule may still decide: it must not be deleted. */
  lemma ReportedMayFire(m: Matching, glob: string, endpoint: string, host: string, tool: string)
    requires !m.glob(glob, m.normal(tool)) && m.endpoint(endpoint, host)
    ensures var p := Policy([DenyRule(Some(glob), Some(endpoint), None)], [], false);
      && Reported(m, p, [tool]) == [DenyGlob(glob)]
      && Evaluate(m, p, tool, [host], false) == Deny(p.deny[0])
  {
    var p := Policy([DenyRule(Some(glob), Some(endpoint), None)], [], false);
    assert [host][0] == host;
    assert Reported(m, p, [tool]) == [DenyGlob(glob)] + UnmatchedDeny(m, p.deny[1..], [tool]);
  }
}
