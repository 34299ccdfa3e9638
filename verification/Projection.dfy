/** Projection of an observation, and of an outbound artifact, onto a declared list of fields:
    what is projected, what is absent, and what could not be established. */
module Projection {
  import opened Wrappers
  import opened Sequences
  import opened CanonicalJson
  import opened CanonicalPrint
  import opened Commitments

  // ---- Observations ----

  datatype Header = Header(name: Units, value: Units)

  /** `body` is None when it does not parse to an object. */
  datatype Observation = Observation(status: Units, headers: seq<Header>, body: Option<seq<Entry>>)

  const STATUS_CODE: Units := Ascii("status.code")
  const HEADER: Units := Ascii("header.")
  const BODY: Units := Ascii("body.")

  function After(prefix: Units, s: Units): Units
    requires prefix <= s
  {
    s[|prefix|..]
  }

  function BodyKey(entry: Units): Units { if BODY <= entry then After(BODY, entry) else entry }

  /** The key an entry is reported under. */
  function TypedKeyFor(entry: Units): Units {
    if entry == STATUS_CODE then entry
    else if HEADER <= entry then entry
    else BODY + BodyKey(entry)
  }

  function Named(headers: seq<Header>, name: Units): Option<Units> {
    if headers == [] then None
    else if headers[0].name == name then Some(headers[0].value)
    else Named(headers[1..], name)
  }

  function NamedLower(lower: Units -> Units, headers: seq<Header>, name: Units): Option<Units> {
    if headers == [] then None
    else if lower(headers[0].name) == lower(name) then Some(headers[0].value)
    else NamedLower(lower, headers[1..], name)
  }

  /** Exact match first, then the first that matches without case. */
  function LookupHeader(lower: Units -> Units, headers: seq<Header>, name: Units): Option<Units> {
    if Named(headers, name).Some? then Named(headers, name) else NamedLower(lower, headers, name)
  }

  function AsScalar(v: Value): Option<Scalar> {
    match v
    case Str(s) => Some(Text(s))
    case Num(t) => Some(Number(t))
    case Bool(b) => Some(Flag(b))
    case _ => None
  }

  /** What the observation establishes about an entry. */
  datatype Finding = Present(value: Scalar) | Missing | Unestablished

  function FindingFor(lower: Units -> Units, obs: Observation, entry: Units): Finding {
    if entry == STATUS_CODE then Present(Number(obs.status))
    else if HEADER <= entry then
      var v := LookupHeader(lower, obs.headers, After(HEADER, entry));
      if v.None? then Missing else if v.value == [] then Unestablished else Present(Text(v.value))
    else if obs.body.None? then Unestablished
    else
      var v := Lookup(obs.body.value, BodyKey(entry));
      if v.None? then Missing
      else if AsScalar(v.value).None? then Unestablished
      else Present(AsScalar(v.value).value)
  }

  /** Two entries reported under one key are one question. */
  lemma KeyDecides(lower: Units -> Units, obs: Observation, a: Units, b: Units)
    requires TypedKeyFor(a) == TypedKeyFor(b)
    ensures FindingFor(lower, obs, a) == FindingFor(lower, obs, b)
  {
    assert STATUS_CODE[0] == 115 && HEADER[0] == 104 && BODY[0] == 98;
    var k := TypedKeyFor(a);
    assert k[0] == 115 || k[0] == 104 || k[0] == 98;
    if k[0] == 98 {
      assert After(BODY, k) == BodyKey(a) == BodyKey(b);
    }
  }

  function ToValue(x: Scalar): Value {
    if x.Text? then Str(x.units) else if x.Number? then Num(x.printed) else Bool(x.on)
  }

  /** A body entry is found with the very scalar that stands in the body. */
  lemma BodyFindingExactly(lower: Units -> Units, obs: Observation, entry: Units, x: Scalar)
    requires entry != STATUS_CODE && !(HEADER <= entry)
    ensures FindingFor(lower, obs, entry) == Present(x) <==>
      obs.body.Some? && Lookup(obs.body.value, if BODY <= entry then After(BODY, entry) else entry) == Some(ToValue(x))
  {
  }

  /** When a body entry is missing, and when nothing is established about it. */
  lemma BodyMissExactly(lower: Units -> Units, obs: Observation, entry: Units)
    requires entry != STATUS_CODE && !(HEADER <= entry)
    ensures FindingFor(lower, obs, entry) == Missing <==>
      obs.body.Some? && forall i :: 0 <= i < |obs.body.value| ==> obs.body.value[i].key != BodyKey(entry)
    ensures FindingFor(lower, obs, entry) == Unestablished <==>
      obs.body.None? ||
        exists v :: Lookup(obs.body.value, BodyKey(entry)) == Some(v) && (v.Null? || v.Undefined? || v.Arr? || v.Obj?)
  {
    if obs.body.Some? && Lookup(obs.body.value, BodyKey(entry)).Some? {
      var i :| 0 <= i < |obs.body.value|
        && obs.body.value[i] == Entry(BodyKey(entry), Lookup(obs.body.value, BodyKey(entry)).value);
    }
  }

  /** The first header whose name fits. */
  predicate FirstNamed(headers: seq<Header>, fits: Units -> bool, i: nat) {
    i < |headers| && fits(headers[i].name) && forall j :: 0 <= j < i ==> !fits(headers[j].name)
  }

  lemma {:induction false} NamedAt(headers: seq<Header>, name: Units, i: nat)
    requires FirstNamed(headers, n => n == name, i)
    ensures Named(headers, name) == Some(headers[i].value)
  {
    if i > 0 { NamedAt(headers[1..], name, i - 1); }
  }

  lemma {:induction false} NamedLowerAt(lower: Units -> Units, headers: seq<Header>, name: Units, i: nat)
    requires FirstNamed(headers, n => lower(n) == lower(name), i)
    ensures NamedLower(lower, headers, name) == Some(headers[i].value)
  {
    if i > 0 { NamedLowerAt(lower, headers[1..], name, i - 1); }
  }

  lemma {:induction false} NotNamed(lower: Units -> Units, headers: seq<Header>, name: Units)
    ensures Named(headers, name).None? <==> forall j :: 0 <= j < |headers| ==> headers[j].name != name
    ensures NamedLower(lower, headers, name).None? <==>
      forall j :: 0 <= j < |headers| ==> lower(headers[j].name) != lower(name)
  {
    if headers != [] {
      NotNamed(lower, headers[1..], name);
      assert forall j :: 0 < j < |headers| ==> headers[j] == headers[1..][j - 1];
      assert forall j :: 0 <= j < |headers| - 1 ==> headers[1..][j] == headers[j + 1];
    }
  }

  /** Header i decides an entry: the first of exactly that name, or if there is none the first of that name in any
      case. */
  ghost predicate Decides(lower: Units -> Units, headers: seq<Header>, name: Units, i: nat) {
    if exists j :: 0 <= j < |headers| && headers[j].name == name then FirstNamed(headers, n => n == name, i)
    else FirstNamed(headers, n => lower(n) == lower(name), i)
  }

  /** A header entry is missing if no header has its name in any case; the header that decides it is projected as
      text, and establishes nothing if it is empty. */
  lemma HeaderFindingExactly(lower: Units -> Units, obs: Observation, entry: Units, i: nat)
    requires HEADER <= entry && entry != STATUS_CODE
    ensures FindingFor(lower, obs, entry) == Missing <==>
      forall j :: 0 <= j < |obs.headers| ==> lower(obs.headers[j].name) != lower(After(HEADER, entry))
    ensures Decides(lower, obs.headers, After(HEADER, entry), i) ==>
      FindingFor(lower, obs, entry) ==
        if obs.headers[i].value == [] then Unestablished else Present(Text(obs.headers[i].value))
  {
    var name := After(HEADER, entry);
    NotNamed(lower, obs.headers, name);
    if Decides(lower, obs.headers, name, i) {
      if exists j :: 0 <= j < |obs.headers| && obs.headers[j].name == name {
        NamedAt(obs.headers, name, i);
      } else {
        NamedLowerAt(lower, obs.headers, name, i);
      }
    }
  }

  function Keys(projection: seq<Units>): set<Units> { set i | 0 <= i < |projection| :: TypedKeyFor(projection[i]) }

  ghost predicate Reports(lower: Units -> Units, obs: Observation, projection: seq<Units>, key: Units, f: Finding) {
    exists i :: 0 <= i < |projection| && TypedKeyFor(projection[i]) == key && FindingFor(lower, obs, projection[i]) == f
  }

  lemma ReportsMore(lower: Units -> Units, obs: Observation, projection: seq<Units>, i: nat, k: Units, f: Finding)
    requires i < |projection|
    ensures Reports(lower, obs, projection[..i], k, f) ==> Reports(lower, obs, projection[..i + 1], k, f)
    ensures TypedKeyFor(projection[i]) == k && FindingFor(lower, obs, projection[i]) == f ==>
      Reports(lower, obs, projection[..i + 1], k, f)
  {
    if j :| 0 <= j < i && TypedKeyFor(projection[..i][j]) == k && FindingFor(lower, obs, projection[..i][j]) == f {
      assert projection[..i + 1][j] == projection[..i][j];
    }
    assert projection[..i + 1][i] == projection[i];
  }

  /** A key is projected with what its entries found. */
  method ProjectObservationTyped(lower: Units -> Units, obs: Observation, projection: seq<Units>)
    returns (out: map<Units, Scalar>)
    ensures forall k, v :: k in out && out[k] == v <==> Reports(lower, obs, projection, k, Present(v))
  {
    out := map[];
    for i := 0 to |projection|
      invariant forall k :: k in out ==> Reports(lower, obs, projection[..i], k, Present(out[k]))
      invariant forall j :: 0 <= j < i && FindingFor(lower, obs, projection[j]).Present? ==>
        TypedKeyFor(projection[j]) in out
    {
      var key := projection[i];
      if key == STATUS_CODE {
        out := out[key := Number(obs.status)];
      } else if HEADER <= key {
        var v := LookupHeader(lower, obs.headers, After(HEADER, key));
        if v.Some? && v.value != [] { out := out[TypedKeyFor(key) := Text(v.value)]; }
      } else if obs.body.Some? {
        var v := Lookup(obs.body.value, if BODY <= key then After(BODY, key) else key);
        if v.Some? && AsScalar(v.value).Some? { out := out[TypedKeyFor(key) := AsScalar(v.value).value]; }
      }
      forall k | k in out ensures Reports(lower, obs, projection[..i + 1], k, Present(out[k])) {
        ReportsMore(lower, obs, projection, i, k, Present(out[k]));
      }
    }
    assert projection[..|projection|] == projection;
    forall k, v | Reports(lower, obs, projection, k, Present(v)) ensures k in out && out[k] == v {
      var j :| 0 <= j < |projection|
        && TypedKeyFor(projection[j]) == k && FindingFor(lower, obs, projection[j]) == Present(v);
      var m :| 0 <= m < |projection|
        && TypedKeyFor(projection[m]) == k && FindingFor(lower, obs, projection[m]) == Present(out[k]);
      KeyDecides(lower, obs, projection[j], projection[m]);
    }
  }

  /** The separately written loop that says why a key is missing. */
  method ProjectionMisses(lower: Units -> Units, obs: Observation, projection: seq<Units>)
    returns (absent: set<Units>, unprojectable: set<Units>)
    ensures forall k :: k in absent <==> Reports(lower, obs, projection, k, Missing)
    ensures forall k :: k in unprojectable <==> Reports(lower, obs, projection, k, Unestablished)
  {
    absent, unprojectable := {}, {};
    for i := 0 to |projection|
      invariant forall k :: k in absent <==> Reports(lower, obs, projection[..i], k, Missing)
      invariant forall k :: k in unprojectable <==> Reports(lower, obs, projection[..i], k, Unestablished)
    {
      var key := projection[i];
      var outKey := TypedKeyFor(key);
      forall k, f ensures Reports(lower, obs, projection[..i + 1], k, f) <==>
        Reports(lower, obs, projection[..i], k, f) || (k == outKey && FindingFor(lower, obs, key) == f)
      {
        ReportsSnoc(lower, obs, projection, i, k, f);
      }
      if key == STATUS_CODE { continue; }
      if HEADER <= key {
        var v := LookupHeader(lower, obs.headers, After(HEADER, key));
        if v.Some? && v.value != [] { continue; }
        if v.None? { absent := absent + {outKey}; } else { unprojectable := unprojectable + {outKey}; }
        continue;
      }
      if obs.body.None? {
        unprojectable := unprojectable + {outKey};
        continue;
      }
      var v := Lookup(obs.body.value, if BODY <= key then After(BODY, key) else key);
      if v.Some? && AsScalar(v.value).Some? { continue; }
      if v.Some? { unprojectable := unprojectable + {outKey}; } else { absent := absent + {outKey}; }
    }
    assert projection[..|projection|] == projection;
  }

  lemma ReportsSnoc(lower: Units -> Units, obs: Observation, projection: seq<Units>, i: nat, k: Units, f: Finding)
    requires i < |projection|
    ensures Reports(lower, obs, projection[..i + 1], k, f) <==>
      Reports(lower, obs, projection[..i], k, f) ||
        (k == TypedKeyFor(projection[i]) && FindingFor(lower, obs, projection[i]) == f)
  {
    var a, b := projection[..i], projection[..i + 1];
    assert b == a + [projection[i]];
    if Reports(lower, obs, a, k, f) {
      var j :| 0 <= j < |a| && TypedKeyFor(a[j]) == k && FindingFor(lower, obs, a[j]) == f;
      assert b[j] == a[j];
    }
    if k == TypedKeyFor(projection[i]) && FindingFor(lower, obs, projection[i]) == f { assert b[i] == projection[i]; }
  }

  /** Every declared entry's key is in exactly one of the three results of the two loops, and
      nothing else is in any. */
  lemma ExactlyOne(lower: Units -> Units, obs: Observation, projection: seq<Units>,
                   out: map<Units, Scalar>, absent: set<Units>, unprojectable: set<Units>)
    requires forall k, v :: k in out && out[k] == v <==> Reports(lower, obs, projection, k, Present(v))
    requires forall k :: k in absent <==> Reports(lower, obs, projection, k, Missing)
    requires forall k :: k in unprojectable <==> Reports(lower, obs, projection, k, Unestablished)
    ensures out.Keys + absent + unprojectable == Keys(projection)
    ensures out.Keys !! absent && out.Keys !! unprojectable && absent !! unprojectable
  {
    forall k ensures k in Keys(projection) <==> k in out || k in absent || k in unprojectable {
      if k in Keys(projection) {
        var i :| 0 <= i < |projection| && TypedKeyFor(projection[i]) == k;
        var f := FindingFor(lower, obs, projection[i]);
        assert Reports(lower, obs, projection, k, f);
        if f.Present? { assert k in out && out[k] == f.value; }
      }
      if k in out { assert Reports(lower, obs, projection, k, Present(out[k])); }
    }
    forall k, f, g | Reports(lower, obs, projection, k, f) && Reports(lower, obs, projection, k, g) ensures f == g {
      var i :| 0 <= i < |projection| && TypedKeyFor(projection[i]) == k && FindingFor(lower, obs, projection[i]) == f;
      var j :| 0 <= j < |projection| && TypedKeyFor(projection[j]) == k && FindingFor(lower, obs, projection[j]) == g;
      KeyDecides(lower, obs, projection[i], projection[j]);
    }
    forall k | k in out ensures k !in absent && k !in unprojectable {
      assert Reports(lower, obs, projection, k, Present(out[k]));
    }
  }

  /** The two loops run on one observation. */
  method Observe(lower: Units -> Units, obs: Observation, projection: seq<Units>)
    returns (out: map<Units, Scalar>, absent: set<Units>, unprojectable: set<Units>)
    ensures out.Keys + absent + unprojectable == Keys(projection)
    ensures out.Keys !! absent && out.Keys !! unprojectable && absent !! unprojectable
    ensures STATUS_CODE in projection ==> STATUS_CODE in out && out[STATUS_CODE] == Number(obs.status)
  {
    out := ProjectObservationTyped(lower, obs, projection);
    absent, unprojectable := ProjectionMisses(lower, obs, projection);
    ExactlyOne(lower, obs, projection, out, absent, unprojectable);
    if STATUS_CODE in projection {
      var i :| 0 <= i < |projection| && projection[i] == STATUS_CODE;
      assert Reports(lower, obs, projection, STATUS_CODE, Present(Number(obs.status)));
    }
  }

  // ---- Artifacts ----

  const ARGS: Units := Ascii("args.")
  const MAX_FIELDS := 32
  const MAX_NAME := 120

  predicate ValidEntry(entry: Units) {
    !Blank(entry) && |entry| <= MAX_NAME && ARGS <= entry && After(ARGS, entry) != [] && After(ARGS, entry) != PROTO
  }

  /** `assertArtifactProjection` passes. */
  predicate ValidProjection(projection: seq<Units>) {
    && 0 < |projection| <= MAX_FIELDS && Distinct(projection)
    && forall i :: 0 <= i < |projection| ==> ValidEntry(projection[i])
  }

  method AssertArtifactProjection(projection: seq<Units>) returns (ok: bool)
    ensures ok == ValidProjection(projection)
  {
    if |projection| == 0 || |projection| > MAX_FIELDS { return false; }
    var seen: set<Units> := {};
    for i := 0 to |projection|
      invariant seen == set j | 0 <= j < i :: projection[j]
      invariant Distinct(projection[..i]) && forall j :: 0 <= j < i ==> ValidEntry(projection[j])
    {
      var entry := projection[i];
      if !ValidEntry(entry) { return false; }
      if entry in seen { return false; }
      seen := seen + {entry};
      assert projection[..i + 1] == projection[..i] + [entry];
    }
    assert projection[..|projection|] == projection;
    return true;
  }

  /** The scalar an artifact entry addresses, if the args are an object that has it. */
  function Addressed(args: Value, entry: Units): Option<Scalar>
    requires ValidEntry(entry)
  {
    if !args.Obj? then None
    else
      var v := Lookup(args.members, After(ARGS, entry));
      if v.None? then None else AsScalar(v.value)
  }

  /** `projectArtifact`; None when it throws. */
  method ProjectArtifact(args: Value, projection: seq<Units>) returns (r: Option<map<Units, Scalar>>)
    ensures r.Some? <==> ValidProjection(projection) && Guarded(args)
    ensures r.Some? ==> forall k :: k in r.value <==> k in projection && Addressed(args, k).Some?
    ensures r.Some? ==> forall k :: k in r.value ==> Addressed(args, k) == Some(r.value[k])
  {
    var ok := AssertArtifactProjection(projection);
    if !ok || !Guarded(args) { return None; }
    var out: map<Units, Scalar> := map[];
    for i := 0 to |projection|
      invariant forall k :: k in out <==> k in projection[..i] && Addressed(args, k).Some?
      invariant forall k :: k in out ==> Addressed(args, k) == Some(out[k])
    {
      var entry := projection[i];
      assert projection[..i + 1] == projection[..i] + [entry];
      if args.Obj? {
        var v := Lookup(args.members, After(ARGS, entry));
        if v.Some? && AsScalar(v.value).Some? { out := out[entry := AsScalar(v.value).value]; }
      }
    }
    assert projection[..|projection|] == projection;
    return Some(out);
  }

  function Kept(args: Value, projection: seq<Units>, resolved: bool): seq<Units>
    requires forall i :: 0 <= i < |projection| ==> ValidEntry(projection[i])
  {
    if projection == [] then []
    else
      (if Addressed(args, projection[0]).Some? == resolved then [projection[0]] else [])
      + Kept(args, projection[1..], resolved)
  }

  function Half(args: Value, entry: Units, resolved: bool): seq<Units>
    requires ValidEntry(entry)
  {
    if Addressed(args, entry).Some? == resolved then [entry] else []
  }

  lemma {:induction false} KeptSnoc(args: Value, projection: seq<Units>, entry: Units, resolved: bool)
    requires ValidEntry(entry) && forall i :: 0 <= i < |projection| ==> ValidEntry(projection[i])
    ensures Kept(args, projection + [entry], resolved) == Kept(args, projection, resolved) + Half(args, entry, resolved)
  {
    var all := projection + [entry];
    if projection == [] {
      assert all[0] == entry && all[1..] == [];
    } else {
      KeptSnoc(args, projection[1..], entry, resolved);
      assert all[0] == projection[0] && all[1..] == projection[1..] + [entry];
    }
  }

  /** `partitionArtifact`: the resolved half is what `projectArtifact` emits. */
  method PartitionArtifact(args: Value, projection: seq<Units>) returns (r: Option<(seq<Units>, seq<Units>)>)
    ensures r.Some? <==> ValidProjection(projection) && Guarded(args)
    ensures r.Some? ==> r.value == (Kept(args, projection, true), Kept(args, projection, false))
  {
    var projected := ProjectArtifact(args, projection);
    if projected.None? { return None; }
    var resolved, unresolved: seq<Units> := [], [];
    for i := 0 to |projection|
      invariant resolved == Kept(args, projection[..i], true) && unresolved == Kept(args, projection[..i], false)
    {
      var entry := projection[i];
      assert projection[..i + 1] == projection[..i] + [entry] && entry in projection;
      KeptSnoc(args, projection[..i], entry, true);
      KeptSnoc(args, projection[..i], entry, false);
      if entry in projected.value {
        resolved := resolved + [entry];
      } else {
        unresolved := unresolved + [entry];
      }
    }
    assert projection[..|projection|] == projection;
    return Some((resolved, unresolved));
  }

  /** `s` can be read off `whole` from left to right. */
  predicate Subsequence(s: seq<Units>, whole: seq<Units>) {
    s == [] ||
      (whole != [] && (if s[0] == whole[0] then Subsequence(s[1..], whole[1..]) else Subsequence(s, whole[1..])))
  }

  lemma {:induction false} KeptMembers(args: Value, projection: seq<Units>, resolved: bool)
    requires forall i :: 0 <= i < |projection| ==> ValidEntry(projection[i])
    ensures forall k :: k in Kept(args, projection, resolved) <==>
      k in projection && Addressed(args, k).Some? == resolved
  {
    if projection != [] {
      KeptMembers(args, projection[1..], resolved);
      assert projection == [projection[0]] + projection[1..];
    }
  }

  lemma {:induction false} KeptInOrder(args: Value, projection: seq<Units>, resolved: bool)
    requires Distinct(projection) && forall i :: 0 <= i < |projection| ==> ValidEntry(projection[i])
    ensures Subsequence(Kept(args, projection, resolved), projection)
  {
    if projection != [] {
      var rest := Kept(args, projection[1..], resolved);
      KeptInOrder(args, projection[1..], resolved);
      KeptMembers(args, projection[1..], resolved);
      if Addressed(args, projection[0]).Some? == resolved {
        assert ([projection[0]] + rest)[1..] == rest;
      } else if rest != [] {
        assert Kept(args, projection, resolved) == rest && Subsequence(rest, projection[1..]);
        assert rest[0] in rest && rest[0] in projection[1..];
        var i :| 0 <= i < |projection[1..]| && projection[1..][i] == rest[0];
        assert projection[i + 1] != projection[0];
      }
    }
  }

  lemma {:induction false} KeptCount(args: Value, projection: seq<Units>)
    requires forall i :: 0 <= i < |projection| ==> ValidEntry(projection[i])
    ensures multiset(Kept(args, projection, true)) + multiset(Kept(args, projection, false)) == multiset(projection)
  {
    if projection != [] {
      KeptCount(args, projection[1..]);
      assert projection == [projection[0]] + projection[1..];
    }
  }

  /** Both halves keep the declared order, share nothing, and are together the declared list. */
  lemma HalvesPartition(args: Value, projection: seq<Units>)
    requires Distinct(projection) && forall i :: 0 <= i < |projection| ==> ValidEntry(projection[i])
    ensures var resolved, unresolved := Kept(args, projection, true), Kept(args, projection, false);
      && Subsequence(resolved, projection) && Subsequence(unresolved, projection)
      && multiset(resolved) + multiset(unresolved) == multiset(projection)
      && (forall k :: k in resolved <==> k in projection && Addressed(args, k).Some?)
      && (forall k :: k in unresolved <==> k in projection && Addressed(args, k).None?)
  {
    KeptInOrder(args, projection, true);
    KeptInOrder(args, projection, false);
    KeptMembers(args, projection, true);
    KeptMembers(args, projection, false);
    KeptCount(args, projection);
  }
}
