/** The bounded live index: it retains the first leaves up to its capacity, never evicts, and
    agrees with the batch index as far as a truncated corpus can. */
module LiveProvenance {
  import opened Wrappers
  import opened CanonicalJson
  import opened CanonicalPrint
  import opened Commitments
  import opened Provenance

  // ---- What was offered and what is held ----

  datatype Event = GapAdded(id: Units) | SourceAdded(id: Units, value: Value)

  function AsSource(e: Event): Source { Source(Response, e.id, if e.GapAdded? then Undefined else e.value) }

  function AsSources(events: seq<Event>): seq<Source> {
    seq(|events|, i requires 0 <= i < |events| => AsSource(events[i]))
  }

  function GapIds(events: seq<Event>): seq<Units> {
    if events == [] then [] else (if events[0].GapAdded? then [events[0].id] else []) + GapIds(events[1..])
  }

  function Offered(events: seq<Event>): seq<SourceLeaf> { SourceLeaves(AsSources(events)) }

  function Take<T>(s: seq<T>, n: nat): seq<T> { if |s| <= n then s else s[..n] }

  lemma {:induction false} GapIdsSnoc(events: seq<Event>, e: Event)
    ensures GapIds(events + [e]) == GapIds(events) + if e.GapAdded? then [e.id] else []
  {
    if events == [] {
      assert [e][1..] == [];
    } else {
      GapIdsSnoc(events[1..], e);
      assert (events + [e])[1..] == events[1..] + [e];
    }
  }

  lemma OfferedSnoc(events: seq<Event>, e: Event)
    ensures Offered(events + [e]) == Offered(events) + LeavesOf(AsSource(e))
  {
    assert AsSources(events + [e]) == AsSources(events) + [AsSource(e)];
    SourcesSnoc(AsSources(events), AsSource(e));
  }

  lemma SourceSnoc(events: seq<Event>, id: Units, value: Value)
    ensures Offered(events + [SourceAdded(id, value)]) == Offered(events) + Located(id, Walk(value, Ascii("body")))
    ensures GapIds(events + [SourceAdded(id, value)]) == GapIds(events)
  {
    OfferedSnoc(events, SourceAdded(id, value));
    GapIdsSnoc(events, SourceAdded(id, value));
  }

  function LiveReasons(events: seq<Event>, capacity: nat): seq<Reason> {
    Unaddressed(GapIds(events)) + if |Offered(events)| > capacity then [Cap(capacity)] else []
  }

  /** What the live index answers after these events; None when it throws. */
  function LiveResolve(h: Host, events: seq<Event>, capacity: nat, args: Value): Option<seq<Resolution>> {
    if !Guarded(args) then None
    else Some(Outcomes(h, Take(Offered(events), capacity), LiveReasons(events, capacity), Walk(args, Ascii("args"))))
  }

  /** The two maps hold the first claims of the leaves held. */
  ghost predicate Holds(h: Host, exact: map<Key, Coordinate>, normalized: map<Key, Coordinate>, held: seq<SourceLeaf>) {
    && (forall k :: Get(exact, k) == First(ExactClaims(held), k))
    && (forall k :: Get(normalized, k) == First(NormalClaims(h, held), k))
  }

  // ---- The index ----

  class LiveProvenanceIndex {
    const host: Host
    const capacity: nat
    var exact: map<Key, Coordinate>
    var normalized: map<Key, Coordinate>
    var gaps: seq<Units>
    var acceptedLeaves: nat
    var saturated: bool
    ghost var events: seq<Event>

    /** The state after these leaves were offered. */
    ghost predicate Tracks(offered: seq<SourceLeaf>)
      reads this
    {
      var held := Take(offered, capacity);
      && Holds(host, exact, normalized, held)
      && acceptedLeaves == |held| <= capacity
      && saturated == (|offered| > capacity)
    }

    ghost predicate Valid()
      reads this
    {
      Tracks(Offered(events)) && gaps == GapIds(events)
    }

    constructor (h: Host, cap: nat)
      requires cap >= 1
      ensures Valid() && events == [] && capacity == cap && host == h
    {
      host, capacity, exact, normalized := h, cap, map[], map[];
      gaps, acceptedLeaves, saturated, events := [], 0, false, [];
    }

    method AddGap(id: Units)
      requires Valid()
      modifies this
      ensures Valid() && events == old(events) + [GapAdded(id)]
    {
      gaps := gaps + [id];
      OfferedSnoc(events, GapAdded(id));
      assert LeavesOf(AsSource(GapAdded(id))) == [];
      assert Offered(events + [GapAdded(id)]) == Offered(events);
      GapIdsSnoc(events, GapAdded(id));
      events := events + [GapAdded(id)];
    }

    /** False, and nothing changes, when the value carries a `__proto__` key. */
    method AddSource(id: Units, value: Value) returns (ok: bool)
      requires Valid()
      modifies this
      ensures Valid() && ok == Guarded(value)
      ensures events == if ok then old(events) + [SourceAdded(id, value)] else old(events)
    {
      var leaves := Leaves(value, Ascii("body"));
      if leaves.None? { return false; }
      OfferAll(Offered(events), Located(id, leaves.value));
      SourceSnoc(events, id, value);
      events := events + [SourceAdded(id, value)];
      return true;
    }

    method OfferAll(ghost offered: seq<SourceLeaf>, located: seq<SourceLeaf>)
      requires Tracks(offered)
      modifies this`exact, this`normalized, this`acceptedLeaves, this`saturated
      ensures Tracks(offered + located)
    {
      assert offered + located[..0] == offered;
      for i := 0 to |located|
        invariant Tracks(offered + located[..i])
      {
        assert offered + located[..i + 1] == (offered + located[..i]) + [located[i]];
        Offer(offered + located[..i], located[i]);
      }
      assert located[..|located|] == located;
    }

    method Offer(ghost offered: seq<SourceLeaf>, leaf: SourceLeaf)
      requires Tracks(offered)
      modifies this`exact, this`normalized, this`acceptedLeaves, this`saturated
      ensures Tracks(offered + [leaf])
    {
      if acceptedLeaves >= capacity {
        saturated := true;
        assert Take(offered + [leaf], capacity) == Take(offered, capacity);
      } else {
        acceptedLeaves := acceptedLeaves + 1;
        Accept(offered, leaf);
      }
    }

    method Accept(ghost held: seq<SourceLeaf>, leaf: SourceLeaf)
      requires Holds(host, exact, normalized, held)
      modifies this`exact, this`normalized
      ensures Holds(host, exact, normalized, held + [leaf])
    {
      ghost var wasExact, wasNormalized := exact, normalized;
      exact := PutAll(exact, ClaimsOf(ExactForms(leaf.value), leaf.from));
      normalized := PutAll(normalized, ClaimsOf(NormalForms(host, leaf.value), leaf.from));
      ghost var all := held + [leaf];
      assert all[..|held|] == held && all[..|held| + 1] == all;
      SnocClaims(host, all, |held|);
      forall k
        ensures Get(exact, k) == First(ExactClaims(all), k) && Get(normalized, k) == First(NormalClaims(host, all), k)
      {
        FirstAppend(ExactClaims(held), ExactOf(leaf), k);
        FirstAppend(NormalClaims(host, held), NormalOf(host, leaf), k);
        assert Get(wasExact, k) == First(ExactClaims(held), k);
        assert Get(wasNormalized, k) == First(NormalClaims(host, held), k);
      }
    }

    method Search(value: Scalar) returns (hit: Option<Hit>)
      requires Valid()
      ensures hit == Find(host, Take(Offered(events), capacity), value)
    {
      ghost var held := Take(Offered(events), capacity);
      var key := KeyFor(value);
      if key in exact { assert Get(exact, key) == First(ExactClaims(held), key); return Some(Hit(exact[key], Exact)); }
      assert Get(exact, key) == First(ExactClaims(held), key);
      assert Get(normalized, key) == First(NormalClaims(host, held), key);
      if key in normalized { return Some(Hit(normalized[key], Normalized)); }
      var forms := NormalForms(host, value);
      ghost var at := k => From(Found(host, held, k));
      for i := 0 to |forms|
        invariant FormHit(forms, at) == FormHit(forms[i..], at)
      {
        var k := KeyFor(forms[i]);
        assert forms[i..][0] == forms[i] && forms[i..][1..] == forms[i + 1..];
        assert Get(exact, k) == First(ExactClaims(held), k) && Get(normalized, k) == First(NormalClaims(host, held), k);
        if k in exact { return Some(Hit(exact[k], Normalized)); }
        if k in normalized { return Some(Hit(normalized[k], Normalized)); }
      }
      return None;
    }

    method ResolveLeaves(leaves: seq<Leaf>, reasons: seq<Reason>) returns (out: seq<Resolution>)
      requires Valid()
      ensures out == Outcomes(host, Take(Offered(events), capacity), reasons, leaves)
    {
      out := [];
      ghost var held := Take(Offered(events), capacity);
      for i := 0 to |leaves|
        invariant |out| == i && forall j :: 0 <= j < i ==>
          out[j] == Outcome(leaves[j], Find(host, held, leaves[j].value), reasons)
      {
        var hit := Search(leaves[i].value);
        out := out + [Outcome(leaves[i], hit, reasons)];
      }
    }

    method Resolve(args: Value) returns (r: Option<seq<Resolution>>)
      requires Valid()
      ensures r == LiveResolve(host, events, capacity, args)
    {
      var reasons := Unaddressed(gaps) + if saturated then [Cap(capacity)] else [];
      assert reasons == LiveReasons(events, capacity);
      var leaves := Leaves(args, Ascii("args"));
      if leaves.None? { return None; }
      var out := ResolveLeaves(leaves.value, reasons);
      return Some(out);
    }
  }

  // ---- What a prefix of the corpus can say ----

  lemma FoundPrefix(h: Host, held: seq<SourceLeaf>, more: seq<SourceLeaf>, key: Key)
    ensures Found(h, held, key).Some? ==> Found(h, held + more, key).Some?
    ensures Found(h, held, key).Some? && Found(h, held, key).value.via == Exact ==>
      Found(h, held + more, key) == Found(h, held, key)
  {
    ExactAppend(held, more);
    NormalAppend(h, held, more);
    FirstAppend(ExactClaims(held), ExactClaims(more), key);
    FirstAppend(NormalClaims(h, held), NormalClaims(h, more), key);
  }

  lemma {:induction false} FormsPrefix(h: Host, held: seq<SourceLeaf>, more: seq<SourceLeaf>, forms: seq<Scalar>)
    ensures FormHit(forms, k => From(Found(h, held, k))).Some? ==>
      FormHit(forms, k => From(Found(h, held + more, k))).Some?
  {
    if forms != [] {
      FoundPrefix(h, held, more, KeyFor(forms[0]));
      FormsPrefix(h, held, more, forms[1..]);
    }
  }

  lemma FormHitWeak(forms: seq<Scalar>, at: Key -> Option<Coordinate>)
    ensures FormHit(forms, at).Some? ==> FormHit(forms, at).value.via == Normalized
  {
  }

  /** More sources never unfind a value, and never move an exact match. */
  lemma FindPrefix(h: Host, held: seq<SourceLeaf>, more: seq<SourceLeaf>, v: Scalar)
    ensures Find(h, held, v).Some? ==> Find(h, held + more, v).Some?
    ensures Find(h, held, v).Some? && Find(h, held, v).value.via == Exact ==>
      Find(h, held + more, v) == Find(h, held, v)
  {
    FoundPrefix(h, held, more, KeyFor(v));
    FormsPrefix(h, held, more, NormalForms(h, v));
    FormHitWeak(NormalForms(h, v), k => From(Found(h, held, k)));
  }

  // ---- Main results ----

  /** Every source was parsed; what was not is a gap. */
  predicate Addressed(events: seq<Event>) {
    forall i :: 0 <= i < |events| && events[i].SourceAdded? ==> !events[i].value.Undefined?
  }

  lemma {:induction false} SameGaps(events: seq<Event>)
    requires Addressed(events)
    ensures GapIds(events) == Gaps(AsSources(events))
  {
    if events != [] {
      SameGaps(events[1..]);
      assert AsSources(events)[1..] == AsSources(events[1..]);
    }
  }

  /** Up to its capacity the live index is the batch index: same state, tier, coordinate and reason. */
  lemma LiveIsBatch(h: Host, events: seq<Event>, capacity: nat, args: Value)
    requires Addressed(events) && |Offered(events)| <= capacity
    ensures LiveResolve(h, events, capacity, args) == ResolveArgs(h, AsSources(events), [], args)
  {
    SameGaps(events);
  }

  lemma BatchOutcomes(h: Host, events: seq<Event>, args: Value)
    requires Guarded(args)
    ensures ResolveArgs(h, AsSources(events), [], args) ==
      Some(Outcomes(h, Offered(events), Unaddressed(Gaps(AsSources(events))), Walk(args, Ascii("args"))))
  {
    var reasons := Unaddressed(Gaps(AsSources(events)));
    assert reasons + [] == reasons;
  }

  lemma OutcomeWithin(h: Host, held: seq<SourceLeaf>, more: seq<SourceLeaf>, leaf: Leaf, few: seq<Reason>,
                      all: seq<Reason>)
    ensures var live, batch := Outcome(leaf, Find(h, held, leaf.value), few),
      Outcome(leaf, Find(h, held + more, leaf.value), all);
      && live.path == batch.path && (few != [] ==> !live.Authored?)
      && (live.Grounded? ==> batch.Grounded?) && (live.Grounded? && live.via == Exact ==> batch == live)
  {
    FindPrefix(h, held, more, leaf.value);
  }

  /** Beyond it, no absence is claimed, exact matches are the batch ones, and nothing is
      grounded that the batch does not ground. */
  lemma LiveWithinBatch(h: Host, events: seq<Event>, capacity: nat, args: Value, i: nat)
    requires Addressed(events) && Guarded(args)
    ensures LiveResolve(h, events, capacity, args).Some? && ResolveArgs(h, AsSources(events), [], args).Some?
    ensures var live, batch := LiveResolve(h, events, capacity, args).value,
      ResolveArgs(h, AsSources(events), [], args).value;
      |live| == |batch| && (i < |live| ==>
        && live[i].path == batch[i].path
        && (|Offered(events)| > capacity ==> !live[i].Authored?)
        && (live[i].Grounded? ==> batch[i].Grounded?)
        && (live[i].Grounded? && live[i].via == Exact ==> batch[i] == live[i]))
  {
    var offered := Offered(events);
    var held := Take(offered, capacity);
    var leaves := Walk(args, Ascii("args"));
    BatchOutcomes(h, events, args);
    if |offered| > capacity { assert LiveReasons(events, capacity) != []; }
    if i < |leaves| {
      assert offered == held + offered[|held|..];
      OutcomeWithin(h, held, offered[|held|..], leaves[i], LiveReasons(events, capacity),
                    Unaddressed(Gaps(AsSources(events))));
    }
  }

  /** An exact match is with the first leaf that holds the value or prints as it; there is
      none exactly when no leaf does. */
  lemma {:induction false} ExactIsFirst(ls: seq<SourceLeaf>, v: Scalar)
    ensures First(ExactClaims(ls), KeyFor(v)).None? <==> forall i :: 0 <= i < |ls| ==> v !in ExactForms(ls[i].value)
    ensures First(ExactClaims(ls), KeyFor(v)).Some? ==>
      exists j :: 0 <= j < |ls| && ls[j].from == First(ExactClaims(ls), KeyFor(v)).value && v in ExactForms(ls[j].value)
        && forall i :: 0 <= i < j ==> v !in ExactForms(ls[i].value)
  {
    if ls != [] {
      ExactIsFirst(ls[1..], v);
      FirstAppend(ExactOf(ls[0]), ExactClaims(ls[1..]), KeyFor(v));
      FormsClaim(ExactForms(ls[0].value), ls[0].from, v);
      assert forall i :: 0 < i < |ls| ==> ls[i] == ls[1..][i - 1];
      if v in ExactForms(ls[0].value) {
        assert ls[0].from == First(ExactClaims(ls), KeyFor(v)).value;
      } else if First(ExactClaims(ls), KeyFor(v)).Some? {
        var j :| 0 <= j < |ls[1..]|
          && ls[1..][j].from == First(ExactClaims(ls[1..]), KeyFor(v)).value && v in ExactForms(ls[1..][j].value)
          && forall i :: 0 <= i < j ==> v !in ExactForms(ls[1..][i].value);
        assert ls[j + 1] == ls[1..][j];
      }
    }
  }

  lemma {:induction false} FormsClaim<T>(forms: seq<Scalar>, hit: T, v: Scalar)
    ensures First(ClaimsOf(forms, hit), KeyFor(v)) == if v in forms then Some(hit) else None
  {
    if forms != [] {
      FormsClaim(forms[1..], hit, v);
      TagInjective(forms[0], v);
      assert ClaimsOf(forms, hit)[1..] == ClaimsOf(forms[1..], hit);
      assert forms == [forms[0]] + forms[1..];
    }
  }

  lemma {:induction false} NormalClaimed(h: Host, ls: seq<SourceLeaf>, v: Scalar)
    ensures First(NormalClaims(h, ls), KeyFor(v)).Some? <==> exists l :: l in ls && v in NormalForms(h, l.value)
  {
    if ls != [] {
      NormalClaimed(h, ls[1..], v);
      FirstAppend(NormalOf(h, ls[0]), NormalClaims(h, ls[1..]), KeyFor(v));
      FormsClaim(NormalForms(h, ls[0].value), ls[0].from, v);
      assert ls[0] in ls && (forall l :: l in ls <==> l == ls[0] || l in ls[1..]);
    }
  }

  /** A source leaf holds the value, prints as it, or normalizes to it in one hop. */
  predicate Offers(h: Host, l: SourceLeaf, v: Scalar) { v in ExactForms(l.value) || v in NormalForms(h, l.value) }

  lemma FoundExactly(h: Host, ls: seq<SourceLeaf>, v: Scalar)
    ensures Found(h, ls, KeyFor(v)).Some? <==> exists l :: l in ls && Offers(h, l, v)
  {
    ExactIsFirst(ls, v);
    NormalClaimed(h, ls, v);
    if l :| l in ls && v in ExactForms(l.value) { var i :| 0 <= i < |ls| && ls[i] == l; }
  }

  lemma {:induction false} FormFound(h: Host, ls: seq<SourceLeaf>, forms: seq<Scalar>)
    ensures FormHit(forms, k => From(Found(h, ls, k))).Some? <==>
      exists f, l :: f in forms && l in ls && Offers(h, l, f)
  {
    if forms != [] {
      FormFound(h, ls, forms[1..]);
      FoundExactly(h, ls, forms[0]);
      assert forall f :: f in forms <==> f == forms[0] || f in forms[1..];
    }
  }

  /** The leaf offers the value itself or one of its own one-hop forms. */
  ghost predicate Matches(h: Host, l: SourceLeaf, v: Scalar) {
    Offers(h, l, v) || exists f :: f in NormalForms(h, v) && Offers(h, l, f)
  }

  lemma FindExactly(h: Host, ls: seq<SourceLeaf>, v: Scalar)
    ensures Find(h, ls, v).None? <==> forall l :: l in ls ==> !Matches(h, l, v)
  {
    FoundExactly(h, ls, v);
    FormFound(h, ls, NormalForms(h, v));
  }

  /** Authored is earned: it is claimed exactly when the corpus has no gap and no leaf matches. */
  lemma {:induction false} AuthoredExactly(h: Host, sources: seq<Source>, corpusGap: Units, args: Value, i: nat)
    requires Guarded(args) && i < |Walk(args, Ascii("args"))|
    ensures ResolveArgs(h, sources, corpusGap, args).value[i].Authored? <==>
      && Gaps(sources) == [] && corpusGap == []
      && forall l :: l in SourceLeaves(sources) ==> !Matches(h, l, Walk(args, Ascii("args"))[i].value)
  {
    var v, ls := Walk(args, Ascii("args"))[i].value, SourceLeaves(sources);
    var reasons := Unaddressed(Gaps(sources)) + (if corpusGap == [] then [] else [Corpus(corpusGap)]);
    assert ResolveArgs(h, sources, corpusGap, args).value[i] ==
      Outcome(Walk(args, Ascii("args"))[i], Find(h, ls, v), reasons);
    assert |reasons| == |Gaps(sources)| + if corpusGap == [] then 0 else 1;
    FindExactly(h, ls, v);
  }
}
