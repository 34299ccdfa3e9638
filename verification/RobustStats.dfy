/** The statistics behind run-shape priors: median, median absolute deviation, and the rule
    that says when a run departs from its own history.  Numbers are exact reals. */
module RobustStats {

  // ---- Sorting ----

  function Insert(x: real, s: seq<real>): seq<real> {
    if s == [] || x <= s[0] then [x] + s else [s[0]] + Insert(x, s[1..])
  }

  function Sorted(s: seq<real>): (r: seq<real>)
    ensures |r| == |s|
  {
    if s == [] then [] else Inserted(s[0], Sorted(s[1..]))
  }

  function Inserted(x: real, s: seq<real>): (r: seq<real>)
    ensures |r| == |s| + 1
  {
    InsertLength(x, s);
    Insert(x, s)
  }

  lemma {:induction false} InsertLength(x: real, s: seq<real>)
    ensures |Insert(x, s)| == |s| + 1
  {
    if s != [] && x > s[0] { InsertLength(x, s[1..]); }
  }

  predicate Ascending(s: seq<real>) { forall i, j :: 0 <= i < j < |s| ==> s[i] <= s[j] }

  lemma {:induction false} InsertAscending(x: real, s: seq<real>)
    requires Ascending(s)
    ensures Ascending(Insert(x, s))
  {
    if s != [] && x > s[0] {
      InsertAscending(x, s[1..]);
      InsertMembers(x, s[1..]);
      var r := Insert(x, s[1..]);
      forall i | 0 <= i < |r| ensures s[0] <= r[i] { assert r[i] in r; }
    }
  }

  lemma {:induction false} InsertMembers(x: real, s: seq<real>)
    ensures forall y :: y in Insert(x, s) <==> y == x || y in s
  {
    if s != [] && x > s[0] {
      InsertMembers(x, s[1..]);
      assert s == [s[0]] + s[1..];
    }
  }

  lemma {:induction false} SortedAscending(s: seq<real>)
    ensures Ascending(Sorted(s))
  {
    if s != [] {
      SortedAscending(s[1..]);
      InsertAscending(s[0], Sorted(s[1..]));
    }
  }

  // ---- Counting ----

  function Bit(b: bool): nat { if b then 1 else 0 }

  function AtMost(s: seq<real>, x: real): nat { if s == [] then 0 else Bit(s[0] <= x) + AtMost(s[1..], x) }

  function AtLeast(s: seq<real>, x: real): nat { if s == [] then 0 else Bit(s[0] >= x) + AtLeast(s[1..], x) }

  function Equal(s: seq<real>, x: real): nat { if s == [] then 0 else Bit(s[0] == x) + Equal(s[1..], x) }

  lemma {:induction false} InsertCounts(y: real, s: seq<real>, x: real)
    ensures AtMost(Insert(y, s), x) == Bit(y <= x) + AtMost(s, x)
    ensures AtLeast(Insert(y, s), x) == Bit(y >= x) + AtLeast(s, x)
  {
    if s == [] || y <= s[0] {
      assert ([y] + s)[1..] == s;
    } else {
      InsertCounts(y, s[1..], x);
      assert ([s[0]] + Insert(y, s[1..]))[1..] == Insert(y, s[1..]);
    }
  }

  /** Sorting moves values and changes none. */
  lemma {:induction false} SortedCounts(s: seq<real>, x: real)
    ensures AtMost(Sorted(s), x) == AtMost(s, x) && AtLeast(Sorted(s), x) == AtLeast(s, x)
  {
    if s != [] {
      SortedCounts(s[1..], x);
      InsertCounts(s[0], Sorted(s[1..]), x);
    }
  }

  lemma {:induction false} RankBelow(s: seq<real>, k: nat, x: real)
    requires k < |s| && Ascending(s) && s[k] <= x
    ensures AtMost(s, x) >= k + 1
  {
    assert s[0] <= x;
    if k > 0 { RankBelow(s[1..], k - 1, x); }
  }

  lemma {:induction false} RankAbove(s: seq<real>, k: nat, x: real)
    requires k < |s| && Ascending(s) && s[k] >= x
    ensures AtLeast(s, x) >= |s| - k
  {
    if k > 0 {
      RankAbove(s[1..], k - 1, x);
    } else if |s| > 1 {
      RankAbove(s[1..], 0, x);
    } else {
      assert AtLeast(s[1..], x) == 0;
    }
  }

  // ---- Median ----

  /** The middle value, or midway between the two middle ones. */
  function Median(values: seq<real>): real
    requires values != []
  {
    var sorted := Sorted(values);
    var mid := |sorted| / 2;
    if |sorted| % 2 == 1 then sorted[mid] else (sorted[mid - 1] + sorted[mid]) / 2.0
  }

  /** At least half the sample lies on each side of the median, itself included. */
  lemma {:induction false} MedianHalves(values: seq<real>)
    requires values != []
    ensures 2 * AtMost(values, Median(values)) >= |values|
    ensures 2 * AtLeast(values, Median(values)) >= |values|
  {
    var s, m := Sorted(values), Median(values);
    var mid := |s| / 2;
    SortedAscending(values);
    SortedCounts(values, m);
    if |s| % 2 == 1 {
      RankBelow(s, mid, m);
      RankAbove(s, mid, m);
    } else {
      assert s[mid - 1] <= s[mid];
      RankBelow(s, mid - 1, m);
      RankAbove(s, mid, m);
    }
  }

  // ---- Breakdown bound ----

  /** How many values were replaced. */
  function Replaced(a: seq<real>, b: seq<real>): nat
    requires |a| == |b|
  {
    if a == [] then 0 else Bit(a[0] != b[0]) + Replaced(a[1..], b[1..])
  }

  predicate Untouched(a: seq<real>, b: seq<real>, i: nat)
    requires |a| == |b|
  {
    i < |a| && a[i] == b[i]
  }

  lemma {:induction false} UntouchedBelow(a: seq<real>, b: seq<real>, x: real) returns (i: nat)
    requires |a| == |b| && AtMost(b, x) > Replaced(a, b)
    ensures Untouched(a, b, i) && a[i] <= x
  {
    if a[0] == b[0] <= x {
      i := 0;
    } else {
      i := UntouchedBelow(a[1..], b[1..], x);
      i := i + 1;
    }
  }

  lemma {:induction false} UntouchedAbove(a: seq<real>, b: seq<real>, x: real) returns (i: nat)
    requires |a| == |b| && AtLeast(b, x) > Replaced(a, b)
    ensures Untouched(a, b, i) && a[i] >= x
  {
    if a[0] == b[0] >= x {
      i := 0;
    } else {
      i := UntouchedAbove(a[1..], b[1..], x);
      i := i + 1;
    }
  }

  /** With fewer than half the values replaced, by anything, the median stays between two of the others. */
  lemma {:induction false} Breakdown(a: seq<real>, b: seq<real>)
    requires |a| == |b| && b != [] && 2 * Replaced(a, b) < |a|
    ensures exists i: nat, j: nat :: Untouched(a, b, i) && Untouched(a, b, j) && a[i] <= Median(b) <= a[j]
  {
    MedianHalves(b);
    var i := UntouchedBelow(a, b, Median(b));
    var j := UntouchedAbove(a, b, Median(b));
  }

  function Copies(v: real, k: nat): (r: seq<real>)
    ensures |r| == k
  {
    if k == 0 then [] else [v] + Copies(v, k - 1)
  }

  lemma {:induction false} CopiesCount(v: real, k: nat, s: seq<real>, x: real)
    ensures AtMost(Copies(v, k) + s, x) == (if v <= x then k else 0) + AtMost(s, x)
    ensures AtLeast(Copies(v, k) + s, x) == (if v >= x then k else 0) + AtLeast(s, x)
  {
    if k == 0 {
      assert Copies(v, 0) + s == s;
    } else {
      CopiesCount(v, k - 1, s, x);
      assert (Copies(v, k) + s)[1..] == Copies(v, k - 1) + s;
    }
  }

  lemma {:induction false} CopiesReplace(v: real, a: seq<real>, k: nat)
    requires k <= |a| && v !in a
    ensures Replaced(a, Copies(v, k) + a[k..]) == k
  {
    if k == 0 {
      assert Copies(v, 0) + a[0..] == a;
      ReplacedNone(a);
    } else {
      CopiesReplace(v, a[1..], k - 1);
      assert (Copies(v, k) + a[k..])[1..] == Copies(v, k - 1) + a[1..][k - 1..];
    }
  }

  lemma {:induction false} ReplacedNone(a: seq<real>)
    ensures Replaced(a, a) == 0
  {
    if a != [] { ReplacedNone(a[1..]); }
  }

  lemma {:induction false} AllAtMost(s: seq<real>, x: real)
    requires forall y :: y in s ==> y <= x
    ensures AtMost(s, x) == |s|
  {
    if s != [] {
      assert s[0] in s && forall y :: y in s[1..] ==> y in s;
      AllAtMost(s[1..], x);
    }
  }

  lemma {:induction false} MemberCounts(s: seq<real>, x: real)
    requires x in s
    ensures AtLeast(s, x) >= 1
  {
    if s[0] != x { MemberCounts(s[1..], x); }
  }

  function Largest(s: seq<real>): (m: real)
    requires s != []
    ensures m in s && forall y :: y in s ==> y <= m
  {
    if |s| == 1 then s[0]
    else
      var m := Largest(s[1..]);
      assert s == [s[0]] + s[1..];
      if s[0] >= m then s[0] else m
  }

  /** In an ascending list a count fixes a place. */
  lemma {:induction false} PlaceBelow(s: seq<real>, k: nat, x: real)
    requires k < |s| && Ascending(s) && AtMost(s, x) >= k + 1
    ensures s[k] <= x
  {
    if k > 0 {
      PlaceBelow(s[1..], k - 1, x);
    } else if s[0] > x {
      NoneAtMost(s, x);
    }
  }

  lemma {:induction false} NoneAtMost(s: seq<real>, x: real)
    requires forall i :: 0 <= i < |s| ==> s[i] > x
    ensures AtMost(s, x) == 0
  {
    if s != [] { NoneAtMost(s[1..], x); }
  }

  lemma {:induction false} PlaceAbove(s: seq<real>, k: nat, x: real)
    requires k < |s| && Ascending(s) && AtLeast(s, x) >= |s| - k
    ensures s[k] >= x
  {
    if k > 0 {
      if s[0] < x {
        PlaceAbove(s[1..], k - 1, x);
      }
    } else if s[0] < x {
      AtLeastBound(s[1..], x);
    }
  }

  lemma {:induction false} AtLeastBound(s: seq<real>, x: real)
    ensures AtLeast(s, x) <= |s|
  {
    if s != [] { AtLeastBound(s[1..], x); }
  }

  lemma PlaceIs(b: seq<real>, k: nat, x: real)
    requires k < |b| && AtMost(b, x) >= k + 1 && AtLeast(b, x) >= |b| - k
    ensures Sorted(b)[k] == x
  {
    SortedAscending(b);
    SortedCounts(b, x);
    PlaceBelow(Sorted(b), k, x);
    PlaceAbove(Sorted(b), k, x);
  }

  /** Half is too many, for every sample: half of the values, rounded up, can drag the median beyond all of
      them and as far as wanted. */
  lemma {:induction false} HalfBreaks(a: seq<real>, target: real) returns (b: seq<real>)
    requires a != [] && forall x :: x in a ==> x < target
    ensures |b| == |a| && Replaced(a, b) == (|a| + 1) / 2 && Median(b) == target
  {
    if |a| % 2 == 1 {
      b := OddBreaks(a, |a| / 2, target);
    } else {
      b := EvenBreaks(a, |a| / 2, target);
    }
  }

  lemma OddBreaks(a: seq<real>, m: nat, target: real) returns (b: seq<real>)
    requires |a| == 2 * m + 1 && forall x :: x in a ==> x < target
    ensures |b| == |a| && Replaced(a, b) == m + 1 && Median(b) == target
  {
    var rest := a[m + 1..];
    forall y | y in rest ensures y < target { assert y in a; }
    b := WithCopies(a, m + 1, target);
    MajorityOfCopies(target, rest);
  }

  lemma EvenBreaks(a: seq<real>, m: nat, target: real) returns (b: seq<real>)
    requires |a| == 2 * m && m > 0 && forall x :: x in a ==> x < target
    ensures |b| == |a| && Replaced(a, b) == m && Median(b) == target
  {
    var rest := a[m..];
    assert forall y :: y in rest ==> y in a;
    var v := 2.0 * target - Largest(rest);
    b := WithCopies(a, m, v);
    HalfOfCopies(v, rest);
  }

  lemma WithCopies(a: seq<real>, k: nat, v: real) returns (b: seq<real>)
    requires k <= |a| && forall x :: x in a ==> x < v
    ensures b == Copies(v, k) + a[k..] && |b| == |a| && Replaced(a, b) == k
  {
    b := Copies(v, k) + a[k..];
    CopiesReplace(v, a, k);
  }

  lemma MajorityOfCopies(v: real, rest: seq<real>)
    requires forall y :: y in rest ==> y < v
    ensures Median(Copies(v, |rest| + 1) + rest) == v
  {
    var b := Copies(v, |rest| + 1) + rest;
    CopiesCount(v, |rest| + 1, rest, v);
    AllAtMost(rest, v);
    PlaceIs(b, |rest|, v);
    assert |b| / 2 == |rest|;
  }

  lemma HalfOfCopies(v: real, rest: seq<real>)
    requires rest != [] && forall y :: y in rest ==> y < v
    ensures Median(Copies(v, |rest|) + rest) == (Largest(rest) + v) / 2.0
  {
    UpperMiddle(v, rest);
    LowerMiddle(v, rest);
    assert |Copies(v, |rest|) + rest| == 2 * |rest|;
  }

  lemma UpperMiddle(v: real, rest: seq<real>)
    requires rest != [] && forall y :: y in rest ==> y < v
    ensures Sorted(Copies(v, |rest|) + rest)[|rest|] == v
  {
    CopiesCount(v, |rest|, rest, v);
    AllAtMost(rest, v);
    PlaceIs(Copies(v, |rest|) + rest, |rest|, v);
  }

  lemma LowerMiddle(v: real, rest: seq<real>)
    requires rest != [] && forall y :: y in rest ==> y < v
    ensures Sorted(Copies(v, |rest|) + rest)[|rest| - 1] == Largest(rest)
  {
    var low := Largest(rest);
    CopiesCount(v, |rest|, rest, low);
    AllAtMost(rest, low);
    MemberCounts(rest, low);
    PlaceIs(Copies(v, |rest|) + rest, |rest| - 1, low);
  }

  // ---- Spread ----

  function Abs(x: real): real { if x < 0.0 then -x else x }

  function Deviations(values: seq<real>, center: real): seq<real> {
    seq(|values|, i requires 0 <= i < |values| => Abs(values[i] - center))
  }

  function MedianAbsoluteDeviation(values: seq<real>): real
    requires values != []
  {
    Median(Deviations(values, Median(values)))
  }

  function Within(values: seq<real>, center: real, radius: real): nat {
    if values == [] then 0
    else Bit(center - radius <= values[0] <= center + radius) + Within(values[1..], center, radius)
  }

  lemma {:induction false} WithinIsAtMost(values: seq<real>, center: real, radius: real)
    ensures Within(values, center, radius) == AtMost(Deviations(values, center), radius)
  {
    if values != [] {
      WithinIsAtMost(values[1..], center, radius);
      assert Deviations(values, center)[1..] == Deviations(values[1..], center);
    }
  }

  /** At least half the sample lies within one MAD of the median. */
  lemma {:induction false} HalfWithinMad(values: seq<real>)
    requires values != []
    ensures 2 * Within(values, Median(values), MedianAbsoluteDeviation(values)) >= |values|
  {
    MedianHalves(Deviations(values, Median(values)));
    WithinIsAtMost(values, Median(values), MedianAbsoluteDeviation(values));
  }

  lemma {:induction false} ApartFrom(values: seq<real>, c: real, x: real)
    ensures x < c ==> AtMost(values, x) + Equal(values, c) <= |values|
    ensures x > c ==> AtLeast(values, x) + Equal(values, c) <= |values|
  {
    if values != [] { ApartFrom(values[1..], c, x); }
  }

  lemma MajorityIsMedian(values: seq<real>, c: real)
    requires values != [] && 2 * Equal(values, c) > |values|
    ensures Median(values) == c
  {
    MedianHalves(values);
    ApartFrom(values, c, Median(values));
  }

  lemma {:induction false} EqualDeviations(values: seq<real>, c: real)
    ensures Equal(Deviations(values, c), 0.0) == Equal(values, c)
  {
    if values != [] {
      EqualDeviations(values[1..], c);
      assert Deviations(values, c)[1..] == Deviations(values[1..], c);
    }
  }

  /** When most of the window agrees, that value is the center and the spread is zero. */
  lemma MajorityHasNoSpread(values: seq<real>, c: real)
    requires values != [] && 2 * Equal(values, c) > |values|
    ensures Median(values) == c && MedianAbsoluteDeviation(values) == 0.0
  {
    MajorityIsMedian(values, c);
    EqualDeviations(values, c);
    MajorityIsMedian(Deviations(values, c), 0.0);
  }

  // ---- The deviation rule ----

  datatype Baseline = Baseline(median: real, mad: real, min: real, max: real, n: nat)

  function Max(values: seq<real>): (m: real)
    requires values != []
    ensures m in values && forall v :: v in values ==> v <= m
  {
    if |values| == 1 then values[0]
    else
      var m := Max(values[1..]);
      assert values == [values[0]] + values[1..];
      if values[0] >= m then values[0] else m
  }

  function Min(values: seq<real>): (m: real)
    requires values != []
    ensures m in values && forall v :: v in values ==> m <= v
  {
    if |values| == 1 then values[0]
    else
      var m := Min(values[1..]);
      assert values == [values[0]] + values[1..];
      if values[0] <= m then values[0] else m
  }

  function BaselineOf(values: seq<real>): Baseline
    requires values != []
  {
    Baseline(Median(values), MedianAbsoluteDeviation(values), Min(values), Max(values), |values|)
  }

  const DEVIATION_MADS := 3.0

  /** `high` is for a measurement still running, which passes through every lower value. */
  predicate Deviates(latest: real, b: Baseline, high: bool) {
    var above := if latest > b.max then latest - b.max else 0.0;
    var below := if high || latest >= b.min then 0.0 else b.min - latest;
    (if above >= below then above else below) > DEVIATION_MADS * b.mad
  }

  lemma {:induction false} DeviationsNonNegative(values: seq<real>)
    requires values != []
    ensures MedianAbsoluteDeviation(values) >= 0.0
  {
    var d := Deviations(values, Median(values));
    MedianHalves(d);
    if Median(d) < 0.0 { NoneNegative(d, Median(d)); }
  }

  lemma {:induction false} NoneNegative(s: seq<real>, x: real)
    requires x < 0.0 && forall i :: 0 <= i < |s| ==> s[i] >= 0.0
    ensures AtMost(s, x) == 0
  {
    if s != [] { NoneNegative(s[1..], x); }
  }

  /** A value deviates exactly when it is more than three MADs outside the range the window
      spanned; so never one the window holds. */
  lemma DeviatesExactly(latest: real, values: seq<real>, high: bool)
    requires values != []
    ensures var b := BaselineOf(values);
      Deviates(latest, b, high) <==> latest > b.max + 3.0 * b.mad || (!high && latest < b.min - 3.0 * b.mad)
    ensures Deviates(latest, BaselineOf(values), high) ==> latest !in values
  {
    DeviationsNonNegative(values);
  }

  /** When most of the window agrees, the rule is: outside everything the window did. */
  lemma {:induction false} MajorityRule(latest: real, values: seq<real>, c: real)
    requires values != [] && 2 * Equal(values, c) > |values|
    ensures Deviates(latest, BaselineOf(values), false) <==>
      (forall v :: v in values ==> latest > v) || (forall v :: v in values ==> latest < v)
  {
    MajorityHasNoSpread(values, c);
    DeviatesExactly(latest, values, false);
  }
}
