/** The order in which a canonical object lists its members, told on the keys themselves: array
    indices first and by value, then every other key as `sort()` puts strings. */
module CanonicalOrder {
  import opened Wrappers
  import opened CanonicalJson

  // ---- Decimal numbers ----

  /** What a number prints as. */
  function Printed(n: nat): Units {
    if n < 10 then [48 + n] else Printed(n / 10) + [48 + n % 10]
  }

  function ValueOf(s: Units): nat
    requires AllDigits(s)
  {
    if s == [] then 0 else 10 * ValueOf(s[..|s| - 1]) + (s[|s| - 1] - 48)
  }

  function Pow10(n: nat): nat { if n == 0 then 1 else 10 * Pow10(n - 1) }

  predicate NoLeadingZero(s: Units) { s != [] && (s[0] == 48 ==> |s| == 1) }

  lemma {:induction false} PrintedIsNumber(n: nat)
    ensures var s := Printed(n); AllDigits(s) && s != [] && ValueOf(s) == n && (s[0] == 48 ==> n == 0 && |s| == 1)
  {
    var s := Printed(n);
    if n >= 10 {
      PrintedIsNumber(n / 10);
      assert s[..|s| - 1] == Printed(n / 10);
    } else {
      assert s[..0] == [];
    }
  }

  lemma LastDigit(q: nat, d: nat)
    requires q > 0 && d < 10
    ensures Printed(10 * q + d) == Printed(q) + [48 + d]
  {
    assert (10 * q + d) / 10 == q && (10 * q + d) % 10 == d;
  }

  lemma ValueSnoc(s: Units, u: nat)
    requires AllDigits(s) && 48 <= u <= 57
    ensures AllDigits(s + [u]) && ValueOf(s + [u]) == 10 * ValueOf(s) + (u - 48)
  {
    assert (s + [u])[..|s|] == s;
  }

  lemma PrintedSnoc(s: Units, u: nat)
    requires AllDigits(s) && 48 <= u <= 57 && Printed(ValueOf(s)) == s && ValueOf(s) > 0
    ensures ValueOf(s + [u]) > 0 && Printed(ValueOf(s + [u])) == s + [u]
  {
    ValueSnoc(s, u);
    LastDigit(ValueOf(s), u - 48);
  }

  lemma OneDigit(s: Units)
    requires AllDigits(s) && |s| == 1
    ensures Printed(ValueOf(s)) == s && (s[0] != 48 ==> ValueOf(s) > 0)
  {
    assert s[..0] == [] && s == [s[0]];
  }

  lemma {:induction false} NumberIsPrinted(s: Units)
    requires AllDigits(s) && NoLeadingZero(s)
    ensures Printed(ValueOf(s)) == s && (s[0] != 48 ==> ValueOf(s) > 0)
  {
    if |s| == 1 {
      OneDigit(s);
    } else {
      var init, last := s[..|s| - 1], s[|s| - 1];
      assert s == init + [last] && init[0] == s[0] != 48;
      NumberIsPrinted(init);
      PrintedSnoc(init, last);
    }
  }

  lemma {:induction false} ValueBelow(s: Units)
    requires AllDigits(s)
    ensures ValueOf(s) < Pow10(|s|)
  {
    if s != [] { ValueBelow(s[..|s| - 1]); }
  }

  lemma {:induction false} ValueAtLeast(s: Units)
    requires AllDigits(s) && s != [] && s[0] != 48
    ensures Pow10(|s| - 1) <= ValueOf(s)
  {
    if |s| > 1 { ValueAtLeast(s[..|s| - 1]); }
  }

  lemma {:induction false} PowGrows(m: nat, n: nat)
    requires m <= n
    ensures Pow10(m) <= Pow10(n)
  {
    if m < n { PowGrows(m, n - 1); }
  }

  /** A longer number is larger. */
  lemma LongerIsLarger(a: Units, b: Units)
    requires AllDigits(a) && AllDigits(b) && |a| < |b| && b[0] != 48
    ensures ValueOf(a) < ValueOf(b)
  {
    ValueBelow(a);
    PowGrows(|a|, |b| - 1);
    ValueAtLeast(b);
  }

  lemma {:induction false} LexSnoc(a: Units, b: Units, x: nat, y: nat)
    requires |a| == |b|
    ensures LexLess(a + [x], b + [y]) <==> LexLess(a, b) || (a == b && x < y)
  {
    if a != [] {
      LexSnoc(a[1..], b[1..], x, y);
      assert (a + [x])[1..] == a[1..] + [x] && (b + [y])[1..] == b[1..] + [y];
      assert a == [a[0]] + a[1..] && b == [b[0]] + b[1..];
    }
  }

  /** Of two numbers of one length the smaller is the one that sorts first. */
  lemma {:induction false} LexIsNumeric(a: Units, b: Units)
    requires AllDigits(a) && AllDigits(b) && |a| == |b|
    ensures LexLess(a, b) <==> ValueOf(a) < ValueOf(b)
    ensures ValueOf(a) == ValueOf(b) ==> a == b
  {
    if a != [] {
      var k := |a| - 1;
      LexIsNumeric(a[..k], b[..k]);
      LexSnoc(a[..k], b[..k], a[k], b[k]);
      assert a == a[..k] + [a[k]] && b == b[..k] + [b[k]];
    }
  }

  // ---- Array indices ----

  const MAX_INDICES := 0xFFFF_FFFF

  /** The key of an array element. */
  ghost predicate Indexed(s: Units) { exists n: nat :: n < MAX_INDICES && s == Printed(n) }

  lemma LimitValue()
    ensures AllDigits(LIMIT) && ValueOf(LIMIT) == MAX_INDICES
  {
    UpperHalf();
    var half := [52, 50, 57, 52, 57];
    ValueSnoc(half, 54);
    ValueSnoc(half + [54], 55);
    ValueSnoc(half + [54] + [55], 50);
    ValueSnoc(half + [54] + [55] + [50], 57);
    ValueSnoc(half + [54] + [55] + [50] + [57], 53);
    assert half + [54] + [55] + [50] + [57] + [53] == LIMIT;
  }

  lemma UpperHalf()
    ensures AllDigits([52, 50, 57, 52, 57]) && ValueOf([52, 50, 57, 52, 57]) == 42949
  {
    ValueSnoc([], 52);
    ValueSnoc([] + [52], 50);
    ValueSnoc([] + [52] + [50], 57);
    ValueSnoc([] + [52] + [50] + [57], 52);
    ValueSnoc([] + [52] + [50] + [57] + [52], 57);
    assert [] + [52] + [50] + [57] + [52] + [57] == [52, 50, 57, 52, 57];
  }

  lemma BelowLimit(s: Units)
    requires AllDigits(s) && NoLeadingZero(s)
    ensures ValueOf(s) < MAX_INDICES <==> |s| < 10 || (|s| == 10 && LexLess(s, LIMIT))
  {
    LimitValue();
    if |s| < 10 { LongerIsLarger(s, LIMIT); }
    else if |s| == 10 { LexIsNumeric(s, LIMIT); }
    else { LongerIsLarger(LIMIT, s); }
  }

  lemma IndexExactly(s: Units)
    ensures IsIndex(s) <==> Indexed(s)
  {
    if AllDigits(s) && NoLeadingZero(s) {
      NumberIsPrinted(s);
      BelowLimit(s);
    }
    if n: nat :| n < MAX_INDICES && s == Printed(n) { PrintedIsNumber(n); }
  }

  /** Two indices in numeric order. */
  ghost predicate NumbersAscend(a: Units, b: Units) {
    exists m: nat, n: nat :: m < n < MAX_INDICES && a == Printed(m) && b == Printed(n)
  }

  lemma NumericOrder(a: Units, b: Units)
    requires IsIndex(a) && IsIndex(b)
    ensures KeyLess(a, b) <==> NumbersAscend(a, b)
  {
    NumberIsPrinted(a);
    NumberIsPrinted(b);
    BelowLimit(b);
    if |a| == |b| { LexIsNumeric(a, b); }
    else if |a| < |b| { LongerIsLarger(a, b); }
    else { LongerIsLarger(b, a); }
    if m: nat, n: nat :| m < n < MAX_INDICES && a == Printed(m) && b == Printed(n) {
      PrintedIsNumber(m);
      PrintedIsNumber(n);
    }
  }

  // ---- Every other key ----

  /** At unit i the two differ for the first time, and a has the smaller one. */
  predicate SmallerAt(a: Units, b: Units, i: nat) { i < |a| && i < |b| && a[..i] == b[..i] && a[i] < b[i] }

  /** One key is a proper prefix of the other, or has the smaller unit where they first differ. */
  ghost predicate StringsAscend(a: Units, b: Units) { a < b || exists i: nat :: SmallerAt(a, b, i) }

  lemma {:induction false} LexExactly(a: Units, b: Units)
    ensures LexLess(a, b) <==> StringsAscend(a, b)
  {
    if a != [] && b != [] {
      LexExactly(a[1..], b[1..]);
      if i: nat :| SmallerAt(a, b, i) {
        if i > 0 {
          assert a[..i][0] == b[..i][0] && a[1..][..i - 1] == a[..i][1..] && b[1..][..i - 1] == b[..i][1..];
          assert SmallerAt(a[1..], b[1..], i - 1);
        }
      } else if a[0] < b[0] {
        assert SmallerAt(a, b, 0);
      }
      if a[0] == b[0] {
        if i: nat :| SmallerAt(a[1..], b[1..], i) {
          assert a[..i + 1] == [a[0]] + a[1..][..i] && b[..i + 1] == [b[0]] + b[1..][..i];
          assert SmallerAt(a, b, i + 1);
        }
        PrefixTail(a, b);
      }
    }
  }

  lemma PrefixTail(a: Units, b: Units)
    requires a != [] && b != [] && a[0] == b[0]
    ensures a < b <==> a[1..] < b[1..]
  {
    assert a == [a[0]] + a[1..] && b == [b[0]] + b[1..];
  }

  // ---- The members of a canonical object ----

  /** Indices come first and by value; then the other keys, in the order of their code units. */
  ghost predicate Ascend(a: Units, b: Units) {
    if Indexed(a) && Indexed(b) then NumbersAscend(a, b)
    else if Indexed(a) || Indexed(b) then Indexed(a)
    else StringsAscend(a, b)
  }

  lemma KeyLessExactly(a: Units, b: Units)
    ensures KeyLess(a, b) <==> Ascend(a, b)
  {
    IndexExactly(a);
    IndexExactly(b);
    if IsIndex(a) && IsIndex(b) { NumericOrder(a, b); }
    LexExactly(a, b);
  }

  /** So a canonical object lists its members, whatever the order they were written in. */
  lemma MembersAscend(ms: seq<Entry>, i: nat, j: nat)
    requires DistinctKeys(ms) && i < j < |Normal(Obj(ms)).members|
    ensures var out := Normal(Obj(ms)).members; Ascend(out[i].key, out[j].key)
  {
    NormalMembersCorrect(ms, []);
    KeyLessExactly(Normal(Obj(ms)).members[i].key, Normal(Obj(ms)).members[j].key);
  }
}
