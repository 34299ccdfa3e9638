/** `extractFirstJson`: find the first JSON object or array in a model's answer by scanning
    brackets with a stack, ignoring those inside strings. */
module Scanner {
  import opened Wrappers
  import opened Sequences

  // ---- The scanner ----

  predicate Opener(c: char) { c == '{' || c == '[' }
  predicate Closer(c: char) { c == '}' || c == ']' }
  function CloserOf(c: char): char { if c == '{' then '}' else ']' }

  /** The closers still awaited, innermost last. */
  datatype Scan = Scan(stack: seq<char>, inString: bool, escaped: bool)
  datatype Verdict = Go(scan: Scan) | Malformed | Complete

  function Next(st: Scan, c: char): Verdict {
    if st.inString then
      if st.escaped then Go(st.(escaped := false))
      else if c == '\\' then Go(st.(escaped := true))
      else if c == '"' then Go(st.(inString := false))
      else Go(st)
    else if c == '"' then Go(st.(inString := true))
    else if Opener(c) then Go(st.(stack := st.stack + [CloserOf(c)]))
    else if Closer(c) then
      if st.stack == [] || st.stack[|st.stack| - 1] != c then Malformed
      else if |st.stack| == 1 then Complete
      else Go(st.(stack := st.stack[..|st.stack| - 1]))
    else Go(st)
  }

  /** How many characters are read until the outermost bracket closes. */
  function Scanned(st: Scan, s: string): (r: Option<nat>)
    ensures r.Some? ==> 0 < r.value <= |s|
    decreases |s|
  {
    if s == [] then None
    else
      match Next(st, s[0])
      case Malformed => None
      case Complete => Some(1)
      case Go(next) => (var r := Scanned(next, s[1..]); if r.None? then None else Some(r.value + 1))
  }

  function FirstOpener(s: string): (i: nat)
    ensures i <= |s| && (i < |s| ==> Opener(s[i])) && forall j :: 0 <= j < i ==> !Opener(s[j])
  {
    if s == [] || Opener(s[0]) then 0
    else
      var i := FirstOpener(s[1..]);
      assert forall j :: 0 < j < i + 1 ==> s[j] == s[1..][j - 1];
      i + 1
  }

  const OUTSIDE := Scan([], false, false)

  function Extract(s: string): Option<string> {
    var start := FirstOpener(s);
    var r := Scanned(OUTSIDE, s[start..]);
    if r.None? then None else Some(s[start..start + r.value])
  }

  function Plus(n: nat, r: Option<nat>): Option<nat> { if r.None? then None else Some(n + r.value) }

  lemma PlusPlus(m: nat, n: nat, r: Option<nat>)
    ensures Plus(m, Plus(n, r)) == Plus(m + n, r)
  {
  }

  lemma ScanStep(st: Scan, c: char, rest: string)
    ensures Scanned(st, [c] + rest) ==
      match Next(st, c) case Malformed => None case Complete => Some(1) case Go(t) => Plus(1, Scanned(t, rest))
  {
    assert ([c] + rest)[1..] == rest;
  }

  /** What follows the closing bracket on top of the stack. */
  function After(outer: seq<char>, n: nat, rest: string): Option<nat> {
    if outer == [] then Some(n) else Plus(n, Scanned(Scan(outer, false, false), rest))
  }

  /** The whole count, from state st at position i on. */
  function CountFrom(st: Scan, text: string, start: nat, i: nat): Option<nat>
    requires start <= i <= |text|
  {
    Plus(i - start, Scanned(st, text[i..]))
  }

  lemma ScanAt(st: Scan, text: string, start: nat, i: nat)
    requires start <= i < |text|
    ensures Next(st, text[i]).Malformed? ==> CountFrom(st, text, start, i) == None
    ensures Next(st, text[i]).Complete? ==> CountFrom(st, text, start, i) == Some(i + 1 - start)
    ensures Next(st, text[i]).Go? ==>
      CountFrom(st, text, start, i) == CountFrom(Next(st, text[i]).scan, text, start, i + 1)
  {
    assert text[i..] == [text[i]] + text[i + 1..];
    ScanStep(st, text[i], text[i + 1..]);
    if Next(st, text[i]).Go? { PlusPlus(i - start, 1, Scanned(Next(st, text[i]).scan, text[i + 1..])); }
  }

  method FindOpener(text: string) returns (start: nat)
    ensures start == FirstOpener(text)
  {
    start := 0;
    while start < |text| && !Opener(text[start])
      invariant start <= |text| && FirstOpener(text) == start + FirstOpener(text[start..])
    {
      assert text[start..][1..] == text[start + 1..];
      start := start + 1;
    }
  }

  method ExtractFirstJson(text: string) returns (r: Option<string>)
    ensures r == Extract(text)
  {
    var start := FindOpener(text);
    if start == |text| { return None; }
    var stack: seq<char> := [];
    var inString, escaped := false, false;
    var i := start;
    ghost var whole := Scanned(OUTSIDE, text[start..]);
    while i < |text|
      invariant start <= i <= |text|
      invariant whole == CountFrom(Scan(stack, inString, escaped), text, start, i)
    {
      var ch := text[i];
      ghost var verdict := Next(Scan(stack, inString, escaped), ch);
      ScanAt(Scan(stack, inString, escaped), text, start, i);
      i := i + 1;
      if inString {
        if escaped {
          escaped := false;
        } else if ch == '\\' {
          escaped := true;
        } else if ch == '"' {
          inString := false;
        }
      } else if ch == '"' {
        inString := true;
      } else if Opener(ch) {
        stack := stack + [CloserOf(ch)];
      } else if Closer(ch) {
        if stack == [] || stack[|stack| - 1] != ch { return None; }
        stack := stack[..|stack| - 1];
        if stack == [] {
          assert whole == Some(i - start);
          return Some(text[start..i]);
        }
      }
      assert verdict == Go(Scan(stack, inString, escaped));
    }
    return None;
  }

  // ---- Nesting, without a scanner ----

  datatype Quotable = Plain(c: char) | Escape(c: char)

  /** Text outside strings: single characters, strings and bracketed groups. */
  datatype Piece = Other(c: char) | Quoted(body: seq<Quotable>) | Group(open: char, inner: seq<Piece>)

  predicate ValidQuotable(q: Quotable) { q.Plain? ==> q.c != '"' && q.c != '\\' }

  predicate ValidBody(body: seq<Quotable>) { forall i :: 0 <= i < |body| ==> ValidQuotable(body[i]) }

  predicate ValidPiece(p: Piece) {
    match p
    case Other(c) => c != '"' && !Opener(c) && !Closer(c)
    case Quoted(body) => ValidBody(body)
    case Group(open, inner) => Opener(open) && forall i :: 0 <= i < |inner| ==> ValidPiece(inner[i])
  }

  predicate ValidPieces(ps: seq<Piece>) { forall i :: 0 <= i < |ps| ==> ValidPiece(ps[i]) }

  function QuotableText(q: Quotable): string { if q.Plain? then [q.c] else ['\\', q.c] }

  function BodyText(body: seq<Quotable>): string {
    if body == [] then [] else QuotableText(body[0]) + BodyText(body[1..])
  }

  function PieceText(p: Piece): string
    decreases p, 1
  {
    match p
    case Other(c) => [c]
    case Quoted(body) => ['"'] + (BodyText(body) + ['"'])
    case Group(open, inner) => [open] + (PiecesText(inner) + [CloserOf(open)])
  }

  function PiecesText(ps: seq<Piece>): string
    decreases ps, 0
  {
    if ps == [] then [] else PieceText(ps[0]) + PiecesText(ps[1..])
  }

  /** A balanced bracketed text: a group, its brackets matched outside strings. */
  ghost predicate WellNested(s: string) { exists g: Piece :: g.Group? && ValidPiece(g) && PieceText(g) == s }

  // ---- Nested text is scanned through ----

  lemma OpenStep(stack: seq<char>, open: char, rest: string)
    requires Opener(open)
    ensures Scanned(Scan(stack, false, false), [open] + rest) ==
      Plus(1, Scanned(Scan(stack + [CloserOf(open)], false, false), rest))
  {
    ScanStep(Scan(stack, false, false), open, rest);
  }

  lemma CloseStep(outer: seq<char>, top: char, c: char, rest: string)
    requires Closer(c)
    ensures Scanned(Scan(outer + [top], false, false), [c] + rest) == if c == top then After(outer, 1, rest) else None
  {
    ScanStep(Scan(outer + [top], false, false), c, rest);
    assert (outer + [top])[..|outer|] == outer;
  }

  lemma QuotableScans(stack: seq<char>, q: Quotable, rest: string)
    requires ValidQuotable(q)
    ensures Scanned(Scan(stack, true, false), QuotableText(q) + rest) ==
      Plus(|QuotableText(q)|, Scanned(Scan(stack, true, false), rest))
  {
    if q.Plain? {
      ScanStep(Scan(stack, true, false), q.c, rest);
    } else {
      assert QuotableText(q) + rest == ['\\'] + ([q.c] + rest);
      ScanStep(Scan(stack, true, false), '\\', [q.c] + rest);
      ScanStep(Scan(stack, true, true), q.c, rest);
    }
  }

  lemma {:induction false} BodyScans(stack: seq<char>, body: seq<Quotable>, rest: string)
    requires ValidBody(body)
    ensures Scanned(Scan(stack, true, false), BodyText(body) + (['"'] + rest)) ==
      Plus(|BodyText(body)| + 1, Scanned(Scan(stack, false, false), rest))
  {
    if body == [] {
      assert BodyText(body) + (['"'] + rest) == ['"'] + rest;
      ScanStep(Scan(stack, true, false), '"', rest);
    } else {
      var tail := BodyText(body[1..]) + (['"'] + rest);
      BodyScans(stack, body[1..], rest);
      QuotableScans(stack, body[0], tail);
      Assoc(QuotableText(body[0]), BodyText(body[1..]), ['"'] + rest);
      PlusPlus(|QuotableText(body[0])|, |BodyText(body[1..])| + 1, Scanned(Scan(stack, false, false), rest));
    }
  }

  /** Inside a bracket, a piece leaves the scanner where it was. */
  lemma {:induction false} PieceScans(stack: seq<char>, p: Piece, rest: string)
    requires ValidPiece(p) && stack != []
    ensures Scanned(Scan(stack, false, false), PieceText(p) + rest) ==
      Plus(|PieceText(p)|, Scanned(Scan(stack, false, false), rest))
    decreases p, 1
  {
    var st := Scan(stack, false, false);
    match p
    case Other(c) => ScanStep(st, c, rest);
    case Quoted(body) =>
      assert PieceText(p) + rest == ['"'] + (BodyText(body) + (['"'] + rest));
      ScanStep(st, '"', BodyText(body) + (['"'] + rest));
      BodyScans(stack, body, rest);
    case Group(open, inner) => GroupScans(stack, open, inner, rest);
  }

  lemma {:induction false} PiecesScan(stack: seq<char>, ps: seq<Piece>, rest: string)
    requires ValidPieces(ps) && stack != []
    ensures Scanned(Scan(stack, false, false), PiecesText(ps) + rest) ==
      Plus(|PiecesText(ps)|, Scanned(Scan(stack, false, false), rest))
    decreases ps, 0
  {
    if ps == [] {
      assert PiecesText(ps) + rest == rest;
    } else {
      Assoc(PieceText(ps[0]), PiecesText(ps[1..]), rest);
      PieceScans(stack, ps[0], PiecesText(ps[1..]) + rest);
      PiecesScan(stack, ps[1..], rest);
    }
  }

  lemma GroupText(open: char, inner: seq<Piece>, rest: string)
    ensures var text, body := PieceText(Group(open, inner)), PiecesText(inner);
      text + rest == [open] + (body + ([CloserOf(open)] + rest)) && |text| == |body| + 2
  {
    var body, close := PiecesText(inner), [CloserOf(open)];
    Assoc(body, close, rest);
    Assoc([open], body + close, rest);
  }

  /** A group is scanned to its own end: there the scan completes if it is the outermost. */
  lemma {:induction false} GroupScans(stack: seq<char>, open: char, inner: seq<Piece>, rest: string)
    requires Opener(open) && ValidPieces(inner)
    ensures var text := PieceText(Group(open, inner));
      Scanned(Scan(stack, false, false), text + rest) ==
      if stack == [] then Some(|text|) else Plus(|text|, Scanned(Scan(stack, false, false), rest))
    decreases inner, 1
  {
    var close, text := CloserOf(open), PieceText(Group(open, inner));
    var body := PiecesText(inner);
    GroupText(open, inner, rest);
    OpenStep(stack, open, body + ([close] + rest));
    PiecesScan(stack + [close], inner, [close] + rest);
    CloseStep(stack, close, close, rest);
  }

  // ---- What is scanned through is nested ----

  lemma {:induction false} BodyFound(stack: seq<char>, s: string) returns (body: seq<Quotable>, rest: string)
    requires Scanned(Scan(stack, true, false), s).Some?
    ensures ValidBody(body) && s == BodyText(body) + (['"'] + rest)
    ensures Scanned(Scan(stack, true, false), s) == Plus(|s| - |rest|, Scanned(Scan(stack, false, false), rest))
  {
    assert s == [s[0]] + s[1..];
    ScanStep(Scan(stack, true, false), s[0], s[1..]);
    if s[0] == '"' {
      body, rest := [], s[1..];
    } else {
      var q, r := QuotableFound(stack, s);
      QuotableScans(stack, q, r);
      var tail, r1 := BodyFound(stack, r);
      body, rest := [q] + tail, r1;
      BodyHead(q, tail, ['"'] + rest);
      PlusPlus(|QuotableText(q)|, |r| - |rest|, Scanned(Scan(stack, false, false), rest));
    }
  }

  lemma BodyHead(q: Quotable, tail: seq<Quotable>, rest: string)
    ensures ValidBody([q] + tail) <==> ValidQuotable(q) && ValidBody(tail)
    ensures BodyText([q] + tail) + rest == QuotableText(q) + (BodyText(tail) + rest)
  {
    var all := [q] + tail;
    assert all[1..] == tail && all[0] == q;
    assert forall i :: 0 < i < |all| ==> all[i] == tail[i - 1];
    assert forall i :: 0 <= i < |tail| ==> tail[i] == all[i + 1];
    Assoc(QuotableText(q), BodyText(tail), rest);
  }

  lemma QuotableFound(stack: seq<char>, s: string) returns (q: Quotable, rest: string)
    requires Scanned(Scan(stack, true, false), s).Some? && s[0] != '"'
    ensures ValidQuotable(q) && s == QuotableText(q) + rest && |rest| < |s|
  {
    assert s == [s[0]] + s[1..];
    ScanStep(Scan(stack, true, false), s[0], s[1..]);
    if s[0] == '\\' {
      assert s[1..] == [s[1]] + s[2..];
      q, rest := Escape(s[1]), s[2..];
    } else {
      q, rest := Plain(s[0]), s[1..];
    }
  }

  lemma {:induction false} NextPiece(stack: seq<char>, s: string) returns (p: Piece, rest: string)
    requires stack != [] && Scanned(Scan(stack, false, false), s).Some? && !Closer(s[0])
    ensures ValidPiece(p) && s == PieceText(p) + rest && |rest| < |s|
    ensures Scanned(Scan(stack, false, false), s) == Plus(|s| - |rest|, Scanned(Scan(stack, false, false), rest))
    decreases |s|, 0
  {
    assert s == [s[0]] + s[1..];
    if s[0] == '"' {
      ScanStep(Scan(stack, false, false), '"', s[1..]);
      var body, after := BodyFound(stack, s[1..]);
      p, rest := Quoted(body), after;
    } else if Opener(s[0]) {
      OpenStep(stack, s[0], s[1..]);
      var inner, after := PiecesFound(stack, CloserOf(s[0]), s[1..]);
      p, rest := Group(s[0], inner), after;
    } else {
      ScanStep(Scan(stack, false, false), s[0], s[1..]);
      p, rest := Other(s[0]), s[1..];
    }
  }

  lemma CloserFound(outer: seq<char>, close: char, s: string) returns (rest: string)
    requires Scanned(Scan(outer + [close], false, false), s).Some? && Closer(s[0])
    ensures s == [close] + rest && |s| == |rest| + 1
    ensures Scanned(Scan(outer + [close], false, false), s) == After(outer, 1, rest)
  {
    rest := s[1..];
    assert s == [s[0]] + rest;
    CloseStep(outer, close, s[0], rest);
  }

  lemma {:induction false} PiecesFound(outer: seq<char>, close: char, s: string) returns (ps: seq<Piece>, rest: string)
    requires Scanned(Scan(outer + [close], false, false), s).Some?
    ensures ValidPieces(ps) && s == PiecesText(ps) + ([close] + rest) && |rest| < |s|
    ensures Scanned(Scan(outer + [close], false, false), s) == After(outer, |s| - |rest|, rest)
    decreases |s|, 1
  {
    if Closer(s[0]) {
      rest := CloserFound(outer, close, s);
      ps := [];
    } else {
      var p, r := NextPiece(outer + [close], s);
      var qs, r1 := PiecesFound(outer, close, r);
      ps := Prepend(p, qs, r, [close] + r1);
      AfterPlus(outer, |s| - |r|, |r| - |r1|, r1);
      rest := r1;
    }
  }

  lemma AfterPlus(outer: seq<char>, m: nat, n: nat, rest: string)
    ensures Plus(m, After(outer, n, rest)) == After(outer, m + n, rest)
  {
  }

  lemma Prepend(p: Piece, ps: seq<Piece>, r: string, tail: string) returns (qs: seq<Piece>)
    requires ValidPiece(p) && ValidPieces(ps) && r == PiecesText(ps) + tail
    ensures ValidPieces(qs) && PieceText(p) + r == PiecesText(qs) + tail
  {
    qs := [p] + ps;
    assert qs[1..] == ps;
    Assoc(PieceText(p), PiecesText(ps), tail);
  }

  // ---- Main results ----

  lemma {:induction false} FirstOpenerAt(pre: string, s: string)
    requires (forall i :: 0 <= i < |pre| ==> !Opener(pre[i])) && s != [] && Opener(s[0])
    ensures FirstOpener(pre + s) == |pre|
  {
    var t := pre + s;
    assert t[|pre|] == s[0] && forall i :: 0 <= i < |pre| ==> t[i] == pre[i];
  }

  predicate OpenerFree(s: string) { forall i :: 0 <= i < |s| ==> !Opener(s[i]) }

  /** Whatever surrounds it, the first well-nested text is returned whole. */
  lemma ExtractsNested(pre: string, text: string, suf: string)
    requires OpenerFree(pre) && WellNested(text)
    ensures Extract(pre + text + suf) == Some(text)
  {
    var g: Piece :| g.Group? && ValidPiece(g) && PieceText(g) == text;
    var s := pre + text + suf;
    assert s == pre + (text + suf) && s[|pre|..] == text + suf;
    FirstOpenerAt(pre, text + suf);
    GroupScans([], g.open, g.inner, suf);
  }

  lemma GroupFound(t: string) returns (inner: seq<Piece>)
    requires t != [] && Opener(t[0]) && Scanned(OUTSIDE, t).Some?
    ensures ValidPieces(inner) && PieceText(Group(t[0], inner)) == t[..Scanned(OUTSIDE, t).value]
  {
    assert t == [t[0]] + t[1..];
    OpenStep([], t[0], t[1..]);
    var ps, rest := PiecesFound([], CloserOf(t[0]), t[1..]);
    inner := ps;
    assert t == PieceText(Group(t[0], inner)) + rest;
  }

  /** What is returned is well nested and preceded by no opening bracket. */
  lemma ExtractedIsNested(s: string)
    requires Extract(s).Some?
    ensures var start, text := FirstOpener(s), Extract(s).value;
      OpenerFree(s[..start]) && WellNested(text) && s == s[..start] + text + s[start + |text|..]
  {
    var start := FirstOpener(s);
    var t := s[start..];
    var n := Scanned(OUTSIDE, t).value;
    assert t[0] == s[start];
    var inner := GroupFound(t);
    var g := Group(t[0], inner);
    Pieces3(s, start, start + n);
    assert s[start..start + n] == t[..n];
    assert ValidPiece(g) && PieceText(g) == Extract(s).value;
  }

  lemma Pieces3(s: string, i: nat, j: nat)
    requires i <= j <= |s|
    ensures s == s[..i] + s[i..j] + s[j..]
  {
  }

  /** The exact meaning of the scanner. */
  lemma ExtractExactly(s: string, text: string)
    ensures Extract(s) == Some(text) <==>
      exists pre, suf :: s == pre + text + suf && OpenerFree(pre) && WellNested(text)
  {
    if Extract(s) == Some(text) {
      ExtractedIsNested(s);
    } else if exists pre, suf :: s == pre + text + suf && OpenerFree(pre) && WellNested(text) {
      var pre, suf :| s == pre + text + suf && OpenerFree(pre) && WellNested(text);
      ExtractsNested(pre, text, suf);
    }
  }

  /** No proper prefix of a well-nested text is well nested: the cut cannot come early or late. */
  lemma NoNestedPrefix(text: string, k: nat)
    requires WellNested(text) && k < |text|
    ensures !WellNested(text[..k])
  {
    if WellNested(text[..k]) {
      assert [] + text[..k] + text[k..] == text && [] + text + [] == text;
      ExtractsNested([], text[..k], text[k..]);
      ExtractsNested([], text, []);
    }
  }
}
