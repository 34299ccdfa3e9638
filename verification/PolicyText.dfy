/** The hand-written YAML subset of `.reelier/policy.yml`: the line parser, and the separate
    detector of a `state_gate` key that must agree with it. */
module PolicyText {
  import opened Wrappers

  // ---- Characters ----

  /** JavaScript white space, as `trim` and `\s` understand it. */
  predicate Space(c: char) {
    c in {'\t', '\n', '\r', ' ', '\U{0B}', '\U{0C}', '\U{A0}', '\U{1680}', '\U{2028}', '\U{2029}', '\U{202F}',
          '\U{205F}', '\U{3000}', '\U{FEFF}'}
    || '\U{2000}' <= c <= '\U{200A}'
  }

  /** What `.` does not match. */
  predicate Terminator(c: char) { c in {'\n', '\r', '\U{2028}', '\U{2029}'} }

  predicate KeyChar(c: char) { 'A' <= c <= 'Z' || 'a' <= c <= 'z' || '0' <= c <= '9' || c == '_' || c == '-' }

  predicate Blank(s: string) { forall i :: 0 <= i < |s| ==> Space(s[i]) }

  function SkipSpace(s: string): (r: string)
    ensures r == [] || !Space(r[0])
  {
    if s != [] && Space(s[0]) then SkipSpace(s[1..]) else s
  }

  function DropSpace(s: string): (r: string)
    ensures r == [] || !Space(r[|r| - 1])
  {
    if s != [] && Space(s[|s| - 1]) then DropSpace(s[..|s| - 1]) else s
  }

  function Trim(s: string): string { DropSpace(SkipSpace(s)) }

  function Unquote(raw: string): string {
    var v := Trim(raw);
    if |v| >= 2 && v[0] == v[|v| - 1] && v[0] in {'"', '\''} then v[1..|v| - 1] else v
  }

  function StripBom(s: string): string { if s != [] && s[0] == '\U{FEFF}' then s[1..] else s }

  /** Split at every `\r\n` or `\n`. */
  function Lines(s: string): (ls: seq<string>)
    ensures ls != []
    decreases |s|
  {
    if s == [] then [[]]
    else if s[0] == '\n' then [[]] + Lines(s[1..])
    else if |s| >= 2 && s[0] == '\r' && s[1] == '\n' then [[]] + Lines(s[2..])
    else
      var rest := Lines(s[1..]);
      [[s[0]] + rest[0]] + rest[1..]
  }

  // ---- Comments ----

  /** How much of the line precedes a `#` outside quotes. */
  function CommentStart(s: string, quote: Option<char>): (n: nat)
    ensures n <= |s|
  {
    if s == [] then 0
    else if quote.Some? then 1 + CommentStart(s[1..], if s[0] == quote.value then None else quote)
    else if s[0] == '"' || s[0] == '\'' then 1 + CommentStart(s[1..], Some(s[0]))
    else if s[0] == '#' then 0
    else 1 + CommentStart(s[1..], None)
  }

  function Uncommented(line: string): string { line[..CommentStart(line, None)] }

  method StripComment(line: string) returns (r: string)
    ensures r == Uncommented(line)
  {
    var inQuote: Option<char> := None;
    for i := 0 to |line|
      invariant CommentStart(line, None) == i + CommentStart(line[i..], inQuote)
    {
      var ch := line[i];
      assert line[i..][0] == ch && line[i..][1..] == line[i + 1..];
      if inQuote.Some? {
        if ch == inQuote.value { inQuote := None; }
      } else if ch == '"' || ch == '\'' {
        inQuote := Some(ch);
      } else if ch == '#' {
        return line[..i];
      }
    }
    return line;
  }

  // ---- Lines ----

  function Indent(s: string): (n: nat)
    ensures n <= |s| && (n == |s| ==> Blank(s))
  {
    if s != [] && s[0] == ' ' then
      var n := Indent(s[1..]);
      assert forall i :: 0 < i < |s| ==> s[i] == s[1..][i - 1];
      1 + n
    else 0
  }

  function KeyLength(s: string): (n: nat)
    ensures n <= |s| && (n < |s| ==> !KeyChar(s[n])) && forall i :: 0 <= i < n ==> KeyChar(s[i])
  {
    if s != [] && KeyChar(s[0]) then
      var n := KeyLength(s[1..]);
      assert forall i :: 0 < i < n + 1 ==> s[i] == s[1..][i - 1];
      1 + n
    else 0
  }

  datatype Pair = Pair(key: string, rest: string)

  /** `^([A-Za-z0-9_-]+):\s*(.*)$` */
  function MatchPair(s: string): Option<Pair> {
    var n := KeyLength(s);
    if n == 0 || n == |s| || s[n] != ':' then None
    else
      var rest := SkipSpace(s[n + 1..]);
      if exists i :: 0 <= i < |rest| && Terminator(rest[i]) then None else Some(Pair(s[..n], rest))
  }

  // ---- The parser ----

  type Item = map<string, string>
  datatype Node = Scalar(text: string) | Items(items: seq<Item>)

  /** The object built so far, the open list, and the item being filled, which is its last. */
  datatype State = State(out: map<string, Node>, list: Option<string>, item: Option<Item>)

  const PROTO := "__proto__"

  /** Assigning to `__proto__` defines no member. */
  function Define(out: map<string, Node>, key: string, node: Node): map<string, Node> {
    if key == PROTO then out else out[key := node]
  }

  function DefineField(item: Item, key: string,
                       value: string): Item { if key == PROTO then item else item[key := value] }

  function ItemsAt(out: map<string, Node>, key: string): seq<Item> {
    if key in out && out[key].Items? then out[key].items else []
  }

  function TopLevel(st: State, content: string): Option<State> {
    var m := MatchPair(content);
    if m.None? then None
    else if Blank(m.value.rest) then Some(State(Define(st.out, m.value.key, Items([])), Some(m.value.key), None))
    else Some(State(Define(st.out, m.value.key, Scalar(Unquote(m.value.rest))), None, None))
  }

  predicate StartsItem(content: string) { content == "-" || "- " <= content }

  function NewItem(st: State, content: string): Option<State>
    requires st.list.Some? && StartsItem(content)
  {
    var text := if content == "-" then "" else content[2..];
    var m := MatchPair(text);
    if !Blank(text) && m.None? then None
    else
      var item: Item := if Blank(text) then map[] else DefineField(map[], m.value.key, Unquote(m.value.rest));
      Some(State(Define(st.out, st.list.value, Items(ItemsAt(st.out, st.list.value) + [item])), st.list, Some(item)))
  }

  function Continuation(st: State, content: string): Option<State>
    requires st.list.Some? && st.item.Some?
  {
    var m := MatchPair(content);
    if m.None? || m.value.key in st.item.value then None
    else
      var item := DefineField(st.item.value, m.value.key, Unquote(m.value.rest));
      var items := ItemsAt(st.out, st.list.value);
      var all := if items == [] then [item] else items[..|items| - 1] + [item];
      Some(State(Define(st.out, st.list.value, Items(all)), st.list, Some(item)))
  }

  /** One line; None is a syntax error. */
  function Line(st: State, raw: string): Option<State> {
    var line := Uncommented(raw);
    if Blank(line) then Some(st)
    else
      var content := line[Indent(line)..];
      if Indent(line) == 0 then TopLevel(st, content)
      else if st.list.None? then None
      else if StartsItem(content) then NewItem(st, content)
      else if st.item.None? then None
      else Continuation(st, content)
  }

  function AllLines(st: State, lines: seq<string>): Option<State>
    decreases |lines|
  {
    if lines == [] then Some(st)
    else if Line(st, lines[0]).None? then None
    else AllLines(Line(st, lines[0]).value, lines[1..])
  }

  const START := State(map[], None, None)

  function Parsed(source: string): Option<map<string, Node>> {
    var end := AllLines(START, Lines(StripBom(source)));
    if end.None? then None else Some(end.value.out)
  }

  /** The loop over lines, with the object, the open list and the item it updates. */
  method ParseYamlSubset(source: string) returns (r: Option<map<string, Node>>)
    ensures r == Parsed(source)
  {
    var rawLines := Lines(StripBom(source));
    var out: map<string, Node> := map[];
    var currentListKey: Option<string> := None;
    var currentItem: Option<Item> := None;
    for lineNo := 0 to |rawLines|
      invariant AllLines(START, rawLines) == AllLines(State(out, currentListKey, currentItem), rawLines[lineNo..])
    {
      assert rawLines[lineNo..][0] == rawLines[lineNo] && rawLines[lineNo..][1..] == rawLines[lineNo + 1..];
      var line := StripComment(rawLines[lineNo]);
      if Blank(line) { continue; }
      var indent := Indent(line);
      var content := line[indent..];
      if indent == 0 {
        var m := MatchPair(content);
        if m.None? { return None; }
        var key, rest := m.value.key, m.value.rest;
        currentListKey, currentItem := None, None;
        if Blank(rest) {
          out := Define(out, key, Items([]));
          currentListKey := Some(key);
        } else {
          out := Define(out, key, Scalar(Unquote(rest)));
        }
        continue;
      }
      if currentListKey.None? { return None; }
      var next := Indented(State(out, currentListKey, currentItem), content);
      if next.None? { return None; }
      out, currentItem := next.value.out, next.value.item;
    }
    r := Some(out);
  }

  method Indented(st: State, content: string) returns (r: Option<State>)
    requires st.list.Some? && content != []
    ensures r ==
      if StartsItem(content) then NewItem(st, content) else if st.item.None? then None else Continuation(st, content)
    ensures r.Some? ==> r.value.list == st.list
  {
    var items := ItemsAt(st.out, st.list.value);
    if StartsItem(content) {
      var itemContent := if content == "-" then "" else content[2..];
      var item: Item := map[];
      if !Blank(itemContent) {
        var m := MatchPair(itemContent);
        if m.None? { return None; }
        item := DefineField(item, m.value.key, Unquote(m.value.rest));
      }
      return Some(State(Define(st.out, st.list.value, Items(items + [item])), st.list, Some(item)));
    }
    if st.item.None? { return None; }
    var m := MatchPair(content);
    if m.None? { return None; }
    if m.value.key in st.item.value { return None; }
    var item := DefineField(st.item.value, m.value.key, Unquote(m.value.rest));
    var all := if items == [] then [item] else items[..|items| - 1] + [item];
    return Some(State(Define(st.out, st.list.value, Items(all)), st.list, Some(item)));
  }

  // ---- The detector ----

  const GATE := "state_gate"

  /** `^state_gate\s*:` */
  predicate Declares(line: string) {
    GATE <= line && (var rest := SkipSpace(line[|GATE|..]); rest != [] && rest[0] == ':')
  }

  predicate Detected(source: string) {
    var ls := Lines(StripBom(source));
    exists i :: 0 <= i < |ls| && Declares(Uncommented(ls[i]))
  }

  method DetectStateGateKey(source: string) returns (found: bool)
    ensures found == Detected(source)
  {
    var rawLines := Lines(StripBom(source));
    for i := 0 to |rawLines|
      invariant forall j :: 0 <= j < i ==> !Declares(Uncommented(rawLines[j]))
    {
      var line := StripComment(rawLines[i]);
      if Declares(line) { return true; }
    }
    return false;
  }

  // ---- They agree ----

  lemma {:induction false} KeyLengthAt(s: string, n: nat)
    requires n < |s| && !KeyChar(s[n]) && forall i :: 0 <= i < n ==> KeyChar(s[i])
    ensures KeyLength(s) == n
  {
  }

  lemma DeclaredKey(line: string)
    requires Declares(line)
    ensures KeyLength(line) == |GATE|
  {
    var after := line[|GATE|..];
    assert line[|GATE|] == after[0] && (Space(after[0]) || after[0] == ':');
    assert forall i :: 0 <= i < |GATE| ==> KeyChar(line[i]);
    KeyLengthAt(line, |GATE|);
  }

  lemma DeclaredStart(line: string)
    ensures Declares(line) ==> !Blank(line) && Indent(line) == 0
  {
    if Declares(line) { assert line[0] == 's' && !Space(line[0]); }
  }

  // ---- What a text that parses defines ----

  predicate AtTop(line: string) { !Blank(line) && Indent(line) == 0 }

  /** The key of an uncommented line that starts at the margin. */
  function TopKey(raw: string): Option<string> {
    var line := Uncommented(raw);
    if AtTop(line) && MatchPair(line).Some? then Some(MatchPair(line).value.key) else None
  }

  /** A line at the margin has a key. */
  predicate Margined(raw: string) { AtTop(Uncommented(raw)) ==> TopKey(raw).Some? }

  predicate AllMargined(lines: seq<string>) { forall i :: 0 <= i < |lines| ==> Margined(lines[i]) }

  function Defines(raw: string): set<string> {
    if TopKey(raw).None? || TopKey(raw).value == PROTO then {} else {TopKey(raw).value}
  }

  /** Only a `__proto__` list is open without being there. */
  predicate ListDefined(st: State) { st.list.Some? && st.list.value != PROTO ==> st.list.value in st.out }

  lemma LineDefines(st: State, raw: string)
    requires Line(st, raw).Some? && ListDefined(st)
    ensures Line(st, raw).value.out.Keys == st.out.Keys + Defines(raw) && ListDefined(Line(st, raw).value)
    ensures Margined(raw)
  {
    var line := Uncommented(raw);
    if AtTop(line) { assert line[0..] == line; }
  }

  function DefinedBy(lines: seq<string>): set<string> {
    if lines == [] then {} else Defines(lines[0]) + DefinedBy(lines[1..])
  }

  lemma {:induction false} LinesDefine(st: State, lines: seq<string>)
    requires AllLines(st, lines).Some? && ListDefined(st)
    ensures AllLines(st, lines).value.out.Keys == st.out.Keys + DefinedBy(lines)
    ensures AllMargined(lines)
    decreases |lines|
  {
    if lines != [] {
      LineDefines(st, lines[0]);
      LinesDefine(Line(st, lines[0]).value, lines[1..]);
      assert forall i :: 0 < i < |lines| ==> lines[i] == lines[1..][i - 1];
    }
  }

  ghost predicate HasTopKey(lines: seq<string>, key: string) {
    exists i :: 0 <= i < |lines| && TopKey(lines[i]) == Some(key)
  }

  lemma {:induction false} DefinedByTopKeys(lines: seq<string>, key: string)
    ensures key in DefinedBy(lines) <==> key != PROTO && HasTopKey(lines, key)
  {
    if lines != [] {
      DefinedByTopKeys(lines[1..], key);
      assert forall i :: 0 < i < |lines| ==> lines[i] == lines[1..][i - 1];
      assert forall i :: 0 <= i < |lines| - 1 ==> lines[1..][i] == lines[i + 1];
    }
  }

  /** A text that parses defines exactly the keys that stand at the margin of its lines, `__proto__` excepted;
      and each of its lines at the margin has a key. */
  lemma ParsedKeys(source: string)
    requires Parsed(source).Some?
    ensures forall key :: key in Parsed(source).value <==> key != PROTO && HasTopKey(Lines(StripBom(source)), key)
    ensures AllMargined(Lines(StripBom(source)))
  {
    var ls := Lines(StripBom(source));
    LinesDefine(START, ls);
    forall key ensures key in DefinedBy(ls) <==> key != PROTO && HasTopKey(ls, key) { DefinedByTopKeys(ls, key); }
  }

  lemma {:induction false} OneLine(s: string)
    requires forall i :: 0 <= i < |s| ==> s[i] != '\n'
    ensures Lines(s) == [s]
  {
    if s != [] {
      OneLine(s[1..]);
      assert [s[0]] + s[1..] == s;
    }
  }

  lemma {:induction false} NoComment(s: string)
    requires forall i :: 0 <= i < |s| ==> s[i] !in {'"', '\'', '#'}
    ensures CommentStart(s, None) == |s|
  {
    if s != [] { NoComment(s[1..]); }
  }

  lemma ProtoPair(text: string)
    requires text == PROTO + ": x"
    ensures Uncommented(text) == text && AtTop(text) && MatchPair(text) == Some(Pair(PROTO, "x"))
  {
    NoComment(text);
    KeyLengthAt(text, |PROTO|);
    var rest := text[|PROTO| + 1..];
    assert rest == " x" && rest[1..] == "x" && SkipSpace(rest) == "x";
    assert text[..|PROTO|] == PROTO && text[0] == '_';
  }

  lemma ProtoTop(text: string)
    requires text == PROTO + ": x"
    ensures StripBom(text) == text && Line(START, text).Some? && Line(START, text).value.out == map[]
  {
    ProtoPair(text);
    assert text[0..] == text && text[0] == '_' && !Space('x');
    assert !Blank("x") by { assert !Space("x"[0]); }
  }

  lemma ProtoText(text: string)
    requires text == PROTO + ": x"
    ensures Lines(StripBom(text)) == [text] && TopKey(text) == Some(PROTO) && Parsed(text) == Some(map[])
  {
    ProtoPair(text);
    OneLine(text);
    ProtoTop(text);
    assert [text][1..] == [] && [text][0] == text;
    assert AllLines(START, [text]) == AllLines(Line(START, text).value, []);
  }

  /** Where the line has a key at all, the detector sees it exactly when it is the gate's. */
  lemma DeclaresExactly(raw: string)
    requires Margined(raw)
    ensures Declares(Uncommented(raw)) <==> TopKey(raw) == Some(GATE)
  {
    var line := Uncommented(raw);
    DeclaredStart(line);
    if AtTop(line) {
      var m := MatchPair(line).value;
      assert m.key == line[..KeyLength(line)] && line[KeyLength(line)] == ':';
      if m.key == GATE { assert line[|GATE|..][0] == ':' && Declares(line); }
      if Declares(line) { DeclaredKey(line); }
    }
  }

  lemma GateLines(ls: seq<string>)
    requires AllMargined(ls)
    ensures HasTopKey(ls, GATE) <==> exists i :: 0 <= i < |ls| && Declares(Uncommented(ls[i]))
  {
    forall i | 0 <= i < |ls|
      ensures Declares(Uncommented(ls[i])) <==> TopKey(ls[i]) == Some(GATE)
    {
      DeclaresExactly(ls[i]);
    }
  }

  /** For every text that parses, the detector finds the key exactly when the parser defined it. */
  lemma ParsedHasGate(source: string)
    requires Parsed(source).Some?
    ensures GATE in Parsed(source).value <==> Detected(source)
  {
    ParsedKeys(source);
    GateLines(Lines(StripBom(source)));
  }
}
