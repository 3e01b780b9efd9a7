/** Reading the one UCI section the daemon uses, and writing it back as quoted lines. */
module UciConfig {
  import opened Bytes
  import opened UciWords

  /** The longest line the buffered scanner hands over. */
  const MAX_LINE: nat := 65535

  const CONFIG: bytes := Ascii("config")
  const OPTION: bytes := Ascii("option")
  const LIST: bytes := Ascii("list")
  const EMULATOR: bytes := Ascii("emulator")
  const MAIN: bytes := Ascii("main")

  type Values = map<bytes, seq<bytes>>

  datatype Section = Section(active: bool, values: Values)

  const NO_SECTION: Section := Section(false, map[])

  function LineEnd(data: bytes): (n: nat)
    ensures n <= |data| && NEWLINE !in data[..n]
    ensures n < |data| ==> data[n] == NEWLINE
  {
    if data == [] || data[0] == NEWLINE then 0 else 1 + LineEnd(data[1..])
  }

  function WithoutReturn(line: bytes): bytes {
    if line != [] && line[|line| - 1] == RETURN then line[..|line| - 1] else line
  }

  /** The effect of one split line; None is a malformed option. */
  function Apply(st: Section, w: seq<bytes>): Option<Section> {
    if w == [] then Some(st)
    else if w[0] == CONFIG then
      Some(st.(active := |w| >= 3 && w[1] == EMULATOR && w[2] == MAIN))
    else if w[0] == OPTION || w[0] == LIST then
      if !st.active then Some(st)
      else if |w| != 3 then None
      else if w[0] == OPTION then Some(st.(values := st.values[w[1] := [w[2]]]))
      else Some(st.(values := st.values[w[1] := (if w[1] in st.values then st.values[w[1]] else []) + [w[2]]]))
    else Some(st)
  }

  function ApplyLine(st: Section, line: bytes): Option<Section> {
    var w := Lex(WithoutReturn(line), START);
    if w.None? then None else Apply(st, w.value)
  }

  function ParseFrom(data: bytes, st: Section): Option<Section>
    decreases |data|
  {
    if data == [] then Some(st)
    else
      var n := LineEnd(data);
      if n > MAX_LINE then None
      else
        var next := ApplyLine(st, data[..n]);
        if next.None? then None
        else ParseFrom(if n < |data| then data[n + 1..] else [], next.value)
  }

  method ParseUCI(data: bytes) returns (r: Option<Section>)
    ensures r == ParseFrom(data, NO_SECTION)
  {
    hide ApplyLine, Apply, LineEnd;
    var rest := data;
    var st := NO_SECTION;
    while rest != []
      invariant ParseFrom(data, NO_SECTION) == ParseFrom(rest, st)
      decreases |rest|
    {
      var n := LineEnd(rest);
      if n > MAX_LINE {
        return None;
      }
      var next := ApplyLine(st, rest[..n]);
      if next.None? {
        return None;
      }
      st := next.value;
      rest := if n < |rest| then rest[n + 1..] else [];
    }
    return Some(st);
  }

  // ----- the written form -------------------------------------------------------------------

  /** One option or list line of the section. */
  datatype Entry = Entry(list: bool, key: bytes, value: bytes)

  function Kind(e: Entry): bytes {
    if e.list then LIST else OPTION
  }

  function EntryLine(e: Entry): bytes {
    [TAB] + (Kind(e) + [SPACE] + (e.key + [SPACE] + Quote(e.value)))
  }

  const HEADING: bytes := CONFIG + [SPACE] + (EMULATOR + [SPACE] + Quote(MAIN))

  function Rendered(es: seq<Entry>): bytes {
    if es == [] then [] else EntryLine(es[0]) + [NEWLINE] + Rendered(es[1..])
  }

  function RenderSection(es: seq<Entry>): bytes {
    HEADING + [NEWLINE] + Rendered(es)
  }

  predicate Fits(e: Entry) {
    NEWLINE !in e.value && |EntryLine(e)| <= MAX_LINE
  }

  predicate KeysPlain(es: seq<Entry>) {
    forall i :: 0 <= i < |es| ==> PlainWord(es[i].key) && NEWLINE !in es[i].key
  }

  function Stored(values: Values, e: Entry): Values {
    values[e.key := (if e.list && e.key in values then values[e.key] else []) + [e.value]]
  }

  function StoredAll(values: Values, es: seq<Entry>): Values
    decreases |es|
  {
    if es == [] then values else StoredAll(Stored(values, es[0]), es[1..])
  }

  lemma {:induction false} LineEndAt(line: bytes, rest: bytes)
    requires NEWLINE !in line
    ensures LineEnd(line + [NEWLINE] + rest) == |line|
  {
    var data := line + [NEWLINE] + rest;
    if line == [] {
      assert data[0] == NEWLINE;
    } else {
      assert data[1..] == line[1..] + [NEWLINE] + rest;
      LineEndAt(line[1..], rest);
    }
  }

  lemma ParseLine(line: bytes, rest: bytes, st: Section)
    requires NEWLINE !in line
    ensures ParseFrom(line + [NEWLINE] + rest, st) ==
            if |line| > MAX_LINE || ApplyLine(st, line).None? then None else ParseFrom(rest, ApplyLine(st, line).value)
  {
    hide ApplyLine;
    var data := line + [NEWLINE] + rest;
    LineEndAt(line, rest);
    assert data[..|line|] == line && data[|line| + 1..] == rest;
  }

  lemma WordsPlain()
    ensures PlainWord(CONFIG) && PlainWord(OPTION) && PlainWord(LIST) && PlainWord(EMULATOR)
    ensures NEWLINE !in CONFIG && NEWLINE !in OPTION && NEWLINE !in LIST && NEWLINE !in EMULATOR && NEWLINE !in MAIN
    ensures OPTION != CONFIG && LIST != CONFIG && LIST != OPTION
  {
    assert CONFIG == [99, 111, 110, 102, 105, 103];
    assert OPTION == [111, 112, 116, 105, 111, 110];
    assert LIST == [108, 105, 115, 116];
    assert EMULATOR == [101, 109, 117, 108, 97, 116, 111, 114];
    assert MAIN == [109, 97, 105, 110];
  }

  /** The line of an entry splits into its three words. */
  lemma LexEntry(e: Entry)
    requires PlainWord(e.key)
    ensures Lex(EntryLine(e), START) == Some([Kind(e), e.key, e.value])
    ensures Lex(CutLine(e, e.value), START) == None
  {
    WordsPlain();
    LexEntryStart(e, Quote(e.value));
    LexEntryStart(e, [SINGLE] + Escaped(e.value));
    LexOne(e.value, [Kind(e), e.key]);
    CutQuoteFails(e.value, Scan([Kind(e), e.key], [], false, 0));
    assert [Kind(e), e.key] + [e.value] == [Kind(e), e.key, e.value];
  }

  lemma LexEntryStart(e: Entry, tail: bytes)
    requires PlainWord(e.key) && PlainWord(Kind(e))
    ensures Lex([TAB] + (Kind(e) + [SPACE] + (e.key + [SPACE] + tail)), START)
         == Lex(tail, Scan([Kind(e), e.key], [], false, 0))
  {
    hide Kind;
    var line := Kind(e) + [SPACE] + (e.key + [SPACE] + tail);
    assert ([TAB] + line)[1..] == line;
    assert Lex([TAB] + line, START) == Lex(line, START);
    hide Lex;
    LexPlain(Kind(e), e.key + [SPACE] + tail, []);
    LexPlain(e.key, tail, [Kind(e)]);
    assert [] + [Kind(e)] == [Kind(e)];
    assert [Kind(e)] + [e.key] == [Kind(e), e.key];
  }

  lemma ApplyEntryLine(st: Section, e: Entry)
    requires PlainWord(e.key) && st.active
    ensures ApplyLine(st, EntryLine(e)) == Some(st.(values := Stored(st.values, e)))
  {
    hide Lex;
    LexEntry(e);
    WordsPlain();
    assert EntryLine(e)[|EntryLine(e)| - 1] == SINGLE;
    assert [] + [e.value] == [e.value];
  }

  lemma {:induction false} EscapedKeepsNewlines(s: bytes)
    ensures NEWLINE in Escaped(s) <==> NEWLINE in s
  {
    if s != [] {
      EscapedKeepsNewlines(s[1..]);
      assert s == [s[0]] + s[1..];
    }
  }

  lemma {:induction false} EscapedConcat(a: bytes, b: bytes)
    ensures Escaped(a + b) == Escaped(a) + Escaped(b)
  {
    if a == [] {
      assert a + b == b;
    } else {
      assert (a + b)[1..] == a[1..] + b;
      EscapedConcat(a[1..], b);
    }
  }

  /** The start of an entry's line up to, and excluding, the closing quote. */
  function CutLine(e: Entry, before: bytes): bytes {
    [TAB] + (Kind(e) + [SPACE] + (e.key + [SPACE] + ([SINGLE] + Escaped(before))))
  }

  lemma EscapedAtNewline(before: bytes, after: bytes)
    ensures Escaped(before + ([NEWLINE] + after)) == Escaped(before) + ([NEWLINE] + Escaped(after))
  {
    EscapedConcat(before, [NEWLINE] + after);
    EscapedConcat([NEWLINE], after);
    assert Escaped([NEWLINE]) == [NEWLINE];
  }

  lemma CutEntryLine(e: Entry, before: bytes, after: bytes)
    requires e.value == before + ([NEWLINE] + after)
    ensures EntryLine(e) == CutLine(e, before) + ([NEWLINE] + (Escaped(after) + [SINGLE]))
  {
    EscapedAtNewline(before, after);
    hide Escaped, Kind;
    NestTail([TAB], Kind(e) + [SPACE], e.key + [SPACE], [SINGLE] + Escaped(before),
        [NEWLINE] + (Escaped(after) + [SINGLE]));
    Rebracket([SINGLE], Escaped(before), [NEWLINE] + Escaped(after), [SINGLE]);
    Rebracket([], [NEWLINE], Escaped(after), [SINGLE]);
  }

  lemma SplitAtNewline(e: Entry, before: bytes, after: bytes, rest: bytes)
    requires e.value == before + ([NEWLINE] + after)
    ensures EntryLine(e) + [NEWLINE] + rest
         == CutLine(e, before) + [NEWLINE] + (Escaped(after) + [SINGLE] + [NEWLINE] + rest)
  {
    CutEntryLine(e, before, after);
    hide EntryLine, CutLine, Escaped;
    TwoLines(CutLine(e, before), Escaped(after) + [SINGLE], rest);
  }

  lemma TwoLines(first: bytes, second: bytes, rest: bytes)
    ensures first + ([NEWLINE] + second) + [NEWLINE] + rest == first + [NEWLINE] + (second + [NEWLINE] + rest)
  {}

  lemma NestTail(t: bytes, k: bytes, y: bytes, x: bytes, w: bytes)
    ensures t + (k + (y + (x + w))) == t + (k + (y + x)) + w
  {}

  /** A value with a newline breaks its line inside the quotes, so the section cannot be read. */
  lemma NewlineFails(st: Section, e: Entry, rest: bytes)
    requires PlainWord(e.key) && NEWLINE !in e.key && NEWLINE in e.value
    ensures ParseFrom(EntryLine(e) + [NEWLINE] + rest, st) == None
  {
    hide ParseFrom, EntryLine, CutLine, ApplyLine, PlainWord;
    var n := LineEnd(e.value);
    assert n < |e.value| by {
      assert e.value[..|e.value|] == e.value;
    }
    var before, after := e.value[..n], e.value[n + 1..];
    assert e.value == before + ([NEWLINE] + after);
    SplitAtNewline(e, before, after, rest);
    CutLineNoNewline(e, before);
    CutLineFails(st, e, before);
    ParseLine(CutLine(e, before), Escaped(after) + [SINGLE] + [NEWLINE] + rest, st);
  }

  lemma CutLineNoNewline(e: Entry, before: bytes)
    requires NEWLINE !in e.key && NEWLINE !in before
    ensures NEWLINE !in CutLine(e, before)
  {
    KindPlain(e);
    EscapedKeepsNewlines(before);
  }

  lemma KindPlain(e: Entry)
    ensures PlainWord(Kind(e)) && NEWLINE !in Kind(e)
  {
    WordsPlain();
  }

  lemma CutLineFails(st: Section, e: Entry, before: bytes)
    requires PlainWord(e.key)
    ensures ApplyLine(st, CutLine(e, before)) == None
  {
    hide Lex, PlainWord;
    LexEntry(e.(value := before));
    assert Lex(CutLine(e, before), START) == None;
    if CutLine(e, before)[|CutLine(e, before)| - 1] == RETURN {
      CutLineShorter(e, before);
      LexEntry(e.(value := before[..|before| - 1]));
    }
  }

  lemma CutLineShorter(e: Entry, before: bytes)
    requires CutLine(e, before)[|CutLine(e, before)| - 1] == RETURN
    ensures before != [] && WithoutReturn(CutLine(e, before)) == CutLine(e, before[..|before| - 1])
  {
    hide Kind, Escaped;
    EscapedEnds(before);
  }

  lemma EscapedEnds(s: bytes)
    ensures ([SINGLE] + Escaped(s))[|Escaped(s)|] == RETURN ==>
              s != [] && Escaped(s[..|s| - 1]) == Escaped(s)[..|Escaped(s)| - 1]
  {
    if s != [] {
      var last := s[|s| - 1];
      assert s == s[..|s| - 1] + [last];
      EscapedConcat(s[..|s| - 1], [last]);
      assert Escaped([last]) == if last == SINGLE then [SINGLE, ESCAPE, SINGLE, SINGLE] else [last];
    }
  }

  lemma {:induction false} ParseRendered(es: seq<Entry>, st: Section)
    requires KeysPlain(es) && st.active
    ensures ParseFrom(Rendered(es), st) ==
            if forall i :: 0 <= i < |es| ==> Fits(es[i]) then Some(st.(values := StoredAll(st.values, es))) else None
    decreases |es|
  {
    hide EntryLine, ApplyLine, Stored, PlainWord;
    if es != [] {
      var e, rest := es[0], Rendered(es[1..]);
      if NEWLINE in e.value {
        NewlineFails(st, e, rest);
        assert !Fits(es[0]);
      } else {
        EntryLineNoNewline(e);
        ParseLine(EntryLine(e), rest, st);
        ApplyEntryLine(st, e);
        ParseRendered(es[1..], st.(values := Stored(st.values, e)));
        assert (forall i :: 0 <= i < |es| ==> Fits(es[i])) <==>
               Fits(e) && forall i :: 0 <= i < |es[1..]| ==> Fits(es[1..][i]);
      }
    }
  }

  lemma EntryLineNoNewline(e: Entry)
    requires NEWLINE !in e.key && NEWLINE !in e.value
    ensures NEWLINE !in EntryLine(e)
  {
    KindPlain(e);
    EscapedKeepsNewlines(e.value);
  }

  lemma HeadingOpens(rest: bytes)
    ensures ParseFrom(HEADING + [NEWLINE] + rest, NO_SECTION) == ParseFrom(rest, Section(true, map[]))
  {
    WordsPlain();
    EscapedKeepsNewlines(MAIN);
    assert NEWLINE !in HEADING;
    hide Lex;
    LexPlain(CONFIG, EMULATOR + [SPACE] + Quote(MAIN), []);
    LexPlain(EMULATOR, Quote(MAIN), [] + [CONFIG]);
    LexOne(MAIN, [] + [CONFIG] + [EMULATOR]);
    assert [] + [CONFIG] + [EMULATOR] + [MAIN] == [CONFIG, EMULATOR, MAIN];
    assert HEADING[|HEADING| - 1] == SINGLE;
    MainLength();
    ParseLine(HEADING, rest, NO_SECTION);
  }

  lemma MainLength()
    ensures |HEADING| <= MAX_LINE
  {
    EscapedLength(MAIN);
  }

  lemma {:induction false} EscapedLength(s: bytes)
    ensures |Escaped(s)| <= 4 * |s|
  {
    if s != [] {
      EscapedLength(s[1..]);
    }
  }

  /** Reading a written section gives its entries back exactly when each value fits on a line of its own. */
  lemma RenderThenParse(es: seq<Entry>)
    requires KeysPlain(es)
    ensures ParseFrom(RenderSection(es), NO_SECTION) ==
            if forall i :: 0 <= i < |es| ==> Fits(es[i]) then Some(Section(true, StoredAll(map[], es))) else None
  {
    hide Fits, Rendered, StoredAll, HEADING;
    HeadingOpens(Rendered(es));
    ParseRendered(es, Section(true, map[]));
  }
}
