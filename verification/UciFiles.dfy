/**
 * What a whole configuration file says, line by line: which lines make it unreadable, which belong to the one
 * section the daemon uses, and which values each option is left with.
 */
module UciFiles {
  import opened Bytes
  import opened UciWords
  import opened UciConfig

  /** A line without its end, and whether a carriage return precedes its newline. */
  datatype Line = Line(text: bytes, dos: bool)

  predicate LineOk(l: Line) {
    10 !in l.text && (!l.dos && l.text != [] ==> l.text[|l.text| - 1] != 13)
  }

  function Written(l: Line): bytes {
    l.text + if l.dos then [13] else []
  }

  function FileText(ls: seq<Line>): bytes {
    if ls == [] then [] else Written(ls[0]) + [10] + FileText(ls[1..])
  }

  // ----- the meaning ------------------------------------------------------------------------

  function WordsAt(ls: seq<Line>, i: nat): (ws: seq<bytes>)
    requires i < |ls|
  {
    var ws := Lex(ls[i].text, START);
    if ws.Some? then ws.value else []
  }

  predicate Starts(ws: seq<bytes>, word: bytes) {
    ws != [] && ws[0] == word
  }

  /** After the first `n` lines: the latest section heading is that of the emulator's main section. */
  predicate Active(ls: seq<Line>, n: nat)
    requires n <= |ls|
  {
    exists i :: 0 <= i < n && HeadingAt(ls, i)
      && forall j :: i < j < n ==> !Starts(WordsAt(ls, j), Ascii("config"))
  }

  predicate HeadingAt(ls: seq<Line>, i: nat)
    requires i < |ls|
  {
    var ws := WordsAt(ls, i);
    Starts(ws, Ascii("config")) && |ws| >= 3 && ws[1] == Ascii("emulator") && ws[2] == Ascii("main")
  }

  predicate EntryAt(ls: seq<Line>, i: nat)
    requires i < |ls|
  {
    Active(ls, i) && (Starts(WordsAt(ls, i), Ascii("option")) || Starts(WordsAt(ls, i), Ascii("list")))
  }

  /** Too long for the scanner, not to be split, or an option of the section without exactly a key and a value. */
  predicate Bad(ls: seq<Line>, i: nat)
    requires i < |ls|
  {
    |Written(ls[i])| > 65535 || Lex(ls[i].text, START).None? || (EntryAt(ls, i) && |WordsAt(ls, i)| != 3)
  }

  /** The values of a key: from its latest option line on, that value and those of the list lines behind it. */
  function Collected(ls: seq<Line>, n: nat, key: bytes): seq<bytes>
    requires n <= |ls|
  {
    if n == 0 then []
    else
      var ws := WordsAt(ls, n - 1);
      if !EntryAt(ls, n - 1) || |ws| != 3 || ws[1] != key then Collected(ls, n - 1, key)
      else if ws[0] == Ascii("option") then [ws[2]]
      else Collected(ls, n - 1, key) + [ws[2]]
  }

  // ----- the proof --------------------------------------------------------------------------

  function RunLines(ls: seq<Line>, n: nat): Option<Section>
    requires n <= |ls|
  {
    if n == 0 then Some(NO_SECTION)
    else
      var before := RunLines(ls, n - 1);
      if before.None? || |Written(ls[n - 1])| > 65535 then None else ApplyLine(before.value, Written(ls[n - 1]))
  }

  lemma WithoutReturnIs(l: Line)
    requires LineOk(l)
    ensures WithoutReturn(Written(l)) == l.text
  {
    assert l.dos ==> Written(l)[..|l.text|] == l.text;
  }

  lemma ConfigWords()
    ensures CONFIG == Ascii("config") && OPTION == Ascii("option") && LIST == Ascii("list")
    ensures EMULATOR == Ascii("emulator") && MAIN == Ascii("main")
    ensures Ascii("option") != Ascii("config") && Ascii("list") != Ascii("config") && Ascii("list") != Ascii("option")
  {
    WordsPlain();
  }

  ghost predicate Says(st: Section, ls: seq<Line>, n: nat)
    requires n <= |ls|
  {
    && (st.active <==> Active(ls, n))
    && (forall k :: k in st.values <==> Collected(ls, n, k) != [])
    && (forall k :: k in st.values ==> st.values[k] == Collected(ls, n, k))
  }

  lemma ActiveStep(ls: seq<Line>, n: nat)
    requires n < |ls|
    ensures Active(ls, n + 1) <==>
            if Starts(WordsAt(ls, n), Ascii("config")) then HeadingAt(ls, n) else Active(ls, n)
  {
    hide Starts, WordsAt;
    if Starts(WordsAt(ls, n), Ascii("config")) {
      assert Active(ls, n + 1) ==> HeadingAt(ls, n);
    } else if Active(ls, n) {
      var i :| 0 <= i < n && HeadingAt(ls, i) && forall j :: i < j < n ==> !Starts(WordsAt(ls, j), Ascii("config"));
      assert forall j :: i < j < n + 1 ==> !Starts(WordsAt(ls, j), Ascii("config"));
    }
    HeadingIsConfig(ls, n);
  }

  lemma HeadingIsConfig(ls: seq<Line>, i: nat)
    requires i < |ls|
    ensures HeadingAt(ls, i) ==> Starts(WordsAt(ls, i), Ascii("config"))
  {}

  lemma StepSays(st: Section, ls: seq<Line>, n: nat)
    requires n < |ls| && LineOk(ls[n]) && Says(st, ls, n) && |Written(ls[n])| <= 65535
    ensures var next := ApplyLine(st, Written(ls[n]));
      && (next.None? <==> Bad(ls, n))
      && (next.Some? ==> Says(next.value, ls, n + 1))
  {
    hide Lex, Active, Written, WithoutReturn;
    WithoutReturnIs(ls[n]);
    ConfigWords();
    ActiveStep(ls, n);
  }

  lemma {:induction false} RunSays(ls: seq<Line>, n: nat)
    requires n <= |ls| && forall i :: 0 <= i < |ls| ==> LineOk(ls[i])
    ensures RunLines(ls, n).None? <==> exists i :: 0 <= i < n && Bad(ls, i)
    ensures RunLines(ls, n).Some? ==> Says(RunLines(ls, n).value, ls, n)
  {
    hide Bad, Says, ApplyLine, LineOk, Written;
    if n == 0 {
      NothingSaid(ls);
    } else {
      RunSays(ls, n - 1);
      if |Written(ls[n - 1])| > 65535 {
        TooLongIsBad(ls, n - 1);
      }
      if RunLines(ls, n - 1).Some? && |Written(ls[n - 1])| <= 65535 {
        StepSays(RunLines(ls, n - 1).value, ls, n - 1);
      }
    }
  }

  lemma TooLongIsBad(ls: seq<Line>, i: nat)
    requires i < |ls| && |Written(ls[i])| > 65535
    ensures Bad(ls, i)
  {}

  lemma NothingSaid(ls: seq<Line>)
    ensures Says(NO_SECTION, ls, 0)
  {}

  lemma WrittenIsLine(l: Line)
    requires LineOk(l)
    ensures NEWLINE !in Written(l)
  {}

  lemma {:induction false} ParseRuns(ls: seq<Line>, n: nat)
    requires n <= |ls| && forall i :: 0 <= i < |ls| ==> LineOk(ls[i])
    ensures RunLines(ls, n).Some? ==>
              ParseFrom(FileText(ls), NO_SECTION) == ParseFrom(FileText(ls[n..]), RunLines(ls, n).value)
    ensures RunLines(ls, n).None? ==> ParseFrom(FileText(ls), NO_SECTION).None?
  {
    hide ParseFrom, ApplyLine, Written, LineOk;
    if n == 0 {
      assert ls[0..] == ls;
    } else {
      ParseRuns(ls, n - 1);
      if RunLines(ls, n - 1).Some? {
        var l, rest := ls[n - 1], FileText(ls[n..]);
        assert ls[n - 1..][1..] == ls[n..];
        assert FileText(ls[n - 1..]) == Written(l) + [NEWLINE] + rest;
        WrittenIsLine(l);
        ParseLine(Written(l), rest, RunLines(ls, n - 1).value);
      }
    }
  }

  lemma NothingLeft(st: Section)
    ensures ParseFrom([], st) == Some(st)
  {}

  /** The newline of the last line may be missing. */
  lemma {:induction false} LastNewline(data: bytes, st: Section)
    requires data != [] && data[|data| - 1] != NEWLINE
    ensures ParseFrom(data + [NEWLINE], st) == ParseFrom(data, st)
    decreases |data|
  {
    hide ApplyLine;
    var n := LineEnd(data);
    if n == |data| {
      assert data + [NEWLINE] == data[..n] + [NEWLINE] + [];
      ParseLine(data[..n], [], st);
    } else {
      var line, rest := data[..n], data[n + 1..];
      assert data == line + [NEWLINE] + rest;
      assert data + [NEWLINE] == line + [NEWLINE] + (rest + [NEWLINE]);
      ParseLine(line, rest, st);
      ParseLine(line, rest + [NEWLINE], st);
      if ApplyLine(st, line).Some? {
        LastNewline(rest, ApplyLine(st, line).value);
      }
    }
  }

  /**
   * A file is unreadable exactly when one of its lines is bad. Otherwise every key has the values collected for it in
   * the section, and the end of line, the last newline and everything outside the section make no difference.
   */
  lemma FileSays(ls: seq<Line>, data: bytes)
    requires forall i :: 0 <= i < |ls| ==> LineOk(ls[i])
    requires data == FileText(ls) || (data != [] && data[|data| - 1] != 10 && data + [10] == FileText(ls))
    ensures var r := ParseFrom(data, NO_SECTION);
      && (r.None? <==> exists i :: 0 <= i < |ls| && Bad(ls, i))
      && (r.Some? ==> forall k :: k in r.value.values <==> Collected(ls, |ls|, k) != [])
      && (r.Some? ==> forall k :: k in r.value.values ==> r.value.values[k] == Collected(ls, |ls|, k))
  {
    hide ParseFrom, RunLines, Bad, Collected, FileText;
    RunSays(ls, |ls|);
    ParseRuns(ls, |ls|);
    assert ls[|ls|..] == [];
    NoText();
    if RunLines(ls, |ls|).Some? {
      NothingLeft(RunLines(ls, |ls|).value);
    }
    if data != FileText(ls) {
      LastNewline(data, NO_SECTION);
    }
  }

  lemma NoText()
    ensures FileText([]) == []
  {}
}
