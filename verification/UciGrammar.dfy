/**
 * The written forms of a UCI line and what they mean: words of bare, escaped, single-quoted and double-quoted pieces,
 * blanks between them, a comment behind them. Every line so written splits into its words, and a line that breaks
 * off inside a quote or after a backslash is an error.
 */
module UciGrammar {
  import opened Bytes
  import opened UciWords

  datatype Atom = Literal(ch: byte) | Backslashed(ch: byte)

  datatype Piece = Bare(ch: byte) | Escape(ch: byte) | InSingle(text: bytes) | InDouble(atoms: seq<Atom>)

  /** Blanks, quotes and the backslash have to be quoted. */
  predicate Plain(ch: byte) {
    ch !in {32, 9, 13, 39, 34, 92}
  }

  predicate AtomOk(a: Atom) {
    a.Literal? ==> a.ch !in {34, 92}
  }

  predicate PieceOk(p: Piece) {
    match p
    case Bare(ch) => Plain(ch)
    case Escape(_) => true
    case InSingle(text) => 39 !in text
    case InDouble(atoms) => forall i :: 0 <= i < |atoms| ==> AtomOk(atoms[i])
  }

  function AtomsText(atoms: seq<Atom>): bytes {
    if atoms == [] then []
    else (if atoms[0].Literal? then [atoms[0].ch] else [92, atoms[0].ch]) + AtomsText(atoms[1..])
  }

  function AtomsMean(atoms: seq<Atom>): bytes {
    if atoms == [] then [] else [atoms[0].ch] + AtomsMean(atoms[1..])
  }

  function PieceText(p: Piece): bytes {
    match p
    case Bare(ch) => [ch]
    case Escape(ch) => [92, ch]
    case InSingle(text) => [39] + text + [39]
    case InDouble(atoms) => [34] + AtomsText(atoms) + [34]
  }

  function PieceMeans(p: Piece): bytes {
    match p
    case Bare(ch) => [ch]
    case Escape(ch) => [ch]
    case InSingle(text) => text
    case InDouble(atoms) => AtomsMean(atoms)
  }

  function WordText(w: seq<Piece>): bytes {
    if w == [] then [] else PieceText(w[0]) + WordText(w[1..])
  }

  function WordMeans(w: seq<Piece>): bytes {
    if w == [] then [] else PieceMeans(w[0]) + WordMeans(w[1..])
  }

  /** A word has at least one piece, possibly an empty quotation, and does not start with a bare hash sign. */
  predicate WordOk(w: seq<Piece>) {
    w != [] && w[0] != Bare(35) && forall i :: 0 <= i < |w| ==> PieceOk(w[i])
  }

  predicate Gap(s: bytes) {
    forall i :: 0 <= i < |s| ==> s[i] in {32, 9, 13}
  }

  /** A word and the blanks behind it. */
  datatype Spaced = Spaced(word: seq<Piece>, gap: bytes)

  function LineText(ws: seq<Spaced>): bytes {
    if ws == [] then [] else WordText(ws[0].word) + ws[0].gap + LineText(ws[1..])
  }

  function LineMeans(ws: seq<Spaced>): seq<bytes> {
    if ws == [] then [] else [WordMeans(ws[0].word)] + LineMeans(ws[1..])
  }

  /** Every word is well formed, and has blanks behind it unless it ends the line. */
  predicate LineOk(ws: seq<Spaced>) {
    forall i :: 0 <= i < |ws| ==> WordOk(ws[i].word) && Gap(ws[i].gap) && (i < |ws| - 1 ==> ws[i].gap != [])
  }

  /** A comment starts with a hash sign outside a word. */
  predicate CommentAfter(ws: seq<Spaced>, comment: bytes) {
    comment == [] || (comment[0] == 35 && (ws != [] ==> ws[|ws| - 1].gap != []))
  }

  // ----- pieces -----------------------------------------------------------------------------

  lemma {:induction false} SingleReads(text: bytes, rest: bytes, st: Scan)
    requires st.quote == 39 && st.active && 39 !in text
    ensures Lex(text + [39] + rest, st) == Lex(rest, st.(word := st.word + text, quote := 0))
    decreases |text|
  {
    var line := text + [39] + rest;
    if text == [] {
      assert line[1..] == rest && st.word + text == st.word;
    } else {
      assert line[1..] == text[1..] + [39] + rest;
      SingleReads(text[1..], rest, st.(word := st.word + [text[0]]));
      assert st.word + [text[0]] + text[1..] == st.word + text;
    }
  }

  lemma {:induction false} DoubleReads(atoms: seq<Atom>, rest: bytes, st: Scan)
    requires st.quote == 34 && st.active && forall i :: 0 <= i < |atoms| ==> AtomOk(atoms[i])
    ensures Lex(AtomsText(atoms) + [34] + rest, st) == Lex(rest, st.(word := st.word + AtomsMean(atoms), quote := 0))
    decreases |atoms|
  {
    var line := AtomsText(atoms) + [34] + rest;
    if atoms == [] {
      assert line[1..] == rest && st.word + [] == st.word;
    } else {
      var a, more := atoms[0], AtomsText(atoms[1..]) + [34] + rest;
      DoubleReads(atoms[1..], rest, st.(word := st.word + [a.ch]));
      assert st.word + [a.ch] + AtomsMean(atoms[1..]) == st.word + AtomsMean(atoms);
      assert AtomOk(a);
      if a.Literal? {
        assert line == [a.ch] + more && line[1..] == more;
      } else {
        assert line == [92, a.ch] + more && line[2..] == more;
      }
    }
  }

  lemma PieceReads(p: Piece, rest: bytes, st: Scan)
    requires st.quote == 0 && PieceOk(p) && (p == Bare(35) ==> st.active)
    ensures Lex(PieceText(p) + rest, st) == Lex(rest, st.(word := st.word + PieceMeans(p), active := true))
  {
    hide AtomsText, AtomsMean, Lex;
    match p {
      case Bare(ch) => OneReads(ch, rest, st);
      case Escape(ch) => TwoRead(ch, rest, st);
      case InSingle(text) => SingleOpens(text, rest, st);
      case InDouble(atoms) => DoubleOpens(atoms, rest, st);
    }
  }

  lemma OneReads(ch: byte, rest: bytes, st: Scan)
    requires st.quote == 0 && Plain(ch) && (ch == 35 ==> st.active)
    ensures Lex([ch] + rest, st) == Lex(rest, st.(word := st.word + [ch], active := true))
  {
    assert ([ch] + rest)[1..] == rest;
  }

  lemma TwoRead(ch: byte, rest: bytes, st: Scan)
    requires st.quote == 0
    ensures Lex([92, ch] + rest, st) == Lex(rest, st.(word := st.word + [ch], active := true))
  {
    assert ([92, ch] + rest)[2..] == rest;
  }

  lemma SingleOpens(text: bytes, rest: bytes, st: Scan)
    requires st.quote == 0 && 39 !in text
    ensures Lex([39] + text + [39] + rest, st) == Lex(rest, st.(word := st.word + text, active := true))
  {
    assert ([39] + text + [39] + rest)[1..] == text + [39] + rest;
    SingleReads(text, rest, st.(quote := 39, active := true));
  }

  lemma DoubleOpens(atoms: seq<Atom>, rest: bytes, st: Scan)
    requires st.quote == 0 && forall i :: 0 <= i < |atoms| ==> AtomOk(atoms[i])
    ensures Lex([34] + AtomsText(atoms) + [34] + rest, st) ==
            Lex(rest, st.(word := st.word + AtomsMean(atoms), active := true))
  {
    assert ([34] + AtomsText(atoms) + [34] + rest)[1..] == AtomsText(atoms) + [34] + rest;
    DoubleReads(atoms, rest, st.(quote := 34, active := true));
  }

  lemma {:induction false} WordReads(w: seq<Piece>, rest: bytes, st: Scan)
    requires st.quote == 0 && (forall i :: 0 <= i < |w| ==> PieceOk(w[i])) && (st.active || WordOk(w))
    ensures Lex(WordText(w) + rest, st) == Lex(rest, st.(word := st.word + WordMeans(w), active := true))
    decreases |w|
  {
    hide Lex, PieceText, PieceMeans;
    if w == [] {
      assert [] + rest == rest && st.word + [] == st.word;
    } else {
      var more := WordText(w[1..]) + rest;
      assert WordText(w) + rest == PieceText(w[0]) + more;
      PieceReads(w[0], more, st);
      var next := st.(word := st.word + PieceMeans(w[0]), active := true);
      WordReads(w[1..], rest, next);
      assert next.word + WordMeans(w[1..]) == st.word + WordMeans(w);
    }
  }

  // ----- lines ------------------------------------------------------------------------------

  lemma {:induction false} BlanksRead(gap: bytes, rest: bytes, out: seq<bytes>)
    requires Gap(gap)
    ensures Lex(gap + rest, Scan(out, [], false, 0)) == Lex(rest, Scan(out, [], false, 0))
    decreases |gap|
  {
    if gap == [] {
      assert gap + rest == rest;
    } else {
      assert (gap + rest)[1..] == gap[1..] + rest;
      BlanksRead(gap[1..], rest, out);
    }
  }

  lemma GapEndsWord(gap: bytes, rest: bytes, st: Scan)
    requires Gap(gap) && gap != [] && st.quote == 0 && st.active
    ensures Lex(gap + rest, st) == Lex(rest, Scan(st.out + [st.word], [], false, 0))
  {
    assert (gap + rest)[1..] == gap[1..] + rest;
    BlanksRead(gap[1..], rest, st.out + [st.word]);
  }

  lemma CommentReads(comment: bytes, out: seq<bytes>)
    requires comment == [] || comment[0] == 35
    ensures Lex(comment, Scan(out, [], false, 0)) == Some(out)
  {}

  lemma EndReads(st: Scan)
    requires st.quote == 0 && st.active
    ensures Lex([], st) == Some(st.out + [st.word])
  {}

  lemma {:induction false} LineReads(ws: seq<Spaced>, comment: bytes, out: seq<bytes>)
    requires LineOk(ws) && CommentAfter(ws, comment)
    ensures Lex(LineText(ws) + comment, Scan(out, [], false, 0)) == Some(out + LineMeans(ws))
    decreases |ws|
  {
    hide Lex, WordText, WordMeans, WordOk;
    if ws == [] {
      assert LineText(ws) + comment == comment && out + [] == out;
      CommentReads(comment, out);
    } else {
      var w, gap, rest := ws[0].word, ws[0].gap, LineText(ws[1..]) + comment;
      var after := Scan(out, WordMeans(w), true, 0);
      assert WordOk(w) && Gap(gap);
      assert LineText(ws) + comment == WordText(w) + (gap + rest);
      PiecesOk(w);
      WordReads(w, gap + rest, Scan(out, [], false, 0));
      assert [] + WordMeans(w) == WordMeans(w);
      assert out + [WordMeans(w)] + LineMeans(ws[1..]) == out + LineMeans(ws);
      if gap == [] {
        assert ws[1..] == [] && comment == [] && gap + rest == [];
        EndReads(after);
        assert out + [WordMeans(w)] + [] == out + [WordMeans(w)];
      } else {
        GapEndsWord(gap, rest, after);
        assert forall i :: 0 <= i < |ws[1..]| ==> ws[1..][i] == ws[i + 1];
        LineReads(ws[1..], comment, out + [WordMeans(w)]);
      }
    }
  }

  lemma PiecesOk(w: seq<Piece>)
    requires WordOk(w)
    ensures forall i :: 0 <= i < |w| ==> PieceOk(w[i])
  {}

  /** Leading blanks, words with blanks between them, and a comment: exactly the words are read, for every spelling. */
  lemma SpelledLineReads(lead: bytes, ws: seq<Spaced>, comment: bytes)
    requires Gap(lead) && LineOk(ws) && CommentAfter(ws, comment)
    ensures Lex(lead + LineText(ws) + comment, START) == Some(LineMeans(ws))
  {
    hide Lex, LineOk, CommentAfter;
    assert lead + LineText(ws) + comment == lead + (LineText(ws) + comment);
    BlanksRead(lead, LineText(ws) + comment, []);
    LineReads(ws, comment, []);
    assert [] + LineMeans(ws) == LineMeans(ws);
  }

  // ----- errors -----------------------------------------------------------------------------

  /** The last word breaks off after a backslash, or inside a single or double quotation. */
  datatype Break = AfterBackslash | InsideSingle(text: bytes) | InsideDouble(atoms: seq<Atom>, backslash: bool)

  predicate BreakOk(b: Break) {
    match b
    case AfterBackslash => true
    case InsideSingle(text) => 39 !in text
    case InsideDouble(atoms, _) => forall i :: 0 <= i < |atoms| ==> AtomOk(atoms[i])
  }

  function BreakText(b: Break): bytes {
    match b
    case AfterBackslash => [92]
    case InsideSingle(text) => [39] + text
    case InsideDouble(atoms, backslash) => [34] + AtomsText(atoms) + if backslash then [92] else []
  }

  lemma {:induction false} SingleBreaks(text: bytes, st: Scan)
    requires st.quote == 39 && 39 !in text
    ensures Lex(text, st) == None
    decreases |text|
  {
    if text != [] {
      SingleBreaks(text[1..], st.(word := st.word + [text[0]]));
    }
  }

  lemma {:induction false} DoubleBreaks(atoms: seq<Atom>, end: bytes, st: Scan)
    requires st.quote == 34 && (forall i :: 0 <= i < |atoms| ==> AtomOk(atoms[i])) && (end == [] || end == [92])
    ensures Lex(AtomsText(atoms) + end, st) == None
    decreases |atoms|
  {
    var line := AtomsText(atoms) + end;
    if atoms == [] {
      assert line == end;
    } else {
      var a, more := atoms[0], AtomsText(atoms[1..]) + end;
      DoubleBreaks(atoms[1..], end, st.(word := st.word + [a.ch]));
      assert AtomOk(a);
      if a.Literal? {
        assert line == [a.ch] + more && line[1..] == more;
      } else {
        assert line == [92, a.ch] + more && line[2..] == more;
      }
    }
  }

  lemma BreakFails(b: Break, st: Scan)
    requires st.quote == 0 && BreakOk(b)
    ensures Lex(BreakText(b), st) == None
  {
    match b {
      case AfterBackslash =>
      case InsideSingle(text) =>
        assert BreakText(b)[1..] == text;
        SingleBreaks(text, st.(quote := 39, active := true));
      case InsideDouble(atoms, backslash) =>
        var end := if backslash then [92] else [];
        assert BreakText(b)[1..] == AtomsText(atoms) + end;
        DoubleBreaks(atoms, end, st.(quote := 34, active := true));
    }
  }

  lemma {:induction false} LineThenBreak(ws: seq<Spaced>, w: seq<Piece>, b: Break, out: seq<bytes>)
    requires LineOk(ws) && (ws != [] ==> ws[|ws| - 1].gap != []) && (w == [] || WordOk(w)) && BreakOk(b)
    ensures Lex(LineText(ws) + (WordText(w) + BreakText(b)), Scan(out, [], false, 0)) == None
    decreases |ws|
  {
    hide Lex, WordMeans, WordOk, BreakText, PieceText;
    var end := WordText(w) + BreakText(b);
    if ws == [] {
      assert LineText(ws) + end == end;
      if w == [] {
        assert end == BreakText(b);
        BreakFails(b, Scan(out, [], false, 0));
      } else {
        PiecesOk(w);
        WordReads(w, BreakText(b), Scan(out, [], false, 0));
        BreakFails(b, Scan(out, [] + WordMeans(w), true, 0));
      }
    } else {
      hide WordText;
      var v, gap, rest := ws[0].word, ws[0].gap, LineText(ws[1..]) + end;
      assert WordOk(v) && Gap(gap) && gap != [];
      assert LineText(ws) + end == WordText(v) + (gap + rest);
      PiecesOk(v);
      WordReads(v, gap + rest, Scan(out, [], false, 0));
      assert [] + WordMeans(v) == WordMeans(v);
      GapEndsWord(gap, rest, Scan(out, WordMeans(v), true, 0));
      assert forall i :: 0 <= i < |ws[1..]| ==> ws[1..][i] == ws[i + 1];
      LineThenBreak(ws[1..], w, b, out + [WordMeans(v)]);
    }
  }

  /** A line whose last word breaks off is an error, whatever stands before it. */
  lemma BrokenLineFails(lead: bytes, ws: seq<Spaced>, w: seq<Piece>, b: Break)
    requires Gap(lead) && LineOk(ws) && (ws != [] ==> ws[|ws| - 1].gap != []) && (w == [] || WordOk(w)) && BreakOk(b)
    ensures Lex(lead + (LineText(ws) + (WordText(w) + BreakText(b))), START) == None
  {
    hide Lex, LineText, WordText, BreakText, LineOk, WordOk, BreakOk;
    BlanksRead(lead, LineText(ws) + (WordText(w) + BreakText(b)), []);
    LineThenBreak(ws, w, b, []);
  }

  // ----- every line is of one kind or the other -------------------------------------------------

  datatype Head = Whole(piece: Piece, rest: bytes) | Broken(at: Break)

  datatype Tail = Then(rest: bytes) | Off(at: Break)

  datatype Shape = Clean(comment: bytes) | Cut(word: seq<Piece>, at: Break)

  lemma {:induction false} SingleScanned(line: bytes) returns (text: bytes, closed: bool, rest: bytes)
    ensures 39 !in text && line == if closed then text + [39] + rest else text
  {
    if line == [] {
      text, closed, rest := [], false, [];
    } else if line[0] == 39 {
      text, closed, rest := [], true, line[1..];
    } else {
      text, closed, rest := SingleScanned(line[1..]);
      text := [line[0]] + text;
      assert line == [line[0]] + line[1..];
    }
  }

  lemma {:induction false} DoubleScanned(line: bytes)
      returns (atoms: seq<Atom>, closed: bool, backslash: bool, rest: bytes)
    ensures forall i :: 0 <= i < |atoms| ==> AtomOk(atoms[i])
    ensures line == AtomsText(atoms) + if closed then [34] + rest else if backslash then [92] else []
    decreases |line|
  {
    if line == [] {
      atoms, closed, backslash, rest := [], false, false, [];
    } else if line[0] == 34 {
      atoms, closed, backslash, rest := [], true, false, line[1..];
    } else if line == [92] {
      atoms, closed, backslash, rest := [], false, true, [];
    } else {
      var a := if line[0] == 92 then Backslashed(line[1]) else Literal(line[0]);
      var n := if line[0] == 92 then 2 else 1;
      atoms, closed, backslash, rest := DoubleScanned(line[n..]);
      assert line == (if a.Literal? then [a.ch] else [92, a.ch]) + line[n..];
      assert ([a] + atoms)[1..] == atoms;
      atoms := [a] + atoms;
    }
  }

  lemma HeadScanned(line: bytes) returns (h: Head)
    requires line != [] && line[0] !in {32, 9, 13}
    ensures h.Whole? ==> PieceOk(h.piece) && line == PieceText(h.piece) + h.rest
    ensures h.Broken? ==> BreakOk(h.at) && line == BreakText(h.at)
  {
    if line[0] == 39 {
      var text, closed, rest := SingleScanned(line[1..]);
      h := if closed then Whole(InSingle(text), rest) else Broken(InsideSingle(text));
      assert line == [39] + line[1..];
    } else if line[0] == 34 {
      var atoms, closed, backslash, rest := DoubleScanned(line[1..]);
      h := if closed then Whole(InDouble(atoms), rest) else Broken(InsideDouble(atoms, backslash));
      assert line == [34] + line[1..];
    } else if line == [92] {
      h := Broken(AfterBackslash);
    } else if line[0] == 92 {
      h := Whole(Escape(line[1]), line[2..]);
    } else {
      h := Whole(Bare(line[0]), line[1..]);
    }
  }

  lemma PieceNotEmpty(p: Piece)
    ensures PieceText(p) != []
    ensures PieceText(p)[0] == 35 <==> p == Bare(35)
  {}

  lemma {:induction false} WordScanned(line: bytes) returns (w: seq<Piece>, t: Tail)
    ensures forall i :: 0 <= i < |w| ==> PieceOk(w[i])
    ensures t.Then? ==> line == WordText(w) + t.rest && (t.rest == [] || t.rest[0] in {32, 9, 13})
    ensures t.Off? ==> BreakOk(t.at) && line == WordText(w) + BreakText(t.at)
    decreases |line|
  {
    hide PieceText, BreakText, PieceOk, BreakOk;
    if line == [] || line[0] in {32, 9, 13} {
      w, t := [], Then(line);
    } else {
      var h := HeadScanned(line);
      match h {
        case Broken(at) => w, t := [], Off(at);
        case Whole(p, rest) =>
          PieceNotEmpty(p);
          w, t := WordScanned(rest);
          assert ([p] + w)[1..] == w;
          w := [p] + w;
      }
    }
  }

  lemma {:induction false} GapScanned(line: bytes) returns (gap: bytes, rest: bytes)
    ensures Gap(gap) && line == gap + rest && (rest == [] || rest[0] !in {32, 9, 13})
    ensures gap == [] ==> rest == line
  {
    if line == [] || line[0] !in {32, 9, 13} {
      gap, rest := [], line;
    } else {
      gap, rest := GapScanned(line[1..]);
      gap := [line[0]] + gap;
      assert line == [line[0]] + line[1..];
    }
  }

  ghost predicate HasShape(line: bytes, ws: seq<Spaced>, s: Shape) {
    && LineOk(ws)
    && match s
       case Clean(comment) => CommentAfter(ws, comment) && line == LineText(ws) + comment
       case Cut(w, b) =>
         && (ws != [] ==> ws[|ws| - 1].gap != []) && (w == [] || WordOk(w)) && BreakOk(b)
         && line == LineText(ws) + (WordText(w) + BreakText(b))
  }

  lemma FirstPiece(line: bytes, w: seq<Piece>)
    requires line != [] && line[0] != 35 && w != [] && |WordText(w)| <= |line| && line[..|WordText(w)|] == WordText(w)
    requires forall i :: 0 <= i < |w| ==> PieceOk(w[i])
    ensures WordOk(w)
  {
    PieceNotEmpty(w[0]);
    assert WordText(w)[0] == line[0];
  }

  lemma ShapeBehind(v: Spaced, rest: bytes, ws: seq<Spaced>, s: Shape)
    requires WordOk(v.word) && Gap(v.gap) && v.gap != [] && HasShape(rest, ws, s)
    ensures HasShape(WordText(v.word) + v.gap + rest, [v] + ws, s)
  {
    hide WordText, WordOk, BreakText, BreakOk;
    assert ([v] + ws)[1..] == ws;
    assert LineText([v] + ws) == WordText(v.word) + v.gap + LineText(ws);
  }

  lemma {:induction false} LineScanned(line: bytes) returns (ws: seq<Spaced>, s: Shape)
    requires line == [] || line[0] !in {32, 9, 13}
    ensures HasShape(line, ws, s)
    decreases |line|
  {
    hide WordText, BreakText, PieceOk, BreakOk, WordOk, Gap;
    if line == [] || line[0] == 35 {
      ws, s := [], Clean(line);
      assert LineText([]) + line == line;
    } else {
      var w, t := WordScanned(line);
      assert w != [] ==> line[..|WordText(w)|] == WordText(w);
      if w != [] {
        FirstPiece(line, w);
      } else {
        NoWord();
      }
      match t {
        case Off(b) =>
          ws, s := [], Cut(w, b);
          assert LineText([]) + (WordText(w) + BreakText(b)) == line;
        case Then(behind) =>
          var gap, rest := GapScanned(behind);
          var v := Spaced(w, gap);
          if gap == [] {
            ws, s := [v], Clean([]);
            assert LineText([v][1..]) == [];
            assert LineText([v]) + [] == line;
          } else {
            ws, s := LineScanned(rest);
            ShapeBehind(v, rest, ws, s);
            assert WordText(w) + gap + rest == line;
            ws := [v] + ws;
          }
      }
    }
  }

  lemma NoWord()
    ensures WordText([]) == []
  {}

  ghost predicate Spelled(line: bytes, lead: bytes, ws: seq<Spaced>, comment: bytes) {
    Gap(lead) && LineOk(ws) && CommentAfter(ws, comment) && line == lead + LineText(ws) + comment
  }

  /** A line splits into words exactly when it is so spelled; every other line breaks off and is an error. */
  lemma SplitsIff(line: bytes, words: seq<bytes>)
    ensures Lex(line, START) == Some(words) <==>
            exists lead, ws, comment :: Spelled(line, lead, ws, comment) && LineMeans(ws) == words
  {
    hide Lex, Gap, LineOk, LineText, LineMeans, CommentAfter, WordText, WordOk, BreakOk, BreakText;
    var lead, rest := GapScanned(line);
    var ws, s := LineScanned(rest);
    match s {
      case Clean(comment) =>
        assert lead + (LineText(ws) + comment) == lead + LineText(ws) + comment;
        assert Spelled(line, lead, ws, comment);
        SpelledLineReads(lead, ws, comment);
      case Cut(w, b) => BrokenLineFails(lead, ws, w, b);
    }
    forall lead', ws', comment' | Spelled(line, lead', ws', comment')
      ensures Lex(line, START) == Some(LineMeans(ws'))
    {
      SpelledLineReads(lead', ws', comment');
    }
  }
}
