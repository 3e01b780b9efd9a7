/** Splitting a UCI line into words without shell evaluation, and the quoting that inverts it. */
module UciWords {
  import opened Bytes

  const TAB: byte := 9
  const RETURN: byte := 13
  const DOUBLE: byte := 34
  const HASH: byte := 35
  const SINGLE: byte := 39
  const ESCAPE: byte := 92

  predicate Blank(ch: byte) {
    ch == SPACE || ch == TAB || ch == RETURN
  }

  /** The scanner's state: finished words, the word being built, and the open quote if any (0 if none). */
  datatype Scan = Scan(out: seq<bytes>, word: bytes, active: bool, quote: byte)

  const START: Scan := Scan([], [], false, 0)

  function Emit(st: Scan): seq<bytes> {
    if st.active then st.out + [st.word] else st.out
  }

  function Put(st: Scan, ch: byte): Scan {
    st.(word := st.word + [ch], active := true)
  }

  /** What scanning the rest of a line from a given state yields; None is a syntax error. */
  function Lex(line: bytes, st: Scan): Option<seq<bytes>> {
    if line == [] then if st.quote != 0 then None else Some(Emit(st))
    else
      var ch := line[0];
      if st.quote != 0 then
        if ch == st.quote then Lex(line[1..], st.(quote := 0))
        else if ch == ESCAPE && st.quote == DOUBLE then
          if |line| < 2 then None else Lex(line[2..], st.(word := st.word + [line[1]]))
        else Lex(line[1..], st.(word := st.word + [ch]))
      else if ch == HASH && !st.active then Some(Emit(st))
      else if ch == SINGLE || ch == DOUBLE then Lex(line[1..], st.(quote := ch, active := true))
      else if ch == ESCAPE then
        if |line| < 2 then None else Lex(line[2..], Put(st, line[1]))
      else if Blank(ch) then Lex(line[1..], Scan(Emit(st), if st.active then [] else st.word, false, 0))
      else Lex(line[1..], Put(st, ch))
  }

  method Words(line: bytes) returns (r: Option<seq<bytes>>)
    ensures r == Lex(line, START)
  {
    var out: seq<bytes> := [];
    var b: bytes := [];
    var active := false;
    var quote: byte := 0;
    var i := 0;
    assert line[0..] == line;
    while i < |line|
      invariant 0 <= i <= |line|
      invariant Lex(line, START) == Lex(line[i..], Scan(out, b, active, quote))
    {
      var ch := line[i];
      assert line[i..][0] == ch && line[i..][1..] == line[i + 1..];
      if quote != 0 {
        if ch == quote {
          quote := 0;
        } else if ch == ESCAPE && quote == DOUBLE {
          if i + 1 >= |line| {
            return None;
          }
          assert line[i..][2..] == line[i + 2..];
          i := i + 1;
          b := b + [line[i]];
        } else {
          b := b + [ch];
        }
        i := i + 1;
        continue;
      }
      if ch == HASH && !active {
        return Some(out);
      }
      if ch == SINGLE || ch == DOUBLE {
        quote := ch;
        active := true;
      } else if ch == ESCAPE {
        if i + 1 >= |line| {
          return None;
        }
        assert line[i..][2..] == line[i + 2..];
        i := i + 1;
        b := b + [line[i]];
        active := true;
      } else if Blank(ch) {
        if active {
          out := out + [b];
          b := [];
          active := false;
        }
      } else {
        b := b + [ch];
        active := true;
      }
      i := i + 1;
    }
    if quote != 0 {
      return None;
    }
    if active {
      out := out + [b];
    }
    return Some(out);
  }

  // ----- quoting ----------------------------------------------------------------------------

  /** Every single quote becomes quote, backslash, quote, quote. */
  function Escaped(s: bytes): bytes {
    if s == [] then []
    else (if s[0] == SINGLE then [SINGLE, ESCAPE, SINGLE, SINGLE] else [s[0]]) + Escaped(s[1..])
  }

  function Quote(s: bytes): bytes {
    [SINGLE] + Escaped(s) + [SINGLE]
  }

  function Quoted(ws: seq<bytes>): bytes {
    if ws == [] then [] else if |ws| == 1 then Quote(ws[0]) else Quote(ws[0]) + [SPACE] + Quoted(ws[1..])
  }

  lemma LexEscapedSingle(more: bytes, st: Scan)
    requires st.quote == SINGLE && st.active
    ensures Lex([SINGLE, ESCAPE, SINGLE, SINGLE] + more, st) == Lex(more, st.(word := st.word + [SINGLE]))
  {
    var l0 := [SINGLE, ESCAPE, SINGLE, SINGLE] + more;
    var l1 := [ESCAPE, SINGLE, SINGLE] + more;
    var l3 := [SINGLE] + more;
    assert l0[1..] == l1 && l1[2..] == l3 && l3[1..] == more;
    var closed := st.(quote := 0);
    assert Lex(l0, st) == Lex(l1, closed);
    assert Lex(l1, closed) == Lex(l3, Put(closed, SINGLE));
  }

  lemma LexBlank(rest: bytes, st: Scan)
    requires st.quote == 0 && st.active
    ensures Lex([SPACE] + rest, st) == Lex(rest, Scan(st.out + [st.word], [], false, 0))
  {
    assert ([SPACE] + rest)[1..] == rest;
  }

  /** Inside single quotes, the escaped text is read back octet for octet, whatever it is. */
  lemma {:induction false} LexEscaped(s: bytes, rest: bytes, st: Scan)
    requires st.quote == SINGLE && st.active
    ensures Lex(Escaped(s) + rest, st) == Lex(rest, st.(word := st.word + s))
    decreases |s|
  {
    if s == [] {
      assert [] + rest == rest && st.word + [] == st.word;
    } else {
      var more := Escaped(s[1..]) + rest;
      LexEscaped(s[1..], rest, st.(word := st.word + [s[0]]));
      assert st.word + [s[0]] + s[1..] == st.word + s;
      if s[0] == SINGLE {
        assert Escaped(s) + rest == [SINGLE, ESCAPE, SINGLE, SINGLE] + more;
        LexEscapedSingle(more, st);
      } else {
        assert Escaped(s) + rest == [s[0]] + more;
        assert ([s[0]] + more)[1..] == more;
      }
    }
  }

  lemma LexQuote(s: bytes, rest: bytes, st: Scan)
    requires st.quote == 0 && st.word == []
    ensures Lex(Quote(s) + rest, st) == Lex(rest, st.(word := s, active := true))
  {
    var open := st.(quote := SINGLE, active := true);
    var line := Quote(s) + rest;
    assert line[1..] == Escaped(s) + ([SINGLE] + rest);
    LexEscaped(s, [SINGLE] + rest, open);
    assert ([SINGLE] + rest)[1..] == rest;
    assert [] + s == s;
  }

  lemma LexOne(w: bytes, out: seq<bytes>)
    ensures Lex(Quote(w), Scan(out, [], false, 0)) == Some(out + [w])
  {
    LexQuote(w, [], Scan(out, [], false, 0));
    assert Quote(w) + [] == Quote(w);
  }

  lemma {:induction false} LexQuoted(ws: seq<bytes>, out: seq<bytes>)
    requires ws != []
    ensures Lex(Quoted(ws), Scan(out, [], false, 0)) == Some(out + ws)
    decreases |ws|
  {
    hide Lex, Quote;
    if |ws| == 1 {
      LexOne(ws[0], out);
      assert [ws[0]] == ws;
    } else {
      var rest := [SPACE] + Quoted(ws[1..]);
      LexQuote(ws[0], rest, Scan(out, [], false, 0));
      assert Quoted(ws) == Quote(ws[0]) + rest;
      LexBlank(Quoted(ws[1..]), Scan(out, ws[0], true, 0));
      LexQuoted(ws[1..], out + [ws[0]]);
      assert out + [ws[0]] + ws[1..] == out + ws;
    }
  }

  /** Quoted words joined by spaces split back into exactly those words, for every list of octet strings. */
  lemma QuoteThenSplit(ws: seq<bytes>)
    ensures Lex(Quoted(ws), START) == Some(ws)
  {
    if ws != [] {
      LexQuoted(ws, []);
      assert [] + ws == ws;
    }
  }

  /** A quoted text cut off before its closing quote is a syntax error. */
  lemma CutQuoteFails(s: bytes, st: Scan)
    requires st.quote == 0 && st.word == []
    ensures Lex([SINGLE] + Escaped(s), st) == None
  {
    var open := st.(quote := SINGLE, active := true);
    var line := [SINGLE] + Escaped(s);
    assert line[1..] == Escaped(s) + [];
    LexEscaped(s, [], open);
  }

  /** A plain word: characters the scanner takes as they are, followed by a blank. */
  predicate PlainWord(w: bytes) {
    w != [] && forall i :: 0 <= i < |w| ==> w[i] !in {HASH, SINGLE, DOUBLE, ESCAPE, SPACE, TAB, RETURN}
  }

  lemma {:induction false} LexPlainTail(w: bytes, rest: bytes, st: Scan)
    requires st.quote == 0 && (forall i :: 0 <= i < |w| ==> w[i] !in {HASH, SINGLE, DOUBLE, ESCAPE, SPACE, TAB, RETURN})
    requires w == [] ==> st.active
    ensures Lex(w + [SPACE] + rest, st) == Lex(rest, Scan(st.out + [st.word + w], [], false, 0))
    decreases |w|
  {
    var line := w + [SPACE] + rest;
    if w == [] {
      assert line[1..] == rest && st.word + w == st.word;
    } else {
      assert line[1..] == w[1..] + [SPACE] + rest;
      LexPlainTail(w[1..], rest, Put(st, w[0]));
      assert st.word + [w[0]] + w[1..] == st.word + w;
    }
  }

  lemma LexPlain(w: bytes, rest: bytes, out: seq<bytes>)
    requires PlainWord(w)
    ensures Lex(w + [SPACE] + rest, Scan(out, [], false, 0)) == Lex(rest, Scan(out + [w], [], false, 0))
  {
    LexPlainTail(w, rest, Scan(out, [], false, 0));
    assert [] + w == w;
  }
}
