/** The deterministic System V ar writer, and a reader of that format to judge it by. */
module ArArchive {
  import opened Bytes
  import Cfg = Settings

  datatype Member = Member(name: bytes, payload: bytes)

  const MAGIC: bytes := Ascii("!<arch>\n")
  const MODE: bytes := Ascii("100644")
  const HEADER: nat := 60
  const SLASH: byte := 47
  const ZERO: bytes := [48]
  const END: bytes := [96, 10]

  // ----- writing ----------------------------------------------------------------------------

  predicate NameCharacter(ch: byte) {
    65 <= ch <= 90 || 97 <= ch <= 122 || 48 <= ch <= 57 || ch == 95 || ch == 46 || ch == 45
  }

  predicate SafeName(name: bytes) {
    0 < |name| <= 15 && forall i :: 0 <= i < |name| ==> NameCharacter(name[i])
  }

  function Spaces(n: nat): (s: bytes)
    ensures |s| == n && forall i :: 0 <= i < n ==> s[i] == SPACE
  {
    seq(n, _ => SPACE)
  }

  /** Left-aligned in a field, which a longer text outgrows. */
  function Field(s: bytes, width: nat): (f: bytes)
    ensures |f| == if |s| <= width then width else |s|
  {
    if |s| >= width then s else s + Spaces(width - |s|)
  }

  function Header(m: Member): bytes {
    Field(m.name + [SLASH], 16) + Field(ZERO, 12) + Field(ZERO, 6) + Field(ZERO, 6) + Field(MODE, 8)
    + Field(Cfg.Itoa(|m.payload|), 10) + END
  }

  function Padded(payload: bytes): bytes {
    if |payload| % 2 == 1 then payload + [NEWLINE] else payload
  }

  predicate Writable(m: Member) {
    SafeName(m.name) && |Header(m)| == HEADER
  }

  function Body(ms: seq<Member>): bytes {
    if ms == [] then [] else Body(ms[..|ms| - 1]) + Header(ms[|ms| - 1]) + Padded(ms[|ms| - 1].payload)
  }

  lemma BodySnoc(ms: seq<Member>, i: nat)
    requires i <= |ms|
    ensures Body(ms[..i]) ==
      if i == 0 then [] else Body(ms[..i - 1]) + Header(ms[i - 1]) + Padded(ms[i - 1].payload)
  {
    assert i > 0 ==> ms[..i][..i - 1] == ms[..i - 1];
  }

  method Archive(members: seq<Member>) returns (r: Option<bytes>)
    ensures r == if forall i :: 0 <= i < |members| ==> Writable(members[i]) then Some(MAGIC + Body(members)) else None
  {
    hide Header, SafeName, MAGIC, Body;
    BodySnoc(members, 0);
    var result := MAGIC;
    for i := 0 to |members|
      invariant forall j :: 0 <= j < i ==> Writable(members[j])
      invariant result == MAGIC + Body(members[..i])
    {
      var m := members[i];
      if !SafeName(m.name) {
        return None;
      }
      var header := Header(m);
      if |header| != HEADER {
        return None;
      }
      BodySnoc(members, i + 1);
      ghost var before := result;
      result := result + header;
      result := result + m.payload;
      if |m.payload| % 2 == 1 {
        result := result + [NEWLINE];
      }
      assert result == before + header + Padded(m.payload);
      assert result == MAGIC + (Body(members[..i]) + header + Padded(m.payload));
    }
    assert members[..|members|] == members;
    return Some(result);
  }

  // ----- reading ----------------------------------------------------------------------------

  /** The text before the first such byte. */
  function Until(s: bytes, stop: byte): (t: bytes)
    ensures |t| <= |s| && t == s[..|t|]
  {
    if s == [] || s[0] == stop then [] else [s[0]] + Until(s[1..], stop)
  }

  /** A member header: the name up to its slash, and the decimal size. */
  function ReadHeader(h: bytes): Option<(bytes, nat)>
    requires |h| == HEADER
  {
    var name, size := Until(h[..16], SLASH), Until(h[48..58], SPACE);
    if |name| == 16 || h[58..] != END || !Cfg.AllDigits(size) then None else Some((name, Cfg.Number(size)))
  }

  function ReadMembers(d: bytes): Option<seq<Member>>
    decreases |d|
  {
    if d == [] then Some([])
    else if |d| < HEADER then None
    else
      var h := ReadHeader(d[..HEADER]);
      if h.None? then None
      else
        var (name, size) := h.value;
        var taken := size + size % 2;
        if HEADER + taken > |d| then None
        else
          var rest := ReadMembers(d[HEADER + taken..]);
          if rest.None? then None else Some([Member(name, d[HEADER..HEADER + size])] + rest.value)
  }

  function Read(d: bytes): Option<seq<Member>> {
    if |d| < |MAGIC| || d[..|MAGIC|] != MAGIC then None else ReadMembers(d[|MAGIC|..])
  }

  // ----- which members can be written -------------------------------------------------------

  /** Exactly the members with a short safe name and a size of at most ten digits. */
  lemma WritableIff(m: Member)
    ensures Writable(m) <==> SafeName(m.name) && |m.payload| < 10_000_000_000
  {
    Cfg.DigitsOf(|m.payload|, 10);
    assert Cfg.Power(5) == 100_000;
    assert Cfg.Power(10) == 10_000_000_000;
    assert |MODE| == 6;
    assert SafeName(m.name) ==> |m.name| <= 15;
  }

  // ----- round trip -------------------------------------------------------------------------

  lemma {:induction false} UntilStops(t: bytes, stop: byte, rest: bytes)
    requires stop !in t && (rest == [] || rest[0] == stop)
    ensures Until(t + rest, stop) == t
  {
    if t == [] {
      assert t + rest == rest;
    } else {
      assert (t + rest)[1..] == t[1..] + rest;
      UntilStops(t[1..], stop, rest);
    }
  }

  lemma FieldReads(t: bytes, stop: byte, width: nat)
    requires stop !in t && |t| < width
    ensures Until(Field(t + [stop], width), stop) == t
  {
    UntilStops(t, stop, [stop] + Spaces(width - |t| - 1));
    assert Field(t + [stop], width) == t + ([stop] + Spaces(width - |t| - 1));
  }

  lemma SizeReads(n: nat)
    requires |Cfg.Itoa(n)| <= 10
    ensures Until(Field(Cfg.Itoa(n), 10), SPACE) == Cfg.Itoa(n)
  {
    var digits := Cfg.Itoa(n);
    UntilStops(digits, SPACE, Spaces(10 - |digits|));
    assert Field(digits, 10) == digits + Spaces(10 - |digits|);
  }

  lemma HeaderFields(m: Member)
    requires Writable(m)
    ensures Header(m)[..16] == Field(m.name + [SLASH], 16)
    ensures Header(m)[48..58] == Field(Cfg.Itoa(|m.payload|), 10) && |Cfg.Itoa(|m.payload|)| <= 10
    ensures Header(m)[58..] == END
  {
    hide SafeName, Cfg.Itoa;
    assert |MODE| == 6;
    assert SafeName(m.name) ==> |m.name| <= 15 by { ShortName(m.name); }
  }

  lemma ShortName(name: bytes)
    requires SafeName(name)
    ensures |name| <= 15 && SLASH !in name
  {}

  lemma HeaderReads(m: Member)
    requires Writable(m)
    ensures ReadHeader(Header(m)) == Some((m.name, |m.payload|))
  {
    hide Header, SafeName, Field, Cfg.Itoa, Cfg.Number;
    ShortName(m.name);
    HeaderFields(m);
    FieldReads(m.name, SLASH, 16);
    SizeReads(|m.payload|);
    Cfg.ItoaReads(|m.payload|);
  }

  ghost predicate AllWritable(ms: seq<Member>) {
    forall i :: 0 <= i < |ms| ==> Writable(ms[i])
  }

  lemma {:induction false} ReadsBack(ms: seq<Member>, tail: bytes, rest: seq<Member>)
    requires AllWritable(ms) && ReadMembers(tail) == Some(rest)
    ensures ReadMembers(Body(ms) + tail) == Some(ms + rest)
  {
    hide Writable, Header, Padded, ReadMembers;
    if ms == [] {
      assert Body(ms) + tail == tail && ms + rest == rest;
    } else {
      var before, m := ms[..|ms| - 1], ms[|ms| - 1];
      MemberReads(m, tail, rest);
      ReadsBack(before, Header(m) + Padded(m.payload) + tail, [m] + rest);
      assert Body(ms) + tail == Body(before) + (Header(m) + Padded(m.payload) + tail);
      assert before + ([m] + rest) == ms + rest;
    }
  }

  lemma MemberReads(m: Member, tail: bytes, rest: seq<Member>)
    requires Writable(m) && ReadMembers(tail) == Some(rest)
    ensures ReadMembers(Header(m) + Padded(m.payload) + tail) == Some([m] + rest)
  {
    hide Header, SafeName;
    HeaderReads(m);
    var d := Header(m) + Padded(m.payload) + tail;
    var taken := |m.payload| + |m.payload| % 2;
    assert d[..HEADER] == Header(m);
    assert |Padded(m.payload)| == taken;
    assert d[HEADER + taken..] == tail;
    assert d[HEADER..HEADER + |m.payload|] == m.payload;
  }

  /** Every member list is either refused, or written so that the reader gives back exactly those members. */
  lemma ArchiveReadsBack(ms: seq<Member>)
    requires AllWritable(ms)
    ensures Read(MAGIC + Body(ms)) == Some(ms)
  {
    hide MAGIC, Writable;
    ReadsBack(ms, [], []);
    assert Body(ms) + [] == Body(ms) && ms + [] == ms;
    assert (MAGIC + Body(ms))[|MAGIC|..] == Body(ms);
  }

  /** What has been written before any member is of even length, as the format wants. */
  lemma {:induction false} MembersAligned(ms: seq<Member>)
    requires AllWritable(ms)
    ensures |MAGIC + Body(ms)| % 2 == 0
  {
    hide Header, SafeName;
    assert |MAGIC| == 8;
    if ms != [] {
      MembersAligned(ms[..|ms| - 1]);
      assert Writable(ms[|ms| - 1]);
    }
  }

  // ----- the octets of a member -----------------------------------------------------------------

  lemma SafeNameIff(name: bytes)
    ensures SafeName(name) <==>
            && 1 <= |name| <= 15
            && forall i :: 0 <= i < |name| ==>
                 || 'A' as int <= name[i] <= 'Z' as int || 'a' as int <= name[i] <= 'z' as int
                 || '0' as int <= name[i] <= '9' as int || name[i] in {'_' as int, '.' as int, '-' as int}
  {}

  lemma FixedFields()
    ensures Field(ZERO, 12) + Field(ZERO, 6) + Field(ZERO, 6) == Ascii("0           0     0     ")
    ensures Field(MODE, 8) == Ascii("100644  ") && END == Ascii("`\n") && MAGIC == Ascii("!<arch>\n")
  {
    assert Field(MODE, 8) == MODE + [32, 32];
    assert Ascii("0           0     0     ")[12] == 48;
  }

  /** The header: name with a slash, time, owner and group zero, the mode of a plain file, size, end mark. */
  function HeaderText(m: Member): bytes
    requires |m.name| <= 15 && |Cfg.Itoa(|m.payload|)| <= 10
  {
    m.name + Ascii("/") + Spaces(15 - |m.name|)
    + Ascii("0           0     0     ") + Ascii("100644  ")
    + (Cfg.Itoa(|m.payload|) + Spaces(10 - |Cfg.Itoa(|m.payload|)|)) + Ascii("`\n")
  }

  lemma Regroup(a: bytes, b: bytes, c: bytes, d: bytes, e: bytes, f: bytes, g: bytes)
    ensures a + b + c + d + e + f + g == a + (b + c + d) + e + f + g
  {
    assert a + b + c + d == a + (b + c + d);
  }

  lemma FieldPadded(s: bytes, width: nat)
    requires |s| <= width
    ensures Field(s, width) == s + Spaces(width - |s|)
  {
    assert |s| == width ==> s + Spaces(0) == s;
  }

  lemma HeaderIs(m: Member)
    requires |m.name| <= 15 && |Cfg.Itoa(|m.payload|)| <= 10
    ensures Header(m) == HeaderText(m)
  {
    hide Field, Cfg.Itoa, ZERO, MODE, END, MAGIC;
    FixedFields();
    FieldPadded(m.name + [SLASH], 16);
    FieldPadded(Cfg.Itoa(|m.payload|), 10);
    Regroup(Field(m.name + [SLASH], 16), Field(ZERO, 12), Field(ZERO, 6), Field(ZERO, 6), Field(MODE, 8),
            Field(Cfg.Itoa(|m.payload|), 10), END);
    assert Ascii("/") == [SLASH];
  }

  /** What is written for a member: its header, its payload, and a newline if that is of odd length. */
  lemma MemberIs(m: Member)
    requires Writable(m)
    ensures |m.name| <= 15 && |Cfg.Itoa(|m.payload|)| <= 10
    ensures MAGIC + Body([m]) ==
            Ascii("!<arch>\n") + (HeaderText(m) + m.payload + if |m.payload| % 2 == 0 then [] else Ascii("\n"))
  {
    ShortName(m.name);
    HeaderFields(m);
    FixedFields();
    HeaderIs(m);
    assert Ascii("\n") == [NEWLINE];
    hide Cfg.Itoa, ZERO, MODE, END, MAGIC, SafeName, Header, HeaderText, Field;
    BodyOfOne(m);
    assert m.payload + [] == m.payload;
    assert HeaderText(m) + m.payload + [] == HeaderText(m) + m.payload;
  }

  lemma BodyOfOne(m: Member)
    ensures Body([m]) == Header(m) + Padded(m.payload)
  {
    hide Header, Padded;
    assert [m][..0] == [];
    assert [] + Header(m) == Header(m);
  }
}
