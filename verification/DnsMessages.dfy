/**
 * Whole DNS messages (section 4.1 of RFC 1035): the parser, the uncompressed printer,
 * and the round trip between them.
 */
module DnsMessages {
  import opened Bytes
  import opened DnsNames

  const A: u16 := 1
  const PTR: u16 := 12
  const TXT: u16 := 16
  const AAAA: u16 := 28
  const SRV: u16 := 33

  const MAX_ENTRIES: nat := 1024

  datatype Question = Question(name: bytes, typ: u16, cls: u16, wire: bytes)

  datatype Record = Record(name: bytes, typ: u16, cls: u16, ttl: u32, target: bytes, port: u16,
                           address: bytes, data: bytes, wire: bytes, targetWire: bytes)

  datatype Message = Message(id: u16, flags: u16, questions: seq<Question>, records: seq<Record>) {
    predicate Response() {
      flags >= 0x8000
    }
  }

  datatype Read<+T> = Read(value: T, next: nat)

  /** The class without the cache-flush or unicast-response bit. */
  function PlainClass(cls: u16): u16 {
    cls % 0x8000
  }

  /** An address up to its text: an IPv4-mapped IPv6 address prints as the IPv4 address. */
  function AddressKey(data: bytes): bytes {
    if |data| == 16 && data[..12] == [0, 0, 0, 0, 0, 0, 0, 0, 0, 0, 255, 255] then data[12..] else data
  }

  /** A TXT payload is a run of length-prefixed strings that ends exactly with the payload. */
  predicate TxtOk(data: bytes) {
    data != [] ==> 1 + data[0] as int <= |data| && TxtOk(data[1 + data[0] as int..])
  }

  method TxtValid(data: bytes) returns (ok: bool)
    ensures ok == TxtOk(data)
  {
    var j := 0;
    while j < |data|
      invariant 0 <= j <= |data| && TxtOk(data) == TxtOk(data[j..])
    {
      var l := data[j] as int;
      if j + 1 + l > |data| {
        return false;
      }
      assert data[j..][1 + l..] == data[j + 1 + l..];
      j := j + 1 + l;
    }
    return true;
  }

  // ----- the parser -------------------------------------------------------------------------

  function ReadQuestion(p: bytes, off: nat): Option<Read<Question>> {
    var d := Decode(p, off, 0);
    if d.None? || d.value.next + 4 > |p| then None
    else
      var at := d.value.next;
      Some(Read(Question(d.value.name, U16At(p, at), U16At(p, at + 2), d.value.wire), at + 4))
  }

  /** The record before its payload is interpreted, and where the payload starts. */
  function ReadRecordHead(p: bytes, off: nat): (r: Option<Read<Record>>)
    ensures r.Some? ==> r.value.next + |r.value.value.data| <= |p|
  {
    var d := Decode(p, off, 0);
    if d.None? || d.value.next + 10 > |p| then None
    else
      var at := d.value.next;
      var n := U16At(p, at + 8);
      if at + 10 + n > |p| then None
      else Some(Read(Record(d.value.name, U16At(p, at), U16At(p, at + 2), U32At(p, at + 4), [], 0, [],
                            p[at + 10..at + 10 + n], d.value.wire, []), at + 10))
  }

  /** Fills in the fields that depend on the record type; `off` is where the payload starts. */
  function ReadPayload(p: bytes, off: nat, r: Record): Option<Record> {
    var end := off + |r.data|;
    if r.typ == PTR then
      var t := Decode(p, off, 0);
      if t.None? || t.value.next != end then None
      else Some(r.(target := t.value.name, targetWire := t.value.wire))
    else if r.typ == SRV then
      if |r.data| < 7 then None
      else
        var t := Decode(p, off + 6, 0);
        if t.None? || t.value.next != end then None
        else Some(r.(port := U16At(r.data, 4), target := t.value.name, targetWire := t.value.wire))
    else if r.typ == A then
      if |r.data| != 4 then None else Some(r.(address := AddressKey(r.data)))
    else if r.typ == AAAA then
      if |r.data| != 16 then None else Some(r.(address := AddressKey(r.data)))
    else if r.typ == TXT then
      if TxtOk(r.data) then Some(r) else None
    else Some(r)
  }

  function ReadRecord(p: bytes, off: nat): Option<Read<Record>> {
    var head := ReadRecordHead(p, off);
    if head.None? then None
    else
      var r := ReadPayload(p, head.value.next, head.value.value);
      if r.None? then None else Some(Read(r.value, head.value.next + |head.value.value.data|))
  }

  function ReadQuestions(p: bytes, off: nat, k: nat): Option<Read<seq<Question>>>
    decreases k
  {
    if k == 0 then Some(Read([], off))
    else
      var q := ReadQuestion(p, off);
      if q.None? then None
      else
        var rest := ReadQuestions(p, q.value.next, k - 1);
        if rest.None? then None else Some(Read([q.value.value] + rest.value.value, rest.value.next))
  }

  function ReadRecords(p: bytes, off: nat, k: nat): Option<Read<seq<Record>>>
    decreases k
  {
    if k == 0 then Some(Read([], off))
    else
      var r := ReadRecord(p, off);
      if r.None? then None
      else
        var rest := ReadRecords(p, r.value.next, k - 1);
        if rest.None? then None else Some(Read([r.value.value] + rest.value.value, rest.value.next))
  }

  predicate FlagsSupported(flags: u16) {
    flags / 0x800 % 16 == 0 && flags % 16 == 0
  }

  /** The message and the offset where reading stops; octets after it are ignored. */
  function ReadMessage(p: bytes): Option<Read<Message>> {
    if |p| < 12 || !FlagsSupported(U16At(p, 2)) then None
    else
      var nq := U16At(p, 4) as nat;
      var nr := U16At(p, 6) as nat + U16At(p, 8) as nat + U16At(p, 10) as nat;
      if nq + nr > MAX_ENTRIES then None
      else
        var qs := ReadQuestions(p, 12, nq);
        if qs.None? then None
        else
          var rs := ReadRecords(p, qs.value.next, nr);
          if rs.None? then None
          else Some(Read(Message(U16At(p, 0), U16At(p, 2), qs.value.value, rs.value.value), rs.value.next))
  }

  function Parse(p: bytes): Option<Message> {
    var m := ReadMessage(p);
    if m.None? then None else Some(m.value.value)
  }

  /** The switch on the record type, with the payload `p[off..off + |r.data|]` already copied out. */
  method ParsePayload(p: bytes, off: nat, r: Record) returns (out: Option<Record>)
    ensures out == ReadPayload(p, off, r)
  {
    hide Decode;
    var n := |r.data|;
    var rr := r;
    if r.typ == PTR || r.typ == SRV {
      var from := off;
      if r.typ == SRV {
        if n < 7 {
          return None;
        }
        rr := rr.(port := U16At(r.data, 4));
        from := from + 6;
      }
      var t := DecodeName(p, from, 0);
      if t.None? || t.value.next != off + n {
        return None;
      }
      rr := rr.(target := t.value.name, targetWire := t.value.wire);
    } else if r.typ == A {
      if n != 4 {
        return None;
      }
      rr := rr.(address := AddressKey(r.data));
    } else if r.typ == AAAA {
      if n != 16 {
        return None;
      }
      rr := rr.(address := AddressKey(r.data));
    } else if r.typ == TXT {
      var ok := TxtValid(r.data);
      if !ok {
        return None;
      }
    }
    return Some(rr);
  }

  method ParseRecord(p: bytes, off: nat) returns (r: Option<Read<Record>>)
    ensures r == ReadRecord(p, off)
  {
    hide Decode, ReadPayload;
    var d := DecodeName(p, off, 0);
    if d.None? || d.value.next + 10 > |p| {
      return None;
    }
    var at := d.value.next;
    var end := at + 10 + U16At(p, at + 8);
    if end > |p| {
      return None;
    }
    var rr := ParsePayload(p, at + 10, Record(d.value.name, U16At(p, at), U16At(p, at + 2), U32At(p, at + 4), [], 0, [],
                                              p[at + 10..end], d.value.wire, []));
    return if rr.None? then None else Some(Read(rr.value, end));
  }

  ghost function After<T>(before: seq<T>, rest: Option<Read<seq<T>>>): Option<Read<seq<T>>> {
    if rest.None? then None else Some(Read(before + rest.value.value, rest.value.next))
  }

  lemma AfterOne<T>(before: seq<T>, x: T, rest: Option<Read<seq<T>>>)
    ensures After(before, After([x], rest)) == After(before + [x], rest)
  {
    if rest.Some? {
      assert before + ([x] + rest.value.value) == before + [x] + rest.value.value;
    }
  }

  lemma AfterAll<T>(before: seq<T>, off: nat)
    ensures After(before, Some(Read([], off))) == Some(Read(before, off))
  {
    assert before + [] == before;
  }

  lemma AfterNothing<T>(rest: Option<Read<seq<T>>>)
    ensures After([], rest) == rest
  {
    if rest.Some? {
      assert [] + rest.value.value == rest.value.value;
    }
  }

  method ParseQuestions(p: bytes, k: nat) returns (r: Option<Read<seq<Question>>>)
    ensures r == ReadQuestions(p, 12, k)
  {
    hide Decode;
    var off: nat := 12;
    var qs: seq<Question> := [];
    AfterNothing(ReadQuestions(p, off, k));
    for i := 0 to k
      invariant 0 <= i <= k
      invariant ReadQuestions(p, 12, k) == After(qs, ReadQuestions(p, off, k - i))
    {
      var d := DecodeName(p, off, 0);
      if d.None? || d.value.next + 4 > |p| {
        return None;
      }
      var q := Question(d.value.name, U16At(p, d.value.next), U16At(p, d.value.next + 2), d.value.wire);
      assert ReadQuestion(p, off) == Some(Read(q, d.value.next + 4));
      AfterOne(qs, q, ReadQuestions(p, d.value.next + 4, k - i - 1));
      qs := qs + [q];
      off := d.value.next + 4;
    }
    AfterAll(qs, off);
    return Some(Read(qs, off));
  }

  method ParseRecords(p: bytes, start: nat, k: nat) returns (r: Option<Read<seq<Record>>>)
    ensures r == ReadRecords(p, start, k)
  {
    hide Decode, ReadRecord;
    var off: nat := start;
    var rs: seq<Record> := [];
    AfterNothing(ReadRecords(p, off, k));
    for i := 0 to k
      invariant 0 <= i <= k
      invariant ReadRecords(p, start, k) == After(rs, ReadRecords(p, off, k - i))
    {
      var one := ParseRecord(p, off);
      if one.None? {
        return None;
      }
      AfterOne(rs, one.value.value, ReadRecords(p, one.value.next, k - i - 1));
      rs := rs + [one.value.value];
      off := one.value.next;
    }
    AfterAll(rs, off);
    return Some(Read(rs, off));
  }

  method ParseDNSMessage(p: bytes) returns (r: Option<Message>)
    ensures r == Parse(p)
  {
    hide ReadQuestions, ReadRecords;
    if |p| < 12 || !FlagsSupported(U16At(p, 2)) {
      return None;
    }
    var nq := U16At(p, 4);
    var nr := U16At(p, 6) as nat + U16At(p, 8) as nat + U16At(p, 10) as nat;
    if nq as nat + nr > MAX_ENTRIES {
      return None;
    }
    var qs := ParseQuestions(p, nq);
    if qs.None? {
      return None;
    }
    var rs := ParseRecords(p, qs.value.next, nr);
    if rs.None? {
      return None;
    }
    return Some(Message(U16At(p, 0), U16At(p, 2), qs.value.value, rs.value.value));
  }

  // ----- what a parsed message is -----------------------------------------------------------

  /** `name` is a display name of the wire form `wire`. */
  ghost predicate Names(name: bytes, wire: bytes) {
    NameWire(wire) && Shown(name, LabelsOf(wire))
  }

  predicate HasTarget(typ: u16) {
    typ == PTR || typ == SRV
  }

  /** Facts about every parsed record. */
  ghost predicate RecordOk(r: Record) {
    && Names(r.name, r.wire)
    && |r.data| < 0x1_0000
    && (if HasTarget(r.typ) then Names(r.target, r.targetWire) else r.target == [] && r.targetWire == [])
    && (if r.typ == SRV then |r.data| >= 7 && r.port == U16At(r.data, 4) else r.port == 0)
    && (r.typ == A ==> |r.data| == 4)
    && (r.typ == AAAA ==> |r.data| == 16)
    && (r.typ == TXT ==> TxtOk(r.data))
    && r.address == (if r.typ == A || r.typ == AAAA then AddressKey(r.data) else [])
  }

  ghost predicate QuestionOk(q: Question) {
    Names(q.name, q.wire)
  }

  ghost function RecordsOf(rs: seq<Record>): set<Record> {
    set r | r in rs
  }

  ghost predicate MessageOk(m: Message) {
    && |m.questions| + |m.records| <= MAX_ENTRIES
    && (forall i :: 0 <= i < |m.questions| ==> QuestionOk(m.questions[i]))
    && (forall i :: 0 <= i < |m.records| ==> RecordOk(m.records[i]))
  }

  lemma DecodedNames(p: bytes, off: nat)
    ensures var d := Decode(p, off, 0); d.Some? ==> Names(d.value.name, d.value.wire)
  {
    var d := Decode(p, off, 0);
    if d.Some? {
      var ls := LabelsAt(p, off, MAX_DEPTH).value;
      WireOfIsWellFormed(ls);
      NameIsShown(p, off, [], MAX_DEPTH);
      assert [] + ls == ls;
    }
  }

  lemma ReadPayloadIsOk(p: bytes, off: nat, r: Record)
    requires Names(r.name, r.wire) && |r.data| < 0x1_0000
    requires r.target == [] && r.targetWire == [] && r.port == 0 && r.address == []
    ensures var out := ReadPayload(p, off, r); out.Some? ==> RecordOk(out.value)
  {
    hide Decode, Names;
    if r.typ == PTR {
      DecodedNames(p, off);
    } else if r.typ == SRV {
      DecodedNames(p, off + 6);
    }
  }

  lemma ReadRecordIsOk(p: bytes, off: nat)
    ensures var r := ReadRecord(p, off); r.Some? ==> RecordOk(r.value.value)
  {
    hide Decode, ReadPayload, RecordOk, Names;
    DecodedNames(p, off);
    var head := ReadRecordHead(p, off);
    if head.Some? {
      ReadPayloadIsOk(p, head.value.next, head.value.value);
    }
  }

  lemma {:induction false} ReadQuestionsAreOk(p: bytes, off: nat, k: nat)
    ensures var qs := ReadQuestions(p, off, k);
            qs.Some? ==> |qs.value.value| == k && forall i :: 0 <= i < k ==> QuestionOk(qs.value.value[i])
    decreases k
  {
    hide Decode, Names;
    if k > 0 {
      DecodedNames(p, off);
      var q := ReadQuestion(p, off);
      if q.Some? {
        ReadQuestionsAreOk(p, q.value.next, k - 1);
      }
    }
  }

  lemma {:induction false} ReadRecordsAreOk(p: bytes, off: nat, k: nat)
    ensures var rs := ReadRecords(p, off, k);
            rs.Some? ==> |rs.value.value| == k && forall i :: 0 <= i < k ==> RecordOk(rs.value.value[i])
    decreases k
  {
    hide ReadRecord, RecordOk;
    if k > 0 {
      ReadRecordIsOk(p, off);
      var r := ReadRecord(p, off);
      if r.Some? {
        ReadRecordsAreOk(p, r.value.next, k - 1);
      }
    }
  }

  /**
   * Every accepted packet has a supported opcode and response code and yields at most 1024 entries, each well
   * formed.
   */
  lemma ParsedIsOk(p: bytes)
    ensures var m := Parse(p); m.Some? ==> MessageOk(m.value) && FlagsSupported(m.value.flags)
  {
    hide ReadQuestions, ReadRecords, RecordOk, QuestionOk;
    if |p| >= 12 {
      var nq := U16At(p, 4) as nat;
      ReadQuestionsAreOk(p, 12, nq);
      var qs := ReadQuestions(p, 12, nq);
      if qs.Some? {
        ReadRecordsAreOk(p, qs.value.next, U16At(p, 6) as nat + U16At(p, 8) as nat + U16At(p, 10) as nat);
      }
    }
  }

  /**
   * What the header of an accepted packet says: the two middle octets hold an opcode and a response code of zero,
   * the first count is the number of questions, and the other three together are the number of records.
   */
  lemma CountsAreRead(p: bytes)
    requires Parse(p).Some?
    ensures var m := Parse(p).value;
      && |p| >= 12
      && m.id as int == p[0] as int * 256 + p[1] as int
      && m.flags as int == p[2] as int * 256 + p[3] as int
      && (m.Response() <==> p[2] >= 128)
      && p[2] % 128 < 8 && p[3] % 16 == 0
      && |m.questions| == p[4] as int * 256 + p[5] as int
      && |m.records| == (p[6] as int * 256 + p[7] as int) + (p[8] as int * 256 + p[9] as int)
                        + (p[10] as int * 256 + p[11] as int)
      && |m.questions| + |m.records| <= 1024
  {
    hide ReadQuestions, ReadRecords, RecordOk, QuestionOk, FlagsSupported;
    var nq := U16At(p, 4) as nat;
    var nr := U16At(p, 6) as nat + U16At(p, 8) as nat + U16At(p, 10) as nat;
    var qs := ReadQuestions(p, 12, nq);
    var rs := ReadRecords(p, qs.value.next, nr);
    assert |qs.value.value| == nq by {
      ReadQuestionsAreOk(p, 12, nq);
    }
    assert |rs.value.value| == nr by {
      ReadRecordsAreOk(p, qs.value.next, nr);
    }
    FlagsSupportedIff(p[2], p[3]);
  }

  /** The flags accepted are those without a bit of the opcode or the response code. */
  lemma FlagsSupportedIff(hi: byte, lo: byte)
    ensures FlagsSupported(Pair(hi, lo)) <==> hi % 128 < 8 && lo % 16 == 0
  {}

  /**
   * A record is its name, ten octets and a payload: it is read exactly when all three are there and the payload
   * fits its type. The name in a pointer or service record ends with the payload, an address has four or
   * sixteen octets, a text is a run of strings, and any other type is taken as it is.
   */
  lemma RecordReads(p: bytes, off: nat)
    ensures var d := Decode(p, off, 0);
      if d.None? || d.value.next + 10 > |p| then ReadRecord(p, off).None?
      else
        var at := d.value.next;
        var from := at + 10;
        var end := from + (p[at + 8] as int * 256 + p[at + 9] as int);
        var typ: u16 := p[at] as int * 256 + p[at + 1] as int;
        var name := if typ == 12 then Decode(p, from, 0) else Decode(p, from + 6, 0);
        (ReadRecord(p, off).Some? <==>
           && end <= |p|
           && (typ == 12 ==> name.Some? && name.value.next == end)
           && (typ == 33 ==> end >= from + 7 && name.Some? && name.value.next == end)
           && (typ == 1 ==> end == from + 4)
           && (typ == 28 ==> end == from + 16)
           && (typ == 16 ==> TxtOk(p[from..end]))) &&
        (ReadRecord(p, off).Some? ==>
           var r := ReadRecord(p, off).value;
           && r.next == end && r.value.name == d.value.name && r.value.wire == d.value.wire
           && r.value.typ == typ && r.value.cls as int == p[at + 2] as int * 256 + p[at + 3] as int
           && r.value.ttl as int == (p[at + 4] as int * 256 + p[at + 5] as int) * 65536
                                    + (p[at + 6] as int * 256 + p[at + 7] as int)
           && r.value.data == p[from..end]
           && (typ == 12 || typ == 33 ==> r.value.target == name.value.name && r.value.targetWire == name.value.wire)
           && (typ == 33 ==> r.value.port as int == p[from + 4] as int * 256 + p[from + 5] as int))
  {
    hide Decode, TxtOk, AddressKey;
  }

  /** Two addresses compare equal exactly when they are the same, or one is the other mapped into IPv6. */
  lemma SameAddressIff(a: bytes, b: bytes)
    requires (|a| == 4 || |a| == 16) && (|b| == 4 || |b| == 16)
    ensures AddressKey(a) == AddressKey(b) <==>
            || a == b
            || a == [0, 0, 0, 0, 0, 0, 0, 0, 0, 0, 255, 255] + b
            || b == [0, 0, 0, 0, 0, 0, 0, 0, 0, 0, 255, 255] + a
  {
    var mapped: bytes := [0, 0, 0, 0, 0, 0, 0, 0, 0, 0, 255, 255];
    assert |a| == 16 ==> a == a[..12] + a[12..];
    assert |b| == 16 ==> b == b[..12] + b[12..];
    assert (mapped + a)[..12] == mapped && (mapped + a)[12..] == a;
    assert (mapped + b)[..12] == mapped && (mapped + b)[12..] == b;
  }

  /** The Internet class is met with and without the top bit of the class field. */
  lemma InternetClassIff(cls: u16)
    ensures PlainClass(cls) == 1 <==> cls == 1 || cls == 0x8001
  {}

  ghost function Prefixed(items: seq<bytes>): bytes
    requires forall i :: 0 <= i < |items| ==> |items[i]| <= 255
  {
    if items == [] then [] else [|items[0]|] + items[0] + Prefixed(items[1..])
  }

  lemma {:induction false} PrefixedIsText(items: seq<bytes>)
    requires forall i :: 0 <= i < |items| ==> |items[i]| <= 255
    ensures TxtOk(Prefixed(items))
  {
    if items != [] {
      var data := Prefixed(items);
      assert data[1 + data[0] as int..] == Prefixed(items[1..]);
      PrefixedIsText(items[1..]);
    }
  }

  lemma {:induction false} TextIsPrefixed(data: bytes) returns (items: seq<bytes>)
    requires TxtOk(data)
    ensures (forall i :: 0 <= i < |items| ==> |items[i]| <= 255) && Prefixed(items) == data
    decreases |data|
  {
    if data == [] {
      items := [];
    } else {
      var n := 1 + data[0] as int;
      var rest := TextIsPrefixed(data[n..]);
      items := [data[1..n]] + rest;
      assert items[1..] == rest;
      assert data == [data[0]] + data[1..n] + data[n..];
    }
  }

  ghost predicate Spells(items: seq<bytes>, data: bytes) {
    (forall i :: 0 <= i < |items| ==> |items[i]| <= 255) && Prefixed(items) == data
  }

  /** The texts accepted are exactly the runs of length-prefixed strings. */
  lemma TextIff(data: bytes)
    ensures TxtOk(data) <==> exists items :: Spells(items, data)
  {
    if TxtOk(data) {
      var items := TextIsPrefixed(data);
      assert Spells(items, data);
    }
    if items :| Spells(items, data) {
      PrefixedIsText(items);
    }
  }

  // ----- the printer ------------------------------------------------------------------------

  function Header(id: u16, flags: u16, nq: u16, nr: u16): (h: bytes)
    ensures |h| == 12
  {
    BE16(id) + BE16(flags) + BE16(nq) + BE16(nr) + [0, 0, 0, 0]
  }

  lemma HeaderReads(id: u16, flags: u16, nq: u16, nr: u16)
    ensures var h := Header(id, flags, nq, nr);
            && U16At(h, 0) == id && U16At(h, 2) == flags && U16At(h, 4) == nq && U16At(h, 6) == nr
            && U16At(h, 8) == 0 && U16At(h, 10) == 0
  {
    hide HighByte;
  }

  /** One resource record; the source's only failure is a payload that does not fit its length field. */
  function AppendRR(p: bytes, wire: bytes, typ: u16, cls: u16, ttl: u32, data: bytes): Option<bytes> {
    if |data| > 65535 then None
    else Some(p + RRBytes(wire, typ, cls, ttl, data))
  }

  function RRBytes(wire: bytes, typ: u16, cls: u16, ttl: u32, data: bytes): bytes
    requires |data| < 0x1_0000
  {
    wire + Fixed(typ, cls, ttl, |data|) + data
  }

  /** The payload with its embedded name decompressed. */
  function EmitData(r: Record): bytes
    requires r.typ == SRV ==> |r.data| >= 6
  {
    if r.typ == PTR then r.targetWire
    else if r.typ == SRV then r.data[..6] + r.targetWire
    else r.data
  }

  ghost function RecordBytes(r: Record): bytes
    requires RecordOk(r)
  {
    RRBytes(r.wire, r.typ, r.cls, r.ttl, EmitData(r))
  }

  ghost function RecordsBytes(rs: seq<Record>): bytes
    requires forall i :: 0 <= i < |rs| ==> RecordOk(rs[i])
  {
    if rs == [] then [] else RecordBytes(rs[0]) + RecordsBytes(rs[1..])
  }

  function QuestionBytes(q: Question): bytes {
    q.wire + (BE16(q.typ) + BE16(q.cls))
  }

  function QuestionsBytes(qs: seq<Question>): bytes {
    if qs == [] then [] else QuestionBytes(qs[0]) + QuestionsBytes(qs[1..])
  }

  /** The same record as an uncompressed packet carries it. */
  ghost function Uncompressed(r: Record): Record
    requires RecordOk(r)
  {
    r.(name := DisplayOf(r.wire),
       target := if HasTarget(r.typ) then DisplayOf(r.targetWire) else [],
       data := EmitData(r))
  }

  ghost function UncompressedAll(rs: seq<Record>): (us: seq<Record>)
    requires forall i :: 0 <= i < |rs| ==> RecordOk(rs[i])
    ensures |us| == |rs|
    ensures forall i :: 0 <= i < |rs| ==> us[i] == Uncompressed(rs[i])
  {
    if rs == [] then [] else [Uncompressed(rs[0])] + UncompressedAll(rs[1..])
  }

  ghost function Plain(q: Question): Question
    requires QuestionOk(q)
  {
    q.(name := DisplayOf(q.wire))
  }

  ghost function PlainAll(qs: seq<Question>): (us: seq<Question>)
    requires forall i :: 0 <= i < |qs| ==> QuestionOk(qs[i])
    ensures |us| == |qs|
    ensures forall i :: 0 <= i < |qs| ==> us[i] == Plain(qs[i])
  {
    if qs == [] then [] else [Plain(qs[0])] + PlainAll(qs[1..])
  }

  lemma PairReads(p: bytes, at: nat, typ: u16, cls: u16)
    requires at + 4 <= |p| && p[at..at + 4] == BE16(typ) + BE16(cls)
    ensures U16At(p, at) == typ && U16At(p, at + 2) == cls
  {
    hide HighByte;
    var tail := BE16(typ) + BE16(cls);
    assert p[at..at + 4] == tail;
    assert p[at] == tail[0] && p[at + 1] == tail[1] && p[at + 2] == tail[2] && p[at + 3] == tail[3];
  }

  lemma ReadPrintedQuestion(pre: bytes, q: Question, post: bytes)
    requires QuestionOk(q)
    ensures ReadQuestion(pre + QuestionBytes(q) + post, |pre|) == Some(Read(Plain(q), |pre| + |QuestionBytes(q)|))
  {
    hide Decode, DisplayOf, Shown, BE16, U16At;
    var p := pre + QuestionBytes(q) + post;
    var tail := BE16(q.typ) + BE16(q.cls);
    Rebracket(pre, q.wire, tail, post);
    DecodeInPlace(pre, q.wire, tail + post, 0);
    var at := |pre| + |q.wire|;
    assert p[at..at + 4] == tail;
    PairReads(p, at, q.typ, q.cls);
  }

  lemma {:induction false} ReadPrintedQuestions(pre: bytes, qs: seq<Question>, post: bytes)
    requires forall i :: 0 <= i < |qs| ==> QuestionOk(qs[i])
    ensures ReadQuestions(pre + QuestionsBytes(qs) + post, |pre|, |qs|)
         == Some(Read(PlainAll(qs), |pre| + |QuestionsBytes(qs)|))
    decreases |qs|
  {
    hide ReadQuestion, QuestionBytes, Plain, QuestionOk;
    if qs != [] {
      var b := QuestionBytes(qs[0]);
      var rest := QuestionsBytes(qs[1..]);
      Rebracket(pre, b, rest, post);
      ReadPrintedQuestion(pre, qs[0], rest + post);
      ReadPrintedQuestions(pre + b, qs[1..], post);
    }
  }

  /** The ten octets between a record's name and its payload. */
  function Fixed(typ: u16, cls: u16, ttl: u32, n: u16): (f: bytes)
    ensures |f| == 10
  {
    BE16(typ) + BE16(cls) + BE32(ttl) + BE16(n)
  }

  lemma FixedReads(typ: u16, cls: u16, ttl: u32, n: u16)
    ensures var f := Fixed(typ, cls, ttl, n);
            U16At(f, 0) == typ && U16At(f, 2) == cls && U32At(f, 4) == ttl && U16At(f, 8) == n
  {
    hide HighByte, HighHalf, BE32;
  }

  lemma ReadHead(pre: bytes, wire: bytes, fixed: bytes, data: bytes, post: bytes)
    requires NameWire(wire) && |fixed| == 10 && U16At(fixed, 8) == |data|
    ensures ReadRecordHead(pre + (wire + fixed + data) + post, |pre|)
         == Some(Read(Record(DisplayOf(wire), U16At(fixed, 0), U16At(fixed, 2), U32At(fixed, 4), [], 0, [], data,
                             wire, []),
                      |pre| + |wire| + 10))
  {
    hide Decode, DisplayOf, U16At, U32At;
    var rest := fixed + data + post;
    assert pre + (wire + fixed + data) + post == pre + wire + rest;
    DecodeInPlace(pre, wire, rest, 0);
    ReadFixed(pre + wire, fixed, data, post);
    assert pre + wire + rest == (pre + wire) + fixed + data + post;
  }

  lemma ReadFixed(pre: bytes, fixed: bytes, data: bytes, post: bytes)
    requires |fixed| == 10
    ensures var p := pre + fixed + data + post;
            && U16At(p, |pre|) == U16At(fixed, 0) && U16At(p, |pre| + 2) == U16At(fixed, 2)
            && U32At(p, |pre| + 4) == U32At(fixed, 4) && U16At(p, |pre| + 8) == U16At(fixed, 8)
            && p[|pre| + 10..|pre| + 10 + |data|] == data
  {
    var p := pre + fixed + data + post;
    assert forall k :: 0 <= k < 10 ==> p[|pre| + k] == fixed[k];
    assert p[|pre| + 0] == fixed[0];
  }

  lemma ReadPrintedPayload(pre: bytes, r: Record, head: Record, post: bytes)
    requires RecordOk(r)
    requires head == r.(name := DisplayOf(r.wire), target := [], targetWire := [], port := 0, address := [],
                        data := EmitData(r))
    ensures ReadPayload(pre + EmitData(r) + post, |pre|, head) == Some(Uncompressed(r))
  {
    hide Decode, DisplayOf, Shown, WellFormedWire;
    if r.typ == PTR {
      DecodeInPlace(pre, r.targetWire, post, 0);
    } else if r.typ == SRV {
      Rebracket(pre, r.data[..6], r.targetWire, post);
      DecodeInPlace(pre + r.data[..6], r.targetWire, post, 0);
    }
  }

  lemma ReadPrintedRecord(pre: bytes, r: Record, post: bytes)
    requires RecordOk(r)
    ensures ReadRecord(pre + RecordBytes(r) + post, |pre|) == Some(Read(Uncompressed(r), |pre| + |RecordBytes(r)|))
  {
    hide ReadRecordHead, ReadPayload, DisplayOf, Fixed;
    var data := EmitData(r);
    var fixed := Fixed(r.typ, r.cls, r.ttl, |data|);
    FixedReads(r.typ, r.cls, r.ttl, |data|);
    ReadHead(pre, r.wire, fixed, data, post);
    Rebracket(pre, r.wire + fixed, data, post);
    var head := r.(name := DisplayOf(r.wire), target := [], targetWire := [], port := 0, address := [], data := data);
    ReadPrintedPayload(pre + (r.wire + fixed), r, head, post);
  }

  /**
   * What printing changes of a record: only how its names are written. The name of a pointer, and the name behind the
   * priority, weight and port of a service, appear in full; every other payload is printed as it came.
   */
  lemma PrintedRecordIs(r: Record)
    requires RecordOk(r)
    ensures var u := Uncompressed(r);
      && u.wire == r.wire && u.typ == r.typ && u.cls == r.cls && u.ttl == r.ttl && u.port == r.port
      && u.address == r.address && u.targetWire == r.targetWire
      && (r.typ == 12 ==> u.data == r.targetWire)
      && (r.typ == 33 ==> |u.data| >= 6 && u.data[..6] == r.data[..6] && u.data[6..] == r.targetWire)
      && (r.typ != 12 && r.typ != 33 ==> u.data == r.data)
      && (!LastLabelDotted(LabelsOf(r.wire)) ==> u.name == r.name)
  {
    hide WellFormedWire, TxtOk, AddressKey;
    ShownInPlace(LabelsOf(r.wire));
  }

  lemma {:induction false} ReadPrintedRecords(pre: bytes, rs: seq<Record>, post: bytes)
    requires forall i :: 0 <= i < |rs| ==> RecordOk(rs[i])
    ensures ReadRecords(pre + RecordsBytes(rs) + post, |pre|, |rs|)
         == Some(Read(UncompressedAll(rs), |pre| + |RecordsBytes(rs)|))
    decreases |rs|
  {
    hide ReadRecord, RecordBytes, Uncompressed, RecordOk;
    if rs != [] {
      var b := RecordBytes(rs[0]);
      var rest := RecordsBytes(rs[1..]);
      Rebracket(pre, b, rest, post);
      ReadPrintedRecord(pre, rs[0], rest + post);
      ReadPrintedRecords(pre + b, rs[1..], post);
    }
  }

  /** A packet of already well-formed entries, printed without compression. */
  ghost function PrintedMessage(id: u16, flags: u16, qs: seq<Question>, rs: seq<Record>): bytes
    requires |qs| + |rs| <= MAX_ENTRIES
    requires forall i :: 0 <= i < |rs| ==> RecordOk(rs[i])
  {
    Header(id, flags, |qs|, |rs|) + QuestionsBytes(qs) + RecordsBytes(rs)
  }

  /**
   * Round trip: after any header whose first count is that of the questions and whose other three counts together
   * are that of the records, however they are split over the three sections, exactly the printed entries are read,
   * in order, up to their end; octets behind them are ignored.
   */
  lemma PrintThenParse(h: bytes, qs: seq<Question>, rs: seq<Record>, post: bytes)
    requires |h| == 12 && FlagsSupported(U16At(h, 2)) && |qs| + |rs| <= MAX_ENTRIES
    requires U16At(h, 4) == |qs| && U16At(h, 6) as nat + U16At(h, 8) as nat + U16At(h, 10) as nat == |rs|
    requires forall i :: 0 <= i < |qs| ==> QuestionOk(qs[i])
    requires forall i :: 0 <= i < |rs| ==> RecordOk(rs[i])
    ensures var p := h + QuestionsBytes(qs) + RecordsBytes(rs);
            ReadMessage(p + post) ==
            Some(Read(Message(U16At(h, 0), U16At(h, 2), PlainAll(qs), UncompressedAll(rs)), |p|))
  {
    hide ReadRecords, RecordsBytes, Uncompressed, RecordOk, ReadQuestions, QuestionsBytes, Plain, QuestionOk,
         PlainAll, UncompressedAll, FlagsSupported, U16At;
    var mid := QuestionsBytes(qs);
    var p := h + mid + RecordsBytes(rs);
    assert p + post == h + mid + (RecordsBytes(rs) + post);
    SameHeader(h, mid, RecordsBytes(rs) + post);
    ReadPrintedQuestions(h, qs, RecordsBytes(rs) + post);
    assert p + post == (h + mid) + RecordsBytes(rs) + post;
    ReadPrintedRecords(h + mid, rs, post);
  }

  lemma PrintedMessageReads(id: u16, flags: u16, qs: seq<Question>, rs: seq<Record>)
    requires FlagsSupported(flags) && |qs| + |rs| <= MAX_ENTRIES
    requires forall i :: 0 <= i < |qs| ==> QuestionOk(qs[i])
    requires forall i :: 0 <= i < |rs| ==> RecordOk(rs[i])
    ensures ReadMessage(PrintedMessage(id, flags, qs, rs))
         == Some(Read(Message(id, flags, PlainAll(qs), UncompressedAll(rs)), |PrintedMessage(id, flags, qs, rs)|))
  {
    hide Header, RecordsBytes, UncompressedAll, RecordOk, QuestionsBytes, PlainAll, QuestionOk, ReadMessage,
         FlagsSupported, U16At;
    var p := PrintedMessage(id, flags, qs, rs);
    HeaderReads(id, flags, |qs|, |rs|);
    PrintThenParse(Header(id, flags, |qs|, |rs|), qs, rs, []);
    assert p + [] == p;
  }

  lemma SameHeader(h: bytes, mid: bytes, post: bytes)
    requires |h| == 12
    ensures forall k | 0 <= k <= 10 :: U16At(h + mid + post, k) == U16At(h, k)
  {}
}
