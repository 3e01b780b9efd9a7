/** Answering a query directly: section 6.7 of RFC 6762 for one-shot queriers, plain unicast otherwise. */
module Replies {
  import opened Bytes
  import opened DnsMessages
  import opened RelayFilter

  const LEGACY_TTL: u32 := 10

  /** What a one-shot querier is sent: no cache-flush bit and at most ten seconds to live. */
  function LegacyRecord(r: Record): Record {
    r.(cls := PlainClass(r.cls), ttl := if r.ttl > LEGACY_TTL then LEGACY_TTL else r.ttl)
  }

  function LegacyRecords(rs: seq<Record>): (ls: seq<Record>)
    ensures |ls| == |rs| && forall i :: 0 <= i < |rs| ==> ls[i] == LegacyRecord(rs[i])
  {
    seq(|rs|, i requires 0 <= i < |rs| => LegacyRecord(rs[i]))
  }

  /** The querier's questions repeated without the unicast-response bit. */
  function Repeated(qs: seq<Question>): (ls: seq<Question>)
    ensures |ls| == |qs| && forall i :: 0 <= i < |qs| ==> ls[i] == qs[i].(cls := PlainClass(qs[i].cls))
  {
    seq(|qs|, i requires 0 <= i < |qs| => qs[i].(cls := PlainClass(qs[i].cls)))
  }

  /** The entries of a reply to `q` from the announcement `m`. */
  function ReplyTo(m: Message, q: Message, legacy: bool): Message {
    if legacy then Message(q.id, RESPONSE_FLAGS, Repeated(q.questions), LegacyRecords(m.records))
    else Message(0, RESPONSE_FLAGS, [], m.records)
  }

  ghost function MessageBytes(m: Message): bytes
    requires |m.questions| <= MAX_ENTRIES && |m.records| <= MAX_ENTRIES
    requires forall i :: 0 <= i < |m.records| ==> RecordOk(m.records[i])
  {
    Header(m.id, m.flags, |m.questions|, |m.records|) + QuestionsBytes(m.questions) + RecordsBytes(m.records)
  }

  lemma LegacyOk(rs: seq<Record>)
    requires forall i :: 0 <= i < |rs| ==> RecordOk(rs[i])
    ensures forall i :: 0 <= i < |rs| ==> RecordOk(LegacyRecords(rs)[i])
  {
    hide Names, TxtOk, AddressKey;
  }

  lemma ReplyOk(m: Message, q: Message, legacy: bool)
    requires MessageOk(m) && MessageOk(q)
    ensures var r := ReplyTo(m, q, legacy);
            && |r.questions| <= MAX_ENTRIES && |r.records| <= MAX_ENTRIES
            && (forall i :: 0 <= i < |r.questions| ==> QuestionOk(r.questions[i]))
            && (forall i :: 0 <= i < |r.records| ==> RecordOk(r.records[i]))
  {
    hide RecordOk, Names;
    LegacyOk(m.records);
  }

  method RepeatQuestions(qs: seq<Question>) returns (p: bytes)
    ensures p == QuestionsBytes(Repeated(qs))
  {
    hide QuestionBytes, QuestionsBytes, PlainClass;
    NoQuestionsBytes();
    p := [];
    assert Repeated(qs)[..0] == [];
    for i := 0 to |qs|
      invariant p == QuestionsBytes(Repeated(qs)[..i])
    {
      var q := qs[i].(cls := PlainClass(qs[i].cls));
      QuestionsBytesSnoc(Repeated(qs)[..i], q);
      assert Repeated(qs)[..i] + [q] == Repeated(qs)[..i + 1];
      p := p + QuestionBytes(q);
    }
    assert Repeated(qs)[..|qs|] == Repeated(qs);
  }

  lemma NoQuestionsBytes()
    ensures QuestionsBytes([]) == []
  {}

  method AppendRecords(start: bytes, rs: seq<Record>) returns (p: bytes)
    requires forall i :: 0 <= i < |rs| ==> RecordOk(rs[i])
    ensures p == start + RecordsBytes(rs)
  {
    hide RecordOk, RecordBytes, RecordsBytes;
    NoRecordsBytes();
    p := start;
    assert rs[..0] == [];
    for i := 0 to |rs|
      invariant p == start + RecordsBytes(rs[..i])
    {
      RecordsBytesSnoc(rs[..i], rs[i]);
      assert rs[..i] + [rs[i]] == rs[..i + 1];
      p := Append(p, rs[i]);
    }
    assert rs[..|rs|] == rs;
  }

  /** The source's function: parse the announcement, then print the reply; None if it does not parse. */
  method UnicastReply(announcement: bytes, q: Message, legacy: bool) returns (r: Option<bytes>)
    requires MessageOk(q)
    ensures Parse(announcement).None? ==> r == None
    ensures Parse(announcement).Some? ==>
              var reply := ReplyTo(Parse(announcement).value, q, legacy);
              && |reply.questions| <= MAX_ENTRIES && |reply.records| <= MAX_ENTRIES
              && (forall i :: 0 <= i < |reply.records| ==> RecordOk(reply.records[i]))
              && r == Some(MessageBytes(reply))
  {
    hide Parse, RecordOk, QuestionOk, Header, QuestionsBytes, RecordsBytes;
    var parsed := ParseDNSMessage(announcement);
    if parsed.None? {
      return None;
    }
    var m := parsed.value;
    ParsedIsOk(announcement);
    ReplyOk(m, q, legacy);
    var p: bytes;
    if legacy {
      var questions := RepeatQuestions(q.questions);
      p := Header(q.id, RESPONSE_FLAGS, |q.questions|, |m.records|) + questions;
    } else {
      NoQuestionsBytes();
      p := Header(0, RESPONSE_FLAGS, 0, |m.records|);
      assert p + QuestionsBytes([]) == p;
    }
    p := AppendRecords(p, if legacy then LegacyRecords(m.records) else m.records);
    return Some(p);
  }

  /**
   * A reply can be read back exactly when questions and records together stay within the parser's
   * limit; then it has the querier's ID and questions and the announcement's records, adapted for one-shot
   * queriers, and nothing after them.
   */
  lemma ReplyReadsBack(m: Message, q: Message, legacy: bool)
    requires MessageOk(m) && MessageOk(q)
    ensures var reply := ReplyTo(m, q, legacy);
            && |reply.questions| <= MAX_ENTRIES && |reply.records| <= MAX_ENTRIES
            && (forall i :: 0 <= i < |reply.questions| ==> QuestionOk(reply.questions[i]))
            && (forall i :: 0 <= i < |reply.records| ==> RecordOk(reply.records[i]))
            && ReadMessage(MessageBytes(reply)) ==
               if |reply.questions| + |reply.records| > MAX_ENTRIES then None
               else Some(Read(Message(reply.id, RESPONSE_FLAGS, PlainAll(reply.questions),
                   UncompressedAll(reply.records)),
                              |MessageBytes(reply)|))
  {
    hide RecordOk, QuestionOk, ReadMessage, Header, QuestionsBytes, RecordsBytes, PlainAll, UncompressedAll,
         FlagsSupported;
    ReplyOk(m, q, legacy);
    ReplyFlagsSupported();
    var reply := ReplyTo(m, q, legacy);
    if |reply.questions| + |reply.records| > MAX_ENTRIES {
      TooManyEntries(Header(reply.id, RESPONSE_FLAGS, |reply.questions|, |reply.records|), reply.id,
                     |reply.questions|, |reply.records|, QuestionsBytes(reply.questions), RecordsBytes(reply.records));
    } else {
      PrintedMessageReads(reply.id, RESPONSE_FLAGS, reply.questions, reply.records);
    }
  }

  lemma TooManyEntries(h: bytes, id: u16, nq: u16, nr: u16, mid: bytes, post: bytes)
    requires h == Header(id, RESPONSE_FLAGS, nq, nr) && nq + nr > MAX_ENTRIES
    ensures ReadMessage(h + mid + post) == None
  {
    hide Header, ReadQuestions, ReadRecords, FlagsSupported, U16At;
    HeaderReads(id, RESPONSE_FLAGS, nq, nr);
    SameHeader(h, mid, post);
  }

  /**
   * Towards a one-shot querier every record loses the cache-flush bit and lives exactly as long as before, but at
   * most ten seconds; its name, type and payload stay.
   */
  lemma LegacyReplyIsShortLived(m: Message, q: Message, i: nat)
    requires i < |m.records|
    ensures var r, was := ReplyTo(m, q, true).records[i], m.records[i];
            && |ReplyTo(m, q, true).records| == |m.records|
            && r.cls < 0x8000 && (r.cls == was.cls || r.cls + 0x8000 == was.cls)
            && r.ttl == (if was.ttl < 10 then was.ttl else 10)
            && r.data == was.data && r.wire == was.wire && r.targetWire == was.targetWire && r.typ == was.typ
  {}

  /**
   * A one-shot querier gets its own ID and questions back, without the unicast bit; any other reply has ID 0, no
   * questions and the announcement's records as they are.
   */
  lemma ReplyIsAddressed(m: Message, q: Message, i: nat)
    requires i < |q.questions|
    ensures var r, asked := ReplyTo(m, q, true), q.questions[i];
            && r.id == q.id && r.flags == 0x8400 && |r.questions| == |q.questions|
            && r.questions[i].wire == asked.wire && r.questions[i].typ == asked.typ && r.questions[i].cls < 0x8000
            && (r.questions[i].cls == asked.cls || r.questions[i].cls + 0x8000 == asked.cls)
    ensures ReplyTo(m, q, false) == Message(0, 0x8400, [], m.records)
  {}
}
