/**
 * The selective relay: which names a response teaches the cache, and which records and questions
 * of a packet are passed on. The state after the first `i` entries of a list is given by a function
 * of `i`, as the source's loops walk the lists.
 */
module RelayFilter {
  import opened Bytes
  import opened DnsMessages
  import opened NameCache
  import opened ServicePolicy

  const RESPONSE_FLAGS: u16 := 0x8400
  const MAX_PACKET: nat := 9000

  // ----- learning ---------------------------------------------------------------------------

  function LearnPointer(s: State, r: Record, env: Environment): State {
    if Internet(r) && PermittedPointer(r) then Added(s, r.target, r.ttl, env) else s
  }

  /** First pass over the records: targets of permitted pointers. */
  function LearnPointers(s: State, rs: seq<Record>, i: nat, env: Environment): State
    requires i <= |rs|
  {
    if i == 0 then s else LearnPointer(LearnPointers(s, rs, i - 1, env), rs[i - 1], env)
  }

  predicate OwnerKnown(s: State, name: bytes, env: Environment) {
    AllowedInstance(name) || Knows(s, name, env)
  }

  /** The cache after `allowedInstance(name) || has(name)`: the cache is asked only if needed. */
  function OwnerAsked(s: State, name: bytes, env: Environment): State {
    if AllowedInstance(name) then s else Asked(s, name, env)
  }

  function LearnHost(s: State, r: Record, env: Environment): State {
    if !Internet(r) then s
    else
      var t := OwnerAsked(s, r.name, env);
      if OwnerKnown(s, r.name, env) && r.typ == SRV && r.target != [] then Added(t, r.target, r.ttl, env) else t
  }

  /** Second pass: targets of service records whose owner is permitted or already learned. */
  function LearnHosts(s: State, rs: seq<Record>, i: nat, env: Environment): State
    requires i <= |rs|
  {
    if i == 0 then s else LearnHost(LearnHosts(s, rs, i - 1, env), rs[i - 1], env)
  }

  function Learned(s: State, rs: seq<Record>, env: Environment): State {
    LearnHosts(LearnPointers(s, rs, |rs|, env), rs, |rs|, env)
  }

  /** A record of the first `i` made the packet relevant in the second pass. */
  predicate OwnerSeen(s: State, rs: seq<Record>, i: nat, env: Environment)
    requires i <= |rs|
  {
    exists k :: 0 <= k < i && Internet(rs[k]) && OwnerKnown(LearnHosts(s, rs, k, env), rs[k].name, env)
  }

  predicate PointerSeen(rs: seq<Record>, i: nat)
    requires i <= |rs|
  {
    exists k :: 0 <= k < i && Internet(rs[k]) && PermittedPointer(rs[k])
  }

  predicate Relevant(s: State, rs: seq<Record>, env: Environment) {
    PointerSeen(rs, |rs|) || OwnerSeen(LearnPointers(s, rs, |rs|, env), rs, |rs|, env)
  }

  method ResponseRelevant(m: Message, c: Cache) returns (relevant: bool)
    modifies c
    ensures relevant == Relevant(old(c.Abstract()), m.records, c.env)
    ensures c.Abstract() == Learned(old(c.Abstract()), m.records, c.env)
  {
    hide Added, Asked, Knows, AllowedInstance, PermittedPointer, Internet;
    var rs := m.records;
    ghost var s0 := c.Abstract();
    relevant := false;
    for i := 0 to |rs|
      invariant c.Abstract() == LearnPointers(s0, rs, i, c.env)
      invariant relevant == PointerSeen(rs, i)
    {
      var r := rs[i];
      if Internet(r) && PermittedPointer(r) {
        relevant := true;
        c.AddTTL(r.target, r.ttl);
      }
    }
    ghost var s1 := c.Abstract();
    ghost var pointed := relevant;
    for i := 0 to |rs|
      invariant c.Abstract() == LearnHosts(s1, rs, i, c.env)
      invariant relevant == (pointed || OwnerSeen(s1, rs, i, c.env))
    {
      var r := rs[i];
      if !Internet(r) {
        continue;
      }
      var known := AllowedInstance(r.name);
      if !known {
        known := c.Has(r.name);
      }
      if known {
        relevant := true;
        if r.typ == SRV && r.target != [] {
          c.AddTTL(r.target, r.ttl);
        }
      }
    }
  }

  // ----- filtering --------------------------------------------------------------------------

  /** The emulator's own host and instance names; empty names suppress nothing. */
  datatype Own = Own(host: bytes, inst: bytes)

  predicate Suppressed(r: Record, own: Own) {
    || !Internet(r)
    || (own.host != [] && r.name == own.host)
    || (own.inst != [] && (r.name == own.inst || r.target == own.inst))
  }

  /** Hosts named by the permitted service records of the same packet, whatever their class. */
  function PacketHosts(rs: seq<Record>, i: nat): set<bytes>
    requires i <= |rs|
  {
    set k | 0 <= k < i && rs[k].typ == SRV && AllowedInstance(rs[k].name) :: rs[k].target
  }

  predicate Permitted(s: State, r: Record, hosts: set<bytes>, own: Own, env: Environment) {
    && !Suppressed(r, own)
    && (if r.typ == PTR then PermittedPointer(r)
        else if r.typ == SRV || r.typ == TXT then OwnerKnown(s, r.name, env)
        else (r.typ == A || r.typ == AAAA) && (Knows(s, r.name, env) || r.name in hosts))
  }

  function FilterAsked(s: State, r: Record, own: Own, env: Environment): State {
    if Suppressed(r, own) then s
    else if r.typ == SRV || r.typ == TXT then OwnerAsked(s, r.name, env)
    else if r.typ == A || r.typ == AAAA then Asked(s, r.name, env)
    else s
  }

  /** The cache once the first `i` records have been decided. */
  function FilterState(s: State, rs: seq<Record>, i: nat, own: Own, env: Environment): State
    requires i <= |rs|
  {
    if i == 0 then s else FilterAsked(FilterState(s, rs, i - 1, own, env), rs[i - 1], own, env)
  }

  /** Whether record `i` passes, with the cache as it is when that record's turn comes. */
  predicate Passes(s: State, rs: seq<Record>, i: nat, own: Own, env: Environment)
    requires i < |rs|
  {
    Permitted(FilterState(s, rs, i, own, env), rs[i], PacketHosts(rs, |rs|), own, env)
  }

  function Kept(s: State, rs: seq<Record>, i: nat, own: Own, env: Environment): (kept: seq<Record>)
    requires i <= |rs|
    ensures |kept| <= i
  {
    if i == 0 then []
    else Kept(s, rs, i - 1, own, env) + (if Passes(s, rs, i - 1, own, env) then [rs[i - 1]] else [])
  }

  predicate QuestionPasses(s: State, q: Question, env: Environment) {
    PlainClass(q.cls) == 1 && (RaymarineType(q.name) || Knows(s, q.name, env))
  }

  function QuestionAsked(s: State, q: Question, env: Environment): State {
    if PlainClass(q.cls) != 1 || RaymarineType(q.name) then s else Asked(s, q.name, env)
  }

  function QuestionState(s: State, qs: seq<Question>, i: nat, env: Environment): State
    requires i <= |qs|
  {
    if i == 0 then s else QuestionAsked(QuestionState(s, qs, i - 1, env), qs[i - 1], env)
  }

  /** Questions passed on lose the unicast-response bit. */
  function KeptQuestions(s: State, qs: seq<Question>, i: nat, env: Environment): (kept: seq<Question>)
    requires i <= |qs|
    ensures |kept| <= i
  {
    if i == 0 then []
    else
      KeptQuestions(s, qs, i - 1, env) +
      (if QuestionPasses(QuestionState(s, qs, i - 1, env), qs[i - 1], env) then [qs[i - 1].(cls := 1)] else [])
  }

  datatype Filtered = Nothing | TooLarge | Packet(packet: bytes)

  function Outcome(count: nat, p: bytes): Filtered {
    if count == 0 then Nothing else if |p| > MAX_PACKET then TooLarge else Packet(p)
  }

  lemma NothingKept(s: State, rs: seq<Record>, own: Own, env: Environment)
    ensures Kept(s, rs, 0, own, env) == []
  {}

  lemma KeptStep(s: State, rs: seq<Record>, i: nat, own: Own, env: Environment)
    requires i < |rs|
    ensures var before := Kept(s, rs, i, own, env);
            Kept(s, rs, i + 1, own, env) == if Passes(s, rs, i, own, env) then before + [rs[i]] else before
  {}

  lemma KeptQuestionsStep(s: State, qs: seq<Question>, i: nat, env: Environment)
    requires i < |qs|
    ensures var before := KeptQuestions(s, qs, i, env);
            KeptQuestions(s, qs, i + 1, env) ==
            if QuestionPasses(QuestionState(s, qs, i, env), qs[i], env) then before + [qs[i].(cls := 1)] else before
  {}

  lemma {:induction false} KeptAreOk(s: State, rs: seq<Record>, i: nat, own: Own, env: Environment)
    requires i <= |rs| && forall k :: 0 <= k < |rs| ==> RecordOk(rs[k])
    ensures forall r :: r in Kept(s, rs, i, own, env) ==> RecordOk(r)
  {
    hide RecordOk, Passes;
    if i > 0 {
      KeptAreOk(s, rs, i - 1, own, env);
      assert RecordOk(rs[i - 1]);
      assert forall r :: r in Kept(s, rs, i, own, env) ==> r in Kept(s, rs, i - 1, own, env) || r == rs[i - 1];
    }
  }

  lemma {:induction false} KeptQuestionsAreOk(s: State, qs: seq<Question>, i: nat, env: Environment)
    requires i <= |qs| && forall k :: 0 <= k < |qs| ==> QuestionOk(qs[k])
    ensures forall q :: q in KeptQuestions(s, qs, i, env) ==> QuestionOk(q)
  {
    hide QuestionPasses;
    if i > 0 {
      KeptQuestionsAreOk(s, qs, i - 1, env);
      assert QuestionOk(qs[i - 1]);
      assert forall q :: q in KeptQuestions(s, qs, i, env) ==>
                           q in KeptQuestions(s, qs, i - 1, env) || q == qs[i - 1].(cls := 1);
    }
  }

  lemma {:induction false} RecordsBytesSnoc(rs: seq<Record>, r: Record)
    requires (forall i :: 0 <= i < |rs| ==> RecordOk(rs[i])) && RecordOk(r)
    ensures RecordsBytes(rs + [r]) == RecordsBytes(rs) + RecordBytes(r)
    decreases |rs|
  {
    hide RecordBytes, RecordOk;
    if rs == [] {
    } else {
      assert (rs + [r])[1..] == rs[1..] + [r];
      RecordsBytesSnoc(rs[1..], r);
      Rebracket([], RecordBytes(rs[0]), RecordsBytes(rs[1..]), RecordBytes(r));
    }
  }

  lemma {:induction false} QuestionsBytesSnoc(qs: seq<Question>, q: Question)
    ensures QuestionsBytes(qs + [q]) == QuestionsBytes(qs) + QuestionBytes(q)
    decreases |qs|
  {
    hide QuestionBytes;
    if qs == [] {
    } else {
      assert (qs + [q])[1..] == qs[1..] + [q];
      QuestionsBytesSnoc(qs[1..], q);
      Rebracket([], QuestionBytes(qs[0]), QuestionsBytes(qs[1..]), QuestionBytes(q));
    }
  }

  /** What a response becomes, given the cache after learning from it. */
  ghost function ResponseOutcome(s: State, rs: seq<Record>, own: Own, env: Environment): Filtered
    requires |rs| <= MAX_ENTRIES && forall k :: 0 <= k < |rs| ==> RecordOk(rs[k])
  {
    KeptAreOk(s, rs, |rs|, own, env);
    var kept := Kept(s, rs, |rs|, own, env);
    Outcome(|kept|, PrintedMessage(0, RESPONSE_FLAGS, [], kept))
  }

  ghost function QueryOutcome(s: State, qs: seq<Question>, env: Environment): Filtered
    requires |qs| <= MAX_ENTRIES
  {
    var kept := KeptQuestions(s, qs, |qs|, env);
    Outcome(|kept|, PrintedMessage(0, 0, kept, []))
  }

  method FilterRecords(rs: seq<Record>, c: Cache, own: Own) returns (body: bytes, count: nat)
    requires forall k :: 0 <= k < |rs| ==> RecordOk(rs[k])
    modifies c
    ensures c.Abstract() == FilterState(old(c.Abstract()), rs, |rs|, own, c.env)
    ensures var kept := Kept(old(c.Abstract()), rs, |rs|, own, c.env);
            count == |kept| && (forall r :: r in kept ==> RecordOk(r)) && body == RecordsBytes(kept)
  {
    hide Asked, Knows, AllowedInstance, PermittedPointer, RecordBytes, RecordOk, RecordsBytes, Internet;
    ghost var s := c.Abstract();
    KeptAreOk(s, rs, 0, own, c.env);
    NoRecordsBytes();
    body, count := [], 0;
    var hosts: set<bytes> := {};
    for i := 0 to |rs|
      invariant hosts == PacketHosts(rs, i)
    {
      if rs[i].typ == SRV && AllowedInstance(rs[i].name) {
        hosts := hosts + {rs[i].target};
      }
    }
    for i := 0 to |rs|
      invariant c.Abstract() == FilterState(s, rs, i, own, c.env)
      invariant forall r :: r in Kept(s, rs, i, own, c.env) ==> RecordOk(r)
      invariant count == |Kept(s, rs, i, own, c.env)| && body == RecordsBytes(Kept(s, rs, i, own, c.env))
    {
      KeptStep(s, rs, i, own, c.env);
      var r := rs[i];
      if Suppressed(r, own) {
        continue;
      }
      var allow := false;
      if r.typ == PTR {
        allow := PermittedPointer(r);
      } else if r.typ == SRV || r.typ == TXT {
        allow := AllowedInstance(r.name);
        if !allow {
          allow := c.Has(r.name);
        }
      } else if r.typ == A || r.typ == AAAA {
        allow := c.Has(r.name);
        allow := allow || r.name in hosts;
      }
      if !allow {
        continue;
      }
      KeptAreOk(s, rs, i + 1, own, c.env);
      RecordsBytesSnoc(Kept(s, rs, i, own, c.env), r);
      body := Append(body, r);
      count := count + 1;
    }
  }

  lemma NoRecordsBytes()
    ensures RecordsBytes([]) == []
  {}

  /** The payload with its name decompressed always fits its length field, so appending cannot fail. */
  function Append(p: bytes, r: Record): (q: bytes)
    requires RecordOk(r)
    ensures q == p + RecordBytes(r)
  {
    AppendRR(p, r.wire, r.typ, r.cls, r.ttl, EmitData(r)).value
  }

  method FilterQuestions(qs: seq<Question>, c: Cache) returns (body: bytes, count: nat)
    modifies c
    ensures c.Abstract() == QuestionState(old(c.Abstract()), qs, |qs|, c.env)
    ensures var kept := KeptQuestions(old(c.Abstract()), qs, |qs|, c.env);
            count == |kept| && body == QuestionsBytes(kept)
  {
    hide Asked, Knows, RaymarineType, QuestionBytes;
    ghost var s := c.Abstract();
    body, count := [], 0;
    for i := 0 to |qs|
      invariant c.Abstract() == QuestionState(s, qs, i, c.env)
      invariant count == |KeptQuestions(s, qs, i, c.env)| && body == QuestionsBytes(KeptQuestions(s, qs, i, c.env))
    {
      KeptQuestionsStep(s, qs, i, c.env);
      var q := qs[i];
      if PlainClass(q.cls) != 1 {
        continue;
      }
      var allow := RaymarineType(q.name);
      if !allow {
        allow := c.Has(q.name);
      }
      if !allow {
        continue;
      }
      QuestionsBytesSnoc(KeptQuestions(s, qs, i, c.env), q.(cls := 1));
      body := body + QuestionBytes(q.(cls := 1));
      count := count + 1;
    }
  }

  /** The filter on a parsed message; learning from a response happens first, inside the filter. */
  method FilterDNS(m: Message, c: Cache, own: Own) returns (out: Filtered)
    requires MessageOk(m)
    modifies c
    ensures m.Response() ==>
              var s := Learned(old(c.Abstract()), m.records, c.env);
              && out == ResponseOutcome(s, m.records, own, c.env)
              && c.Abstract() == FilterState(s, m.records, |m.records|, own, c.env)
    ensures !m.Response() ==>
              && out == QueryOutcome(old(c.Abstract()), m.questions, c.env)
              && c.Abstract() == QuestionState(old(c.Abstract()), m.questions, |m.questions|, c.env)
  {
    hide RecordOk, QuestionOk, Header, Kept, KeptQuestions, Learned, FilterState, QuestionState;
    var body, count;
    if m.Response() {
      var _ := ResponseRelevant(m, c);
      ghost var s := c.Abstract();
      body, count := FilterRecords(m.records, c, own);
      out := Outcome(count, Header(0, RESPONSE_FLAGS, 0, count) + body);
      assert Header(0, RESPONSE_FLAGS, 0, count) + body
          == PrintedMessage(0, RESPONSE_FLAGS, [], Kept(s, m.records, |m.records|, own, c.env));
    } else {
      ghost var s := c.Abstract();
      body, count := FilterQuestions(m.questions, c);
      out := Outcome(count, Header(0, 0, count, 0) + body);
      assert Header(0, 0, count, 0) + body
          == PrintedMessage(0, 0, KeptQuestions(s, m.questions, |m.questions|, c.env), []);
    }
  }

  // ----- what is relayed --------------------------------------------------------------------

  /** The positions of the records that pass. */
  function KeptAt(s: State, rs: seq<Record>, i: nat, own: Own, env: Environment): seq<nat>
    requires i <= |rs|
  {
    if i == 0 then []
    else KeptAt(s, rs, i - 1, own, env) + (if Passes(s, rs, i - 1, own, env) then [i - 1] else [])
  }

  ghost predicate Picks<T>(xs: seq<T>, at: seq<nat>, ys: seq<T>) {
    && |at| == |ys|
    && (forall j, k :: 0 <= j < k < |at| ==> at[j] < at[k])
    && (forall j :: 0 <= j < |at| ==> at[j] < |xs| && ys[j] == xs[at[j]])
  }

  lemma {:induction false} KeptAtExact(s: State, rs: seq<Record>, i: nat, own: Own, env: Environment)
    requires i <= |rs|
    ensures var at := KeptAt(s, rs, i, own, env);
            && Picks(rs, at, Kept(s, rs, i, own, env))
            && (forall j :: 0 <= j < |at| ==> at[j] < i)
            && (forall k :: 0 <= k < i ==> (k in at <==> Passes(s, rs, k, own, env)))
  {
    hide Passes;
    if i > 0 {
      KeptAtExact(s, rs, i - 1, own, env);
      var before := KeptAt(s, rs, i - 1, own, env);
      assert forall k :: k in KeptAt(s, rs, i, own, env) <==>
                           k in before || (k == i - 1 && Passes(s, rs, i - 1, own, env));
    }
  }

  lemma ReplyFlagsSupported()
    ensures FlagsSupported(RESPONSE_FLAGS) && FlagsSupported(0)
  {}

  /**
   * A relayed response, for everything the parser yields: what is sent is at most 9000 octets,
   * parses, is consumed to its end, and holds exactly the records that pass, in their original order,
   * each with its wire name, type, class, TTL and decompressed payload.
   */
  lemma RelayedResponse(m: Message, s: State, own: Own, env: Environment, p: bytes)
    requires MessageOk(m)
    requires ResponseOutcome(s, m.records, own, env) == Packet(p)
    ensures var at := KeptAt(s, m.records, |m.records|, own, env);
            var kept := Kept(s, m.records, |m.records|, own, env);
            && 0 < |kept| <= MAX_ENTRIES && |p| <= MAX_PACKET
            && Picks(m.records, at, kept)
            && (forall k :: 0 <= k < |m.records| ==> (k in at <==> Passes(s, m.records, k, own, env)))
            && (forall k :: 0 <= k < |kept| ==> RecordOk(kept[k]))
            && ReadMessage(p) == Some(Read(Message(0, RESPONSE_FLAGS, [], UncompressedAll(kept)), |p|))
  {
    hide RecordOk, ReadMessage, FlagsSupported, Passes, Header, Kept, KeptAt, Picks, UncompressedAll;
    ReplyFlagsSupported();
    KeptAtExact(s, m.records, |m.records|, own, env);
    KeptAreOk(s, m.records, |m.records|, own, env);
    PrintedMessageReads(0, RESPONSE_FLAGS, [], Kept(s, m.records, |m.records|, own, env));
  }

  /** A relayed query: the permitted questions in order, each with class IN and no unicast bit. */
  lemma RelayedQuery(m: Message, s: State, env: Environment, p: bytes)
    requires MessageOk(m)
    requires QueryOutcome(s, m.questions, env) == Packet(p)
    ensures var kept := KeptQuestions(s, m.questions, |m.questions|, env);
            && 0 < |kept| <= MAX_ENTRIES && |p| <= MAX_PACKET
            && (forall k :: 0 <= k < |kept| ==> QuestionOk(kept[k]))
            && ReadMessage(p) == Some(Read(Message(0, 0, PlainAll(kept), []), |p|))
  {
    hide QuestionOk, ReadMessage, FlagsSupported, Header, KeptQuestions, PlainAll;
    ReplyFlagsSupported();
    KeptQuestionsAreOk(s, m.questions, |m.questions|, env);
    PrintedMessageReads(0, 0, KeptQuestions(s, m.questions, |m.questions|, env), []);
  }
}
