/** A packet whose relayed form the same cache relays differently: a host named by a service record of another class. */
module ClassGuard {
  import opened Bytes
  import opened DnsNames
  import opened DnsMessages
  import opened NameCache
  import opened ServicePolicy
  import opened RelayFilter
  import opened Refiltering
  import A = Announcement

  const RTSP_LABEL: bytes := Ascii("_rtsp")
  const OWNER_LABEL: bytes := Ascii("mfd")
  const HOST_LABEL: bytes := Ascii("axiom")
  const OWNER: bytes := OWNER_LABEL + [DOT] + RTSP
  const HOST: bytes := HOST_LABEL + [DOT] + A.LOCAL_LABEL
  const CHAOS: u16 := 3
  const PORT: u16 := 554
  const ADDRESS: bytes := [198, 18, 0, 20]

  /** A service record of class CH for a permitted instance. */
  function Service(owner: bytes, host: bytes): Record {
    Record(OWNER, SRV, CHAOS, 120, HOST, PORT, [], [0, 0, 0, 0] + BE16(PORT) + host, owner, host)
  }

  /** A pointer to that instance, which makes the packet relevant. */
  function Pointer(rtsp: bytes, owner: bytes): Record {
    Record(RTSP, PTR, 1, 120, OWNER, 0, [], owner, rtsp, owner)
  }

  /** The address record of its host, of class IN. */
  function HostRecord(host: bytes): Record {
    Record(HOST, DnsMessages.A, 1, 120, [], 0, AddressKey(ADDRESS), ADDRESS, host, [])
  }

  lemma Labels()
    ensures forall l :: l in {RTSP_LABEL, OWNER_LABEL, HOST_LABEL} ==> LabelOk(l) && DOT !in l
    ensures |RTSP_LABEL| == 5 && |OWNER_LABEL| == 3 && |HOST_LABEL| == 5
    ensures RTSP == RTSP_LABEL + [DOT] + (A.TCP_LABEL + [DOT] + A.LOCAL_LABEL)
  {}

  lemma Spelled()
    ensures Lower(OWNER) == OWNER && Lower(HOST) == HOST && !EndsWithDot(OWNER) && !EndsWithDot(HOST)
    ensures Lower(RTSP) == RTSP && !EndsWithDot(RTSP) && OWNER != HOST && HOST != []
  {
    assert OWNER[0] == 109 && HOST[0] == 97;
  }

  lemma Encoded()
    ensures Encode(OWNER).Some? && Encode(HOST).Some? && Encode(RTSP).Some?
    ensures Names(RTSP, Encode(RTSP).value) && DisplayOf(Encode(RTSP).value) == RTSP
    ensures Names(OWNER, Encode(OWNER).value) && DisplayOf(Encode(OWNER).value) == OWNER
    ensures Names(HOST, Encode(HOST).value) && DisplayOf(Encode(HOST).value) == HOST
  {
    Labels();
    Spelled();
    A.FixedLabels();
    A.FixedSizes();
    hide A.LOCAL_LABEL, A.TCP_LABEL, RTSP_LABEL, OWNER_LABEL, HOST_LABEL, RTSP, Encode, Lower, Names, DisplayOf;
    A.EncodeLabel(A.LOCAL_LABEL);
    A.EncodeUnder(A.TCP_LABEL, A.LOCAL_LABEL);
    A.EncodeUnder(RTSP_LABEL, A.TCP_LABEL + [DOT] + A.LOCAL_LABEL);
    A.EncodeUnder(OWNER_LABEL, RTSP);
    A.EncodeUnder(HOST_LABEL, A.LOCAL_LABEL);
    A.EncodedNames(RTSP);
    A.EncodedNames(OWNER);
    A.EncodedNames(HOST);
  }

  /** Labels cut at dots contain none. */
  lemma EncodedUndotted(name: bytes)
    requires Encode(name).Some?
    ensures Undotted(Encode(name).value)
  {
    EncodedIsNameWire(name);
    if name != [] && name != [DOT] {
      var ls := Split(TrimDot(name));
      SplitJoins(TrimDot(name));
      WireOfIsWellFormed(ls);
    } else {
      WireOfIsWellFormed([]);
      assert WireOf([]) == [0];
    }
  }

  ghost predicate Wires(rtsp: bytes, owner: bytes, host: bytes) {
    Encode(RTSP) == Some(rtsp) && Encode(OWNER) == Some(owner) && Encode(HOST) == Some(host)
  }

  ghost function Mixed(rtsp: bytes, owner: bytes, host: bytes): seq<Record> {
    [Pointer(rtsp, owner), Service(owner, host), HostRecord(host)]
  }

  lemma RecordsAreSteady(rtsp: bytes, owner: bytes, host: bytes, k: nat)
    requires Wires(rtsp, owner, host) && k < 3
    ensures var r := Mixed(rtsp, owner, host)[k];
            RecordOk(r) && Uncompressed(r) == r && Steady(r) && |r.wire| <= MAX_WIRE
  {
    hide Encode, Names, DisplayOf, AddressKey, HighByte, OWNER, HOST, RTSP, Undotted;
    Encoded();
    EncodedUndotted(RTSP);
    EncodedUndotted(OWNER);
    EncodedUndotted(HOST);
    Spelled();
    A.NameSizes(HOST, host);
    A.NameSizes(OWNER, owner);
    A.NameSizes(RTSP, rtsp);
    A.SrvData(PORT, host);
  }

  lemma OwnerAllowed()
    ensures AllowedInstance(OWNER)
  {
    hide RTSP, Lower, RYM, RAYDB, HTTP, BROWSE;
    Spelled();
    assert Normalize(OWNER) == OWNER;
    assert OWNER[|OWNER| - |[DOT] + RTSP|..] == [DOT] + RTSP;
    NotAType();
    ServiceOrderIrrelevant(OWNER, RTSP);
  }

  lemma NotAType()
    ensures !RaymarineType(OWNER) && RTSP != BROWSE && RTSP != []
  {
    assert OWNER[0] == 109 && RTSP[1] == 114 && BROWSE[1] == 115;
  }

  /** A relevant response whose relayed form an empty cache, having relayed it, does not relay as it is. */
  ghost predicate RelayedThenChanged(packet: bytes, env: Environment) {
    && Parse(packet).Some? && MessageOk(Parse(packet).value) && Parse(packet).value.Response()
    && var rs := Parse(packet).value.records;
    && Relevant(EMPTY, rs, env)
    && var first := Learned(EMPTY, rs, env);
    && ResponseOutcome(first, rs, Own([], []), env).Packet?
    && var sent := Parse(ResponseOutcome(first, rs, Own([], []), env).packet);
    && sent.Some? && MessageOk(sent.value)
    && var after := FilterState(first, rs, |rs|, Own([], []), env);
    && ResponseOutcome(Learned(after, sent.value.records, env), sent.value.records, Own([], []), env) !=
       ResponseOutcome(first, rs, Own([], []), env)
  }

  lemma MixedReads(rtsp: bytes, owner: bytes, host: bytes)
    requires Wires(rtsp, owner, host)
    ensures var rs := Mixed(rtsp, owner, host);
            && AllSteady(rs) && (forall k :: 0 <= k < |rs| ==> RecordOk(rs[k]))
            && Parse(PrintedMessage(0, RESPONSE_FLAGS, [], rs)) == Some(Message(0, RESPONSE_FLAGS, [], rs))
            && MessageOk(Message(0, RESPONSE_FLAGS, [], rs))
  {
    hide RecordOk, ReadMessage, PrintedMessage, FlagsSupported, Steady, Uncompressed, Wires, Pointer, Service,
         HostRecord;
    var rs := Mixed(rtsp, owner, host);
    forall k | 0 <= k < |rs|
      ensures RecordOk(rs[k]) && Steady(rs[k]) && Uncompressed(rs[k]) == rs[k]
    {
      RecordsAreSteady(rtsp, owner, host, k);
    }
    Unchanged(rs);
    ReplyFlagsSupported();
    PrintedMessageReads(0, RESPONSE_FLAGS, [], rs);
  }

  lemma {:induction false} Unchanged(rs: seq<Record>)
    requires forall k :: 0 <= k < |rs| ==> RecordOk(rs[k]) && Uncompressed(rs[k]) == rs[k]
    ensures UncompressedAll(rs) == rs
  {
    hide RecordOk, Uncompressed;
    if rs != [] {
      Unchanged(rs[1..]);
    }
  }

  /** The address passes beside the service record, but neither the cache nor a record sent holds its name. */
  lemma AddressNotHeld(rtsp: bytes, owner: bytes, host: bytes, env: Environment)
    requires Wires(rtsp, owner, host)
    ensures var rs := Mixed(rtsp, owner, host);
            var first := Learned(EMPTY, rs, env);
            var kept := Kept(first, rs, |rs|, Own([], []), env);
            && kept == [rs[0], rs[2]] && !AddressesHeld(first, kept, env) && Relevant(EMPTY, rs, env)
  {
    hide Wires, OWNER, HOST, RTSP, AddressKey, Learned, FilterState, Knows, Normalize, AllowedInstance, BE16, Kept;
    OwnerAllowed();
    Spelled();
    NotAType();
    var rs, own := Mixed(rtsp, owner, host), Own([], []);
    var first := Learned(EMPTY, rs, env);
    assert Internet(rs[0]) && !Internet(rs[1]) && Internet(rs[2]);
    assert PermittedPointer(rs[0]);
    assert rs[1].target in PacketHosts(rs, 3);
    assert Passes(first, rs, 0, own, env) && !Passes(first, rs, 1, own, env) && Passes(first, rs, 2, own, env);
    KeptFirstAndLast(first, rs, own, env);
    HostNotLearned(rtsp, owner, host, env);
    var kept := Kept(first, rs, |rs|, own, env);
    assert AddressType(kept[1]) && !Targeted(kept, kept[1].name);
  }

  lemma KeptFirstAndLast(s: State, rs: seq<Record>, own: Own, env: Environment)
    requires |rs| == 3 && Passes(s, rs, 0, own, env) && !Passes(s, rs, 1, own, env) && Passes(s, rs, 2, own, env)
    ensures Kept(s, rs, 3, own, env) == [rs[0], rs[2]]
  {
    hide Passes, Kept;
    KeptStep(s, rs, 0, own, env);
    KeptStep(s, rs, 1, own, env);
    KeptStep(s, rs, 2, own, env);
    NothingKept(s, rs, own, env);
  }

  lemma HostNotLearned(rtsp: bytes, owner: bytes, host: bytes, env: Environment)
    ensures !Knows(Learned(EMPTY, Mixed(rtsp, owner, host), env), HOST, env)
  {
    hide OWNER, HOST, RTSP, AddressKey, Learned, PermittedPointer, BE16;
    Spelled();
    var rs := Mixed(rtsp, owner, host);
    LearnedSourced(EMPTY, rs, env);
    assert Normalize(HOST) == HOST && Normalize(OWNER) == OWNER;
    assert !Internet(rs[1]);
    assert !Sourced(EMPTY, Learned(EMPTY, rs, env), rs, HOST) by {
      NotPointer(rs[2]);
    }
  }

  lemma NotPointer(r: Record)
    ensures PermittedPointer(r) ==> r.typ == PTR
  {}

  lemma TwoRecordsFit(a: Record, b: Record)
    requires RecordOk(a) && RecordOk(b) && |a.wire| <= MAX_WIRE && |b.wire| <= MAX_WIRE
    requires |EmitData(a)| <= MAX_WIRE && |EmitData(b)| <= MAX_WIRE
    ensures |PrintedMessage(0, RESPONSE_FLAGS, [], [a, b])| <= MAX_PACKET
  {
    hide RecordOk, EmitData;
    var rs := [a, b];
    assert rs[1..] == [b] && [b][1..] == [];
    assert RecordsBytes(rs) == RecordBytes(a) + RecordsBytes([b]);
    assert RecordsBytes([b]) == RecordBytes(b) + RecordsBytes([]);
  }

  /** Such a packet exists. */
  lemma ClassGuardPacket(env: Environment, now: int)
    requires ClockStopped(env, now)
    ensures exists packet :: RelayedThenChanged(packet, env)
  {
    hide Encode, OWNER, HOST, RTSP, RecordOk, Uncompressed, Parse, PrintedMessage, Learned, FilterState, Kept, Steady,
         AddressKey, Names, AddressesHeld, Relevant, BE16, ResponseOutcome;
    Encoded();
    var rtsp, owner, host := Encode(RTSP).value, Encode(OWNER).value, Encode(HOST).value;
    var rs, own := Mixed(rtsp, owner, host), Own([], []);
    MixedReads(rtsp, owner, host);
    AddressNotHeld(rtsp, owner, host, env);
    var packet := PrintedMessage(0, RESPONSE_FLAGS, [], rs);
    var first := Learned(EMPTY, rs, env);
    MixedIsSent(rtsp, owner, host, env);
    var p := ResponseOutcome(first, rs, own, env).packet;
    RefilteringKeepsPacketIff(EMPTY, rs, own, env, now, p);
    ParsedIsOk(p);
    assert RelayedThenChanged(packet, env);
  }

  lemma MixedIsSent(rtsp: bytes, owner: bytes, host: bytes, env: Environment)
    requires Wires(rtsp, owner, host)
    ensures var rs := Mixed(rtsp, owner, host);
            && |rs| <= MAX_ENTRIES && (forall k :: 0 <= k < |rs| ==> RecordOk(rs[k]))
            && ResponseOutcome(Learned(EMPTY, rs, env), rs, Own([], []), env).Packet?
  {
    hide OWNER, HOST, RTSP, RecordOk, Uncompressed, Steady, PrintedMessage, Learned, Kept, AddressKey, AddressesHeld,
         Relevant, BE16, Wires;
    var rs := Mixed(rtsp, owner, host);
    MixedReads(rtsp, owner, host);
    AddressNotHeld(rtsp, owner, host, env);
    RecordsAreSteady(rtsp, owner, host, 0);
    RecordsAreSteady(rtsp, owner, host, 1);
    RecordsAreSteady(rtsp, owner, host, 2);
    TwoRecordsFit(rs[0], rs[2]);
  }
}
