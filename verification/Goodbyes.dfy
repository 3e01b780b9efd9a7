/**
 * When a goodbye withdraws the display: the daemon looks at a response only if it is relevant, so a goodbye that
 * names the display takes effect exactly then. An address record of a host that has run out of the cache is not.
 */
module Goodbyes {
  import opened Bytes
  import opened Clock
  import opened DnsMessages
  import DnsNames
  import opened NameCache
  import opened ServicePolicy
  import opened RelayFilter
  import opened Observation
  import opened Dispatch
  import W = WholeRuns
  import C = ClassGuard
  import R = Refiltering

  /**
   * A packet of goodbyes that names the display, heard on its link, leaves it expired exactly when the packet is
   * relevant, and otherwise leaves it as it was.
   */
  lemma GoodbyeHandledIff(e: Setup, d: Received, g: Tracker, t: Moment, env: Environment)
    requires d.message.Response() && d.at == e.axiom && NamesDisplay(g.axiom, d.message.records)
    requires forall r :: r in d.message.records ==> r.ttl == 0
    ensures var axiom := Filtering(e, d, g, t, env).axiom;
      axiom == if Relevant(g.cache, d.message.records, env) then g.axiom.(expires := t.observe) else g.axiom
  {
    hide Relevant, Learned, Observe, FilterState, FullName;
    var l := g.(cache := Learned(g.cache, d.message.records, env));
    GoodbyeWithdraws(l, d.message.records, t.observe, env, t.order);
  }

  /** A permitted pointer or the record of a permitted instance always makes the packet relevant. */
  lemma InstanceGoodbyeIsRelevant(s: State, rs: seq<Record>, k: nat, env: Environment)
    requires k < |rs| && Internet(rs[k]) && (PermittedPointer(rs[k]) || AllowedInstance(rs[k].name))
    ensures Relevant(s, rs, env)
  {
    hide Internet, PermittedPointer, AllowedInstance, Knows, LearnHosts, LearnPointers;
    if AllowedInstance(rs[k].name) {
      assert OwnerKnown(LearnHosts(LearnPointers(s, rs, |rs|, env), rs, k, env), rs[k].name, env);
    }
  }

  /** A lone address record is relevant exactly when its name is permitted or known. */
  lemma AddressAloneRelevantIff(s: State, r: Record, env: Environment)
    requires r.typ == DnsMessages.A && Internet(r)
    ensures Relevant(s, [r], env) <==> AllowedInstance(r.name) || Knows(s, r.name, env)
  {
    hide AllowedInstance, Knows, Internet;
    assert LearnPointers(s, [r], 1, env) == s;
    assert LearnHosts(s, [r], 0, env) == s;
  }

  // ----- a goodbye that is missed -------------------------------------------------------------

  /** A service record that lasts a second, a pointer and an address record that last 900. */
  function Announcing(rtsp: bytes, owner: bytes, host: bytes): seq<Record> {
    [C.Service(owner, host).(cls := 1, ttl := 1), C.Pointer(rtsp, owner).(ttl := 900), C.HostRecord(host).(ttl := 900)]
  }

  function Goodbye(host: bytes): seq<Record> {
    [C.HostRecord(host).(ttl := 0)]
  }

  const LATER := 10 * SECOND

  /** Handling the first packet takes four cache operations, and the second packet comes ten seconds later. */
  function Readings(pick: Pick): Environment {
    (i: nat) => Choice(if i < 4 then 0 else LATER, pick)
  }

  const ONE_LINK := Setup([Link(false, [])], 0, false, Own([], []))

  function Turns(rtsp: bytes, owner: bytes, host: bytes, order: Orders): (Turn, Turn) {
    (Turn(Received(0, MDNS_PORT, Message(0, RESPONSE_FLAGS, [], Announcing(rtsp, owner, host))),
        Moment(0, 0, 0, order)),
     Turn(Received(0, MDNS_PORT, Message(0, RESPONSE_FLAGS, [], Goodbye(host))), Moment(LATER, LATER, LATER, order)))
  }

  lemma NamesApart()
    ensures Normalize(C.OWNER) == C.OWNER && Normalize(C.HOST) == C.HOST && C.OWNER != C.HOST
    ensures C.OWNER != [] && C.HOST != []
    ensures ServiceForName(C.OWNER) == RTSP && AllowedInstance(C.OWNER) && AllowedInstance(RTSP)
    ensures !AllowedInstance(C.HOST) && MfdType(RTSP)
  {
    C.Spelled();
    C.OwnerAllowed();
    C.NotAType();
    OwnerUnderRtsp();
    TypeIsAllowed();
    HostNotAllowed();
    hide Lower, C.OWNER, C.HOST, RTSP;
    assert Normalize(C.OWNER) == C.OWNER && Normalize(C.HOST) == C.HOST;
  }

  lemma OwnerUnderRtsp()
    ensures ServiceForName(C.OWNER) == RTSP && C.OWNER != []
  {
    C.Spelled();
    C.NotAType();
    hide Lower, RTSP, RYM, RAYDB, HTTP, BROWSE;
    assert Normalize(C.OWNER) == C.OWNER;
    assert C.OWNER[|C.OWNER| - |[DOT] + RTSP|..] == [DOT] + RTSP;
    ServiceOrderIrrelevant(C.OWNER, RTSP);
  }

  lemma TypeIsAllowed()
    ensures AllowedInstance(RTSP)
  {
    C.Spelled();
    hide Lower, RTSP;
    assert Normalize(RTSP) == RTSP;
  }

  lemma HostNotAllowed()
    ensures !AllowedInstance(C.HOST)
  {
    C.Spelled();
    C.Labels();
    C.A.FixedSizes();
    assert Normalize(C.HOST) == C.HOST && |C.HOST| == 11;
    ShortIsUnderNothing(C.HOST);
  }

  lemma ShortIsUnderNothing(n: bytes)
    requires |n| <= 11 && Normalize(n) == n
    ensures ServiceForName(n) == [] && !AllowedInstance(n)
  {
    assert |RTSP| == 16 && |RYM| == 19 && |RAYDB| == 17 && |HTTP| == 16 && |BROWSE| == 28;
  }

  lemma TimesOf()
    ensures Lifetime(1) == SECOND && Lifetime(900) == 900 * SECOND
  {}

  lemma PointedFirst(rtsp: bytes, owner: bytes, host: bytes, pick: Pick)
    ensures LearnPointers(EMPTY, Announcing(rtsp, owner, host), 3, Readings(pick)) ==
            State(map[C.OWNER := 900 * SECOND], 1)
    ensures PointerSeen(Announcing(rtsp, owner, host), 3)
  {
    hide C.OWNER, C.HOST, RTSP, Normalize, AddressKey, BE16, Lifetime, LearnPointers, AllowedInstance, ServiceForName;
    NamesApart();
    TimesOf();
    var rs, env := Announcing(rtsp, owner, host), Readings(pick);
    assert Internet(rs[1]) && PermittedPointer(rs[1]);
    NothingYet(EMPTY, rs, env);
    R.PointersNext(EMPTY, rs, 0, env);
    R.PointersNext(EMPTY, rs, 1, env);
    R.PointersNext(EMPTY, rs, 2, env);
  }

  lemma NothingYet(s: State, rs: seq<Record>, env: Environment)
    ensures LearnPointers(s, rs, 0, env) == s && LearnHosts(s, rs, 0, env) == s
  {}

  /** The cache after the first packet has been learned: the host lasts a second. */
  lemma LearnedFirst(rtsp: bytes, owner: bytes, host: bytes, pick: Pick)
    ensures Learned(EMPTY, Announcing(rtsp, owner, host), Readings(pick)) ==
            State(map[C.OWNER := 900 * SECOND, C.HOST := SECOND], 3)
    ensures Relevant(EMPTY, Announcing(rtsp, owner, host), Readings(pick))
  {
    hide C.OWNER, C.HOST, RTSP, Normalize, AllowedInstance, AddressKey, BE16, Lifetime, LearnHosts, LearnPointers;
    NamesApart();
    TimesOf();
    PointedFirst(rtsp, owner, host, pick);
    var rs, env := Announcing(rtsp, owner, host), Readings(pick);
    var one := State(map[C.OWNER := 900 * SECOND], 1);
    NothingYet(one, rs, env);
    R.HostsNext(one, rs, 0, env);
    R.HostsNext(one, rs, 1, env);
    R.HostsNext(one, rs, 2, env);
    assert Internet(rs[0]) && Internet(rs[1]) && Internet(rs[2]);
    assert LearnHosts(one, rs, 1, env) == State(map[C.OWNER := 900 * SECOND, C.HOST := SECOND], 2);
    assert LearnHosts(one, rs, 2, env) == LearnHosts(one, rs, 1, env);
  }

  /** What is observed of the first packet: the pointer prolongs what the service record began. */
  lemma ObservedFirst(g: Tracker, rtsp: bytes, owner: bytes, host: bytes, pick: Pick)
    requires g == Tracker(map[], map[], NOBODY, State(map[C.OWNER := 900 * SECOND, C.HOST := SECOND], 3))
    ensures var rs := Announcing(rtsp, owner, host);
      && Gathered(g, rs, 0) == Track(map[C.OWNER := Observed(RTSP, C.OWNER, C.HOST, C.PORT, 0, 900 * SECOND)],
          {C.OWNER})
      && Addressed(g, rs, 0, Readings(pick)) ==
         HostTrack(map[C.HOST := HostAddress(AddressKey(C.ADDRESS), 900 * SECOND)], {C.OWNER}, g.cache.(ops := 4))
  {
    hide C.OWNER, C.HOST, RTSP, Normalize, AllowedInstance, ServiceForName, AddressKey, BE16, Lifetime;
    NamesApart();
    TimesOf();
    HasText();
    var rs, env := Announcing(rtsp, owner, host), Readings(pick);
    assert Internet(rs[0]) && Internet(rs[1]) && Internet(rs[2]);
    var t0 := Track(map[], {});
    var first := Observed(RTSP, C.OWNER, C.HOST, C.PORT, 0, SECOND);
    assert FreshObservations(g.obs, 0) == map[] && FreshHosts(g.hosts, 0) == map[];
    assert ObserveRecords(t0, rs, 1, 0) == Track(map[C.OWNER := first], {C.OWNER});
    assert ObserveRecords(t0, rs, 2, 0) == Track(map[C.OWNER := first.(expires := 900 * SECOND)], {C.OWNER});
    assert ObserveRecords(t0, rs, 3, 0) == ObserveRecords(t0, rs, 2, 0);
    var t, h0 := Gathered(g, rs, 0), HostTrack(map[], {C.OWNER}, g.cache);
    assert AddressRecords(h0, t.obs, rs, 1, 0, env) == h0;
    assert AddressRecords(h0, t.obs, rs, 2, 0, env) == h0;
    assert Knows(g.cache, C.HOST, env);
    assert OfHost(t.obs, C.HOST) == {C.OWNER};
  }

  lemma HasText()
    ensures AddressKey(C.ADDRESS) != []
  {}

  /** After the first packet the display is on for 900 s. */
  lemma AfterFirst(rtsp: bytes, owner: bytes, host: bytes, pick: Pick, order: Orders)
    ensures var g := W.After(ONE_LINK, [Turns(rtsp, owner, host, order).0], Readings(pick));
      && g.axiom.ip == AddressKey(C.ADDRESS) && g.axiom.expires == 900 * SECOND
      && g.cache == State(map[C.OWNER := 900 * SECOND, C.HOST := SECOND], 4)
  {
    hide C.OWNER, C.HOST, RTSP, Normalize, Learned, Relevant, Gathered, Addressed, Withdrawn, WithoutSuffix,
         AddressKey, BE16;
    var turn, env := Turns(rtsp, owner, host, order).0, Readings(pick);
    assert [turn][..0] == [];
    LearnedFirst(rtsp, owner, host, pick);
    var l := Start().(cache := Learned(EMPTY, Announcing(rtsp, owner, host), env));
    ObservedFirst(l, rtsp, owner, host, pick);
    var obs, hosts := Gathered(l, Announcing(rtsp, owner, host), 0).obs,
        Addressed(l, Announcing(rtsp, owner, host), 0, env).hosts;
    OneReported(Withdrawn(NOBODY, Announcing(rtsp, owner, host), 3, 0), C.OWNER, obs, hosts, 0, order.touched);
  }

  lemma OneReported(axiom: Seen, k: bytes, obs: Observations, hosts: Hosts, now: int, pick: Pick)
    requires Located(obs, hosts, k, now)
    ensures ReportAll(axiom, {k}, obs, hosts, now, pick) == Reported(obs[k], hosts[obs[k].host], now)
  {
    hide Reported, Located;
    assert pick({k}) == k;
    assert {k} - {k} == {};
  }

  /**
   * A run in which the display goes on for 900 s and says goodbye to its address after ten, when the cache has
   * forgotten the host: the goodbye names the display, and the display stays on.
   */
  lemma GoodbyeCanBeMissed(rtsp: bytes, owner: bytes, host: bytes, pick: Pick, order: Orders)
    ensures var turns, env := Turns(rtsp, owner, host, order), Readings(pick);
      var before, after := W.After(ONE_LINK, [turns.0], env), W.After(ONE_LINK, [turns.0, turns.1], env);
      && NamesDisplay(before.axiom, turns.1.d.message.records)
      && (forall r :: r in turns.1.d.message.records ==> r.ttl == 0)
      && after.axiom == before.axiom && after.axiom.expires > turns.1.t.observe
  {
    hide C.OWNER, C.HOST, RTSP, Normalize, AllowedInstance, Filtering, FullName, AddressKey, Relevant, Knows;
    var turns, env := Turns(rtsp, owner, host, order), Readings(pick);
    assert [turns.0, turns.1][..1] == [turns.0];
    AfterFirst(rtsp, owner, host, pick, order);
    NamesApart();
    var g := W.After(ONE_LINK, [turns.0], env);
    var r := Goodbye(host)[0];
    assert r in turns.1.d.message.records;
    AddressAloneRelevantIff(g.cache, r, env);
    assert !Knows(g.cache, C.HOST, env) by {
      Forgotten(pick);
    }
    GoodbyeHandledIff(ONE_LINK, turns.1.d, g, turns.1.t, env);
  }

  lemma Forgotten(pick: Pick)
    ensures !Knows(State(map[C.OWNER := 900 * SECOND, C.HOST := SECOND], 4), C.HOST, Readings(pick))
  {
    hide C.OWNER, C.HOST, Normalize;
    NamesApart();
  }

  lemma OtherHead(r: Record, cls: u16, ttl: u32)
    requires RecordOk(r) && Uncompressed(r) == r
    ensures RecordOk(r.(cls := cls, ttl := ttl)) && Uncompressed(r.(cls := cls, ttl := ttl)) == r.(cls := cls,
        ttl := ttl)
  {
    hide Names, DnsNames.DisplayOf;
  }

  lemma PacketOf(rs: seq<Record>)
    requires |rs| <= MAX_ENTRIES && forall k :: 0 <= k < |rs| ==> RecordOk(rs[k]) && Uncompressed(rs[k]) == rs[k]
    ensures Parse(PrintedMessage(0, RESPONSE_FLAGS, [], rs)) == Some(Message(0, RESPONSE_FLAGS, [], rs))
  {
    hide RecordOk, Uncompressed, ReadMessage, PrintedMessage, FlagsSupported;
    C.Unchanged(rs);
    ReplyFlagsSupported();
    PrintedMessageReads(0, RESPONSE_FLAGS, [], rs);
  }

  /** Both messages of that run come from packets the parser accepts. */
  lemma TurnsArrive(rtsp: bytes, owner: bytes, host: bytes, order: Orders)
    requires C.Wires(rtsp, owner, host)
    ensures var turns := Turns(rtsp, owner, host, order);
      (exists p :: Parse(p) == Some(turns.0.d.message)) && (exists p :: Parse(p) == Some(turns.1.d.message))
  {
    hide C.OWNER, C.HOST, RTSP, AddressKey, BE16, RecordOk, Uncompressed, R.Steady, Parse, PrintedMessage, C.Wires;
    C.RecordsAreSteady(rtsp, owner, host, 0);
    C.RecordsAreSteady(rtsp, owner, host, 1);
    C.RecordsAreSteady(rtsp, owner, host, 2);
    OtherHead(C.Service(owner, host), 1, 1);
    OtherHead(C.Pointer(rtsp, owner), 1, 900);
    OtherHead(C.HostRecord(host), 1, 900);
    OtherHead(C.HostRecord(host), 1, 0);
    PacketOf(Announcing(rtsp, owner, host));
    PacketOf(Goodbye(host));
  }
}
