/**
 * What the selective relay sends, said of the records and questions themselves: by type, name and target, and by
 * the cache as it is once the packet has been learned from. Reading the cache while the entries are decided only
 * forgets what has expired anyway, so the order of the decisions does not matter.
 */
module RelayPolicy {
  import opened Bytes
  import opened DnsNames
  import opened DnsMessages
  import opened NameCache
  import opened ServicePolicy
  import opened RelayFilter

  /** `t` is a later state of `s` in which only look-ups have happened. */
  ghost predicate OnlyAsked(s: State, t: State, env: Environment) {
    && s.ops <= t.ops
    && (forall n :: n in t.expires ==> n in s.expires && t.expires[n] == s.expires[n])
    && (forall n :: n in s.expires && n !in t.expires ==> s.expires[n] < env(t.ops).now)
  }

  /** The name has an entry that has not run out when cache operation `at` reads the clock. */
  ghost predicate Holds(s: State, name: bytes, at: nat, env: Environment) {
    Normalize(name) in s.expires && env(at).now <= s.expires[Normalize(name)]
  }

  lemma AskedOnly(s: State, t: State, name: bytes, env: Environment)
    requires ClockMonotone(env) && OnlyAsked(s, t, env)
    ensures OnlyAsked(s, Asked(t, name, env), env)
    ensures Knows(t, name, env) <==> Holds(s, name, t.ops, env)
  {
    hide Normalize;
    assert env(t.ops).now <= env(t.ops + 1).now;
  }

  lemma {:induction false} FilterOnlyAsks(s: State, rs: seq<Record>, i: nat, own: Own, env: Environment)
    requires ClockMonotone(env) && i <= |rs|
    ensures OnlyAsked(s, FilterState(s, rs, i, own, env), env)
  {
    hide OnlyAsked, Asked, Suppressed, AllowedInstance;
    if i > 0 {
      FilterOnlyAsks(s, rs, i - 1, own, env);
      AskedOnly(s, FilterState(s, rs, i - 1, own, env), rs[i - 1].name, env);
    } else {
      AskedNothing(s, env);
    }
  }

  lemma {:induction false} QuestionsOnlyAsk(s: State, qs: seq<Question>, i: nat, env: Environment)
    requires ClockMonotone(env) && i <= |qs|
    ensures OnlyAsked(s, QuestionState(s, qs, i, env), env)
  {
    hide OnlyAsked, Asked, RaymarineType;
    if i > 0 {
      QuestionsOnlyAsk(s, qs, i - 1, env);
      AskedOnly(s, QuestionState(s, qs, i - 1, env), qs[i - 1].name, env);
    } else {
      AskedNothing(s, env);
    }
  }

  lemma AskedNothing(s: State, env: Environment)
    ensures OnlyAsked(s, s, env)
  {}

  /** A service record of the packet, of whatever class, has a permitted owner and this host. */
  ghost predicate HostNamed(rs: seq<Record>, host: bytes) {
    exists j :: 0 <= j < |rs| && rs[j].typ == 33 && PermittedName(rs[j].name) && rs[j].target == host
  }

  /**
   * Exactly these records are sent: of the Internet class, neither of the emulator's own host nor of or to its own
   * instance, and a permitted pointer, a service or text record of a permitted or cached name, or an address
   * record of a cached name or of a host that a permitted service record of the packet names.
   */
  lemma SentIff(s: State, rs: seq<Record>, k: nat, own: Own, env: Environment)
    requires ClockMonotone(env) && k < |rs|
    ensures var r := rs[k];
            var at := FilterState(s, rs, k, own, env).ops;
            k in KeptAt(s, rs, |rs|, own, env) <==>
            && (r.cls == 1 || r.cls == 0x8001)
            && (own.host == [] || r.name != own.host)
            && (own.inst == [] || (r.name != own.inst && r.target != own.inst))
            && (|| (r.typ == 12 && PointsTo(r))
                || (r.typ in {16, 33} && (PermittedName(r.name) || Holds(s, r.name, at, env)))
                || (r.typ in {1, 28} && (Holds(s, r.name, at, env) || HostNamed(rs, r.name))))
  {
    hide OnlyAsked, Asked, Knows, Holds, AllowedInstance, PermittedName, PermittedPointer, PointsTo, KeptAt,
         FilterState, PlainClass;
    var r := rs[k];
    KeptAtExact(s, rs, |rs|, own, env);
    FilterOnlyAsks(s, rs, k, own, env);
    AskedOnly(s, FilterState(s, rs, k, own, env), r.name, env);
    AllowedInstanceIff(r.name);
    PermittedPointerIff(r);
    InternetClassIff(r.cls);
    forall j | 0 <= j < |rs|
      ensures AllowedInstance(rs[j].name) <==> PermittedName(rs[j].name)
    {
      AllowedInstanceIff(rs[j].name);
    }
  }

  /** The positions of the questions passed on. */
  function QuestionsAt(s: State, qs: seq<Question>, i: nat, env: Environment): seq<nat>
    requires i <= |qs|
  {
    if i == 0 then []
    else
      QuestionsAt(s, qs, i - 1, env) +
      (if QuestionPasses(QuestionState(s, qs, i - 1, env), qs[i - 1], env) then [i - 1] else [])
  }

  ghost predicate Asks(s: State, qs: seq<Question>, k: nat, env: Environment)
    requires k < |qs|
  {
    var q := qs[k];
    && (q.cls == 1 || q.cls == 0x8001)
    && (|| q.name in {Ascii("_http._tcp.local"), Ascii("_rtsp._tcp.local"), Ascii("_rym_rrc._tcp.local"),
                      Ascii("_raydb._tcp.local"), Ascii("_services._dns-sd._udp.local")}
        || Holds(s, q.name, QuestionState(s, qs, k, env).ops, env))
  }

  lemma QuestionPassesIff(s: State, qs: seq<Question>, k: nat, env: Environment)
    requires ClockMonotone(env) && k < |qs|
    ensures QuestionPasses(QuestionState(s, qs, k, env), qs[k], env) <==> Asks(s, qs, k, env)
  {
    hide OnlyAsked, Asked, Knows, Holds, RaymarineType, QuestionState, PlainClass, MfdType;
    QuestionsOnlyAsk(s, qs, k, env);
    AskedOnly(s, QuestionState(s, qs, k, env), qs[k].name, env);
    InternetClassIff(qs[k].cls);
    TypesAreApart(qs[k].name);
  }

  /**
   * Exactly these questions are passed on, in their order and with the plain class IN: those of the Internet class
   * for one of the five service types or a cached name.
   */
  lemma {:induction false} QuestionSentIff(s: State, qs: seq<Question>, i: nat, env: Environment)
    requires ClockMonotone(env) && i <= |qs|
    ensures var at, kept := QuestionsAt(s, qs, i, env), KeptQuestions(s, qs, i, env);
      && |at| == |kept|
      && (forall j, k :: 0 <= j < k < |at| ==> at[j] < at[k])
      && (forall j :: 0 <= j < |at| ==> at[j] < i && kept[j] == qs[at[j]].(cls := 1))
      && (forall k :: 0 <= k < i ==> (k in at <==> Asks(s, qs, k, env)))
  {
    hide QuestionPasses, Asks, QuestionState;
    if i > 0 {
      QuestionSentIff(s, qs, i - 1, env);
      QuestionPassesIff(s, qs, i - 1, env);
      var before := QuestionsAt(s, qs, i - 1, env);
      assert forall k :: k in QuestionsAt(s, qs, i, env) <==>
                           k in before || (k == i - 1 && Asks(s, qs, i - 1, env));
    }
  }

  /** A name that a question asks for in vain is no longer cached once the questions have been decided. */
  lemma {:induction false} QuestionsForget(s: State, qs: seq<Question>, k: nat, i: nat, env: Environment)
    requires k < i <= |qs| && PlainClass(qs[k].cls) == 1 && !RaymarineType(qs[k].name)
    requires !Knows(QuestionState(s, qs, k, env), qs[k].name, env)
    ensures Normalize(qs[k].name) !in QuestionState(s, qs, i, env).expires
  {
    hide Normalize, RaymarineType;
    if i > k + 1 {
      QuestionsForget(s, qs, k, i - 1, env);
    }
  }

  /** A response counts when one of its class IN records is a permitted pointer or of a permitted or known name. */
  lemma RelevantIff(s: State, rs: seq<Record>, env: Environment)
    ensures Relevant(s, rs, env) <==>
            exists k :: 0 <= k < |rs| && (rs[k].cls == 1 || rs[k].cls == 0x8001)
              && (|| PointsTo(rs[k]) || PermittedName(rs[k].name)
                  || Knows(LearnHosts(LearnPointers(s, rs, |rs|, env), rs, k, env), rs[k].name, env))
  {
    hide PlainClass, AllowedInstance, PermittedPointer, PermittedName, PointsTo, Knows, LearnHosts, LearnPointers;
    forall k | 0 <= k < |rs|
      ensures Internet(rs[k]) <==> rs[k].cls == 1 || rs[k].cls == 0x8001
      ensures PermittedPointer(rs[k]) <==> PointsTo(rs[k])
      ensures AllowedInstance(rs[k].name) <==> PermittedName(rs[k].name)
    {
      InternetClassIff(rs[k].cls);
      PermittedPointerIff(rs[k]);
      AllowedInstanceIff(rs[k].name);
    }
  }

  // ----- other services stay where they are -------------------------------------------------

  /** Neither a permitted pointer nor, otherwise, a record of a permitted or cached name. */
  ghost predicate Foreign(s: State, r: Record) {
    !PointsTo(r) && (r.typ != 12 ==> !PermittedName(r.name) && Normalize(r.name) !in s.expires)
  }

  ghost predicate NothingNew(s: State, t: State) {
    forall n :: n in t.expires ==> n in s.expires && t.expires[n] == s.expires[n]
  }

  lemma ForeignTeaches(s: State, t: State, r: Record, env: Environment)
    requires Foreign(s, r) && NothingNew(s, t)
    ensures LearnPointer(t, r, env) == t && NothingNew(s, LearnHost(t, r, env))
  {
    hide PointsTo, PermittedName, PermittedPointer, AllowedInstance, Normalize, Added;
    PermittedPointerIff(r);
    AllowedInstanceIff(r.name);
  }

  lemma {:induction false} ForeignPointers(s: State, rs: seq<Record>, i: nat, env: Environment)
    requires i <= |rs| && forall k :: 0 <= k < |rs| ==> Foreign(s, rs[k])
    ensures LearnPointers(s, rs, i, env) == s
  {
    hide Foreign, LearnPointer;
    if i > 0 {
      ForeignPointers(s, rs, i - 1, env);
      ForeignTeaches(s, s, rs[i - 1], env);
    }
  }

  lemma {:induction false} ForeignHosts(s: State, rs: seq<Record>, i: nat, env: Environment)
    requires i <= |rs| && forall k :: 0 <= k < |rs| ==> Foreign(s, rs[k])
    ensures NothingNew(s, LearnHosts(s, rs, i, env))
  {
    hide Foreign, LearnHost;
    if i > 0 {
      ForeignHosts(s, rs, i - 1, env);
      ForeignTeaches(s, LearnHosts(s, rs, i - 1, env), rs[i - 1], env);
    }
  }

  /** A response of foreign records teaches the cache no name, and none of its records is sent. */
  lemma ForeignStays(s: State, rs: seq<Record>, own: Own, env: Environment)
    requires forall k :: 0 <= k < |rs| ==> Foreign(s, rs[k])
    ensures var t := Learned(s, rs, env); NothingNew(s, t) && Kept(t, rs, |rs|, own, env) == []
  {
    hide Foreign, Kept;
    ForeignPointers(s, rs, |rs|, env);
    ForeignHosts(s, rs, |rs|, env);
    NoneKept(s, Learned(s, rs, env), rs, |rs|, own, env);
  }

  lemma {:induction false} NoneKept(s: State, t: State, rs: seq<Record>, i: nat, own: Own, env: Environment)
    requires NothingNew(s, t) && i <= |rs| && forall k :: 0 <= k < |rs| ==> Foreign(s, rs[k])
    ensures NothingNew(s, FilterState(t, rs, i, own, env)) && Kept(t, rs, i, own, env) == []
  {
    hide PointsTo, PermittedName, PermittedPointer, AllowedInstance, Normalize, Suppressed;
    if i > 0 {
      NoneKept(s, t, rs, i - 1, own, env);
      var r := rs[i - 1];
      assert Foreign(s, r);
      PermittedPointerIff(r);
      AllowedInstanceIff(r.name);
      forall j | 0 <= j < |rs| && rs[j].typ == SRV
        ensures !AllowedInstance(rs[j].name)
      {
        assert Foreign(s, rs[j]);
        AllowedInstanceIff(rs[j].name);
      }
    }
  }

  /** A pointer to, or a service or text record of, any other HTTP instance is never among the records sent. */
  lemma OtherHttpNotSent(s: State, rs: seq<Record>, k: nat, own: Own, env: Environment)
    requires ClockMonotone(env) && k < |rs|
    requires var r, t := rs[k], Learned(s, rs, env);
      || (r.typ == 12 && r.name == Ascii("_http._tcp.local") && !RouterPage(r.target))
      || (r.typ in {16, 33} && LiesIn(r.name, Ascii("_http._tcp.local")) && !RouterPage(r.name)
          && !Holds(t, r.name, FilterState(t, rs, k, own, env).ops, env))
    ensures var t := Learned(s, rs, env); k !in KeptAt(t, rs, |rs|, own, env)
  {
    hide RouterPage, MfdType, LiesIn, Learned, FilterState, KeptAt, Holds, PermittedName;
    var r, t := rs[k], Learned(s, rs, env);
    SentIff(t, rs, k, own, env);
    if r.typ == 12 {
      ForeignPointer(r);
    } else {
      NotPermittedHttp(r.name);
    }
  }

  lemma NotPermittedHttp(n: bytes)
    requires LiesIn(n, Ascii("_http._tcp.local")) && !RouterPage(n)
    ensures !PermittedName(n)
  {
    hide RouterPage, MfdType, LiesIn;
    TypeNamesDiffer();
    ServiceForNameIff(n, HTTP);
    AllowedInstanceIff(n);
    RelevantHttpIff(n);
  }

  const PRINTER: bytes := Ascii("office printer._http._tcp.local")
  const PRINTER_HOST: bytes := Ascii("office.local")

  lemma MentionedLetters(n: bytes, text: bytes, c: byte)
    requires Mentions(n, text) && c in text
    ensures exists i :: 0 <= i < |n| && Lower(n)[i] == c
  {
    var before, after :| Parts(Lower(n), before, text, after);
    var k :| 0 <= k < |text| && text[k] == c;
    assert Lower(n)[|before| + k] == c;
  }

  predicate Lacks(s: string) {
    forall c :: c in s ==> c !in {'m', 'w', 'y', 'M', 'W', 'Y'}
  }

  /** Every router page has one of the letters m, w and y in its name. */
  lemma NoPage(s: string)
    requires (forall i :: 0 <= i < |s| ==> s[i] as int < 0x100) && Lacks(s)
    ensures !RouterPage(Ascii(s))
  {
    hide Mentions;
    var n := Ascii(s);
    forall text: bytes, c: byte | Mentions(n, text) && c in text
      ensures c !in {109, 119, 121}
    {
      MentionedLetters(n, text, c);
      assert forall i :: 0 <= i < |n| ==> s[i] in s;
    }
    PageLetters();
  }

  lemma PageLetters()
    ensures 121 in Ascii("yachtsense-main") && 109 in Ascii("imx8mmevk") && 119 in Ascii("rds webserver")
    ensures 121 in Ascii("raymarinerds")
  {
    assert Ascii("yachtsense-main")[0] == 121 && Ascii("imx8mmevk")[1] == 109 && Ascii("rds webserver")[4] == 119
        && Ascii("raymarinerds")[2] == 121;
  }

  lemma PrinterLacks()
    ensures Lacks("office printer._http._tcp.local")
  {}

  lemma PrinterIsNormal()
    ensures Normalize(PRINTER) == PRINTER && Normalize(PRINTER_HOST) == PRINTER_HOST && |PRINTER_HOST| == 12
  {}

  lemma PrinterIsForeign()
    ensures !PermittedName(PRINTER) && !RouterPage(PRINTER) && !PermittedName(PRINTER_HOST)
    ensures Normalize(PRINTER) == PRINTER && Normalize(PRINTER_HOST) == PRINTER_HOST
  {
    hide RouterPage, MfdType;
    PrinterLacks();
    NoPage("office printer._http._tcp.local");
    PrinterIsNormal();
    hide Normalize;
    assert Parts(PRINTER, Ascii("office printer"), [46], HTTP);
    NotPermittedHttp(PRINTER);
  }

  /** An office printer's announcement: its pointer, service, text and address records, whatever they hold besides. */
  ghost predicate PrinterPacket(rs: seq<Record>) {
    && |rs| == 4
    && rs[0].typ == 12 && rs[0].name == Ascii("_http._tcp.local") && rs[0].target == PRINTER
    && rs[1].typ == 33 && rs[1].name == PRINTER && rs[1].target == PRINTER_HOST
    && rs[2].typ == 16 && rs[2].name == PRINTER
    && rs[3].typ == 1 && rs[3].name == PRINTER_HOST
  }

  /** It stays on its link: the cache learns neither name, and nothing is sent. */
  lemma PrinterStays(s: State, rs: seq<Record>, own: Own, env: Environment)
    requires PrinterPacket(rs) && PRINTER !in s.expires && PRINTER_HOST !in s.expires
    requires forall k :: 0 <= k < |rs| ==> RecordOk(rs[k])
    ensures PRINTER !in Learned(s, rs, env).expires && PRINTER_HOST !in Learned(s, rs, env).expires
    ensures ResponseOutcome(Learned(s, rs, env), rs, own, env) == Nothing
  {
    hide PRINTER, PRINTER_HOST, RouterPage, PermittedName, Normalize, Learned, RecordOk, PrintedMessage;
    PrinterIsForeign();
    forall k | 0 <= k < |rs|
      ensures Foreign(s, rs[k])
    {
      if k == 0 {
        ForeignPointer(rs[0]);
      }
    }
    ForeignStays(s, rs, own, env);
  }

  lemma ForeignPointer(r: Record)
    requires r.typ == 12 && r.name == Ascii("_http._tcp.local") && !RouterPage(r.target)
    ensures !PointsTo(r)
  {
    assert r.name[1] == 104 && Ascii("_rtsp._tcp.local")[1] == 114 && Ascii("_rym_rrc._tcp.local")[1] == 114
        && Ascii("_raydb._tcp.local")[1] == 114 && Ascii("_services._dns-sd._udp.local")[1] == 115;
  }
}
