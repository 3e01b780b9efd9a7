/** Which names and pointer records belong to Raymarine services. */
module ServicePolicy {
  import opened Bytes
  import opened DnsMessages

  const HTTP: bytes := Ascii("_http._tcp.local")
  const BROWSE: bytes := Ascii("_services._dns-sd._udp.local")
  const RTSP: bytes := Ascii("_rtsp._tcp.local")
  const RYM: bytes := Ascii("_rym_rrc._tcp.local")
  const RAYDB: bytes := Ascii("_raydb._tcp.local")

  // ----- service policy ---------------------------------------------------------------------

  predicate MfdType(n: bytes) {
    n == RTSP || n == RYM || n == RAYDB
  }

  predicate RaymarineType(n: bytes) {
    MfdType(n) || n == HTTP || n == BROWSE
  }

  predicate Under(name: bytes, service: bytes) {
    HasSuffix(name, [DOT] + service)
  }

  /** The service type a name is or lies under; empty if none. */
  function ServiceForName(name: bytes): bytes {
    var n := Normalize(name);
    if RaymarineType(n) then n
    else if Under(n, HTTP) then HTTP
    else if Under(n, RTSP) then RTSP
    else if Under(n, RYM) then RYM
    else if Under(n, RAYDB) then RAYDB
    else []
  }

  predicate OccursAt(s: bytes, t: bytes, i: int) {
    0 <= i <= |s| - |t| && s[i..i + |t|] == t
  }

  predicate Contains(s: bytes, t: bytes) {
    exists i :: 0 <= i <= |s| && OccursAt(s, t, i)
  }

  predicate RelevantHttp(n: bytes) {
    var l := Lower(n);
    || Contains(l, Ascii("yachtsense-main"))
    || Contains(l, Ascii("imx8mmevk"))
    || Contains(l, Ascii("rds webserver"))
    || (Contains(l, Ascii("raymarinerds")) && Contains(l, Ascii("cloudconnector")))
  }

  predicate AllowedInstance(n: bytes) {
    var s := ServiceForName(n);
    MfdType(s) || (s == HTTP && RelevantHttp(n))
  }

  predicate Internet(r: Record) {
    PlainClass(r.cls) == 1
  }

  /** A pointer to a permitted instance, or from the service enumeration to a known service type. */
  predicate PermittedPointer(r: Record) {
    r.typ == PTR &&
    (|| MfdType(r.name)
     || (r.name == HTTP && RelevantHttp(r.target))
     || (r.name == BROWSE && RaymarineType(r.target) && r.target != BROWSE))
  }

  // ----- which names and pointers that permits ----------------------------------------------

  ghost predicate Parts(s: bytes, before: bytes, text: bytes, after: bytes) {
    s == before + text + after
  }

  /** The text occurs in the name, in any letter case. */
  ghost predicate Mentions(n: bytes, text: bytes) {
    exists before, after :: Parts(Lower(n), before, text, after)
  }

  /** The name, up to case and a trailing dot, is the service type or something, a dot and the service type. */
  ghost predicate LiesIn(n: bytes, service: bytes) {
    Normalize(n) == service || exists before :: Parts(Normalize(n), before, [46], service)
  }

  /** What the router's own web pages are called. */
  ghost predicate RouterPage(n: bytes) {
    || Mentions(n, Ascii("yachtsense-main"))
    || Mentions(n, Ascii("imx8mmevk"))
    || Mentions(n, Ascii("rds webserver"))
    || (Mentions(n, Ascii("raymarinerds")) && Mentions(n, Ascii("cloudconnector")))
  }

  /** A name that is or lies under an MFD type, or a router page that is or lies under the HTTP type. */
  ghost predicate PermittedName(n: bytes) {
    || LiesIn(n, Ascii("_rtsp._tcp.local"))
    || LiesIn(n, Ascii("_rym_rrc._tcp.local"))
    || LiesIn(n, Ascii("_raydb._tcp.local"))
    || (LiesIn(n, Ascii("_http._tcp.local")) && RouterPage(n))
  }

  lemma ContainsIff(s: bytes, t: bytes)
    ensures Contains(s, t) <==> exists before, after :: Parts(s, before, t, after)
  {
    if i :| 0 <= i <= |s| && OccursAt(s, t, i) {
      assert Parts(s, s[..i], t, s[i + |t|..]);
    }
    if before, after :| Parts(s, before, t, after) {
      assert OccursAt(s, t, |before|);
    }
  }

  lemma RelevantHttpIff(n: bytes)
    ensures RelevantHttp(n) <==> RouterPage(n)
  {
    hide Contains, Parts, Lower;
    ContainsIff(Lower(n), Ascii("yachtsense-main"));
    ContainsIff(Lower(n), Ascii("imx8mmevk"));
    ContainsIff(Lower(n), Ascii("rds webserver"));
    ContainsIff(Lower(n), Ascii("raymarinerds"));
    ContainsIff(Lower(n), Ascii("cloudconnector"));
  }

  lemma UnderIff(n: bytes, service: bytes)
    ensures n == service || Under(n, service) <==> n == service || exists before :: Parts(n, before, [46], service)
  {
    if Under(n, service) {
      assert n == n[..|n| - |service| - 1] + n[|n| - |service| - 1..];
      assert Parts(n, n[..|n| - |service| - 1], [46], service);
    }
    if before :| Parts(n, before, [46], service) {
      assert n == before + ([DOT] + service);
    }
  }

  /** The types are literal, and none of them lies under another. */
  lemma TypesAreApart(n: bytes)
    ensures MfdType(n) <==> n == Ascii("_rtsp._tcp.local") || n == Ascii("_rym_rrc._tcp.local")
                            || n == Ascii("_raydb._tcp.local")
    ensures RaymarineType(n) <==> MfdType(n) || n == Ascii("_http._tcp.local")
                                  || n == Ascii("_services._dns-sd._udp.local")
    ensures RaymarineType(n) ==> !Under(n, HTTP) && !Under(n, RTSP) && !Under(n, RYM) && !Under(n, RAYDB)
  {
    if RaymarineType(n) {
      NotUnder(n, HTTP);
      NotUnder(n, RTSP);
      NotUnder(n, RYM);
      NotUnder(n, RAYDB);
    }
  }

  lemma NotUnder(n: bytes, service: bytes)
    requires RaymarineType(n) && RaymarineType(service) && service != BROWSE
    ensures !Under(n, service)
  {
    var at := |n| - |service| - 1;
    assert service[0] == 95 && service[1] != 95;
    assert at >= 0 ==> n[at..][1] == n[at + 1];
  }

  /**
   * The permitted instances: every name that is or lies under one of the three MFD types, and of the names that
   * are or lie under the HTTP type exactly the router's own pages. No other name is permitted.
   */
  lemma AllowedInstanceIff(n: bytes)
    ensures AllowedInstance(n) <==> PermittedName(n)
  {
    hide Normalize, RelevantHttp, RouterPage, MfdType, RaymarineType, Under;
    var m := Normalize(n);
    RelevantHttpIff(n);
    UnderIff(m, HTTP);
    UnderIff(m, RTSP);
    UnderIff(m, RYM);
    UnderIff(m, RAYDB);
    TypesAreApart(m);
    forall a, b | RaymarineType(a) && a != BROWSE && RaymarineType(b) && b != BROWSE && Under(m, a) && Under(m, b)
      ensures a == b
    {
      SameTail(m, a, b);
    }
    TypesAreApart(HTTP);
    TypesAreApart(RTSP);
    TypesAreApart(RYM);
    TypesAreApart(RAYDB);
    TypeNamesDiffer();
  }

  lemma TypeNamesDiffer()
    ensures HTTP != RTSP && HTTP != RYM && HTTP != RAYDB && BROWSE != HTTP && !MfdType(HTTP) && !MfdType(BROWSE)
    ensures HTTP != [] && !MfdType([])
  {
    assert HTTP[1] != RTSP[1] && HTTP[1] != RYM[1] && HTTP[1] != RAYDB[1] && BROWSE[1] != HTTP[1];
    assert BROWSE[1] != RTSP[1] && BROWSE[1] != RYM[1] && BROWSE[1] != RAYDB[1];
  }

  /** A name's service is the one type it is or lies under; nothing lies under the service enumeration. */
  lemma ServiceForNameIff(n: bytes, service: bytes)
    requires RaymarineType(service)
    ensures ServiceForName(n) == service <==>
            if service == Ascii("_services._dns-sd._udp.local") then Normalize(n) == service else LiesIn(n, service)
  {
    hide MfdType, RaymarineType, Normalize, Under;
    var m := Normalize(n);
    UnderIff(m, service);
    TypesAreApart(m);
    TypesAreApart(service);
    TypeNamesDiffer();
    if service != BROWSE && Under(m, service) {
      assert !RaymarineType(m) by {
        if RaymarineType(m) {
          NotUnder(m, service);
        }
      }
      ServiceOrderIrrelevant(n, service);
    }
  }

  /**
   * A pointer from an MFD type, from the HTTP type to a router page, or from the enumeration to one of the four
   * types.
   */
  ghost predicate PointsTo(r: Record) {
    r.typ == 12 &&
    (|| r.name in {Ascii("_rtsp._tcp.local"), Ascii("_rym_rrc._tcp.local"), Ascii("_raydb._tcp.local")}
     || (r.name == Ascii("_http._tcp.local") && RouterPage(r.target))
     || (r.name == Ascii("_services._dns-sd._udp.local")
         && r.target in {Ascii("_rtsp._tcp.local"), Ascii("_rym_rrc._tcp.local"), Ascii("_raydb._tcp.local"),
                         Ascii("_http._tcp.local")}))
  }

  lemma PermittedPointerIff(r: Record)
    ensures PermittedPointer(r) <==> PointsTo(r)
  {
    hide RelevantHttp, RouterPage, MfdType, RaymarineType, Under;
    RelevantHttpIff(r.target);
    TypesAreApart(r.name);
    TypesAreApart(r.target);
    TypeNamesDiffer();
  }

  /** At most one service type fits, so the order in which the source tries them does not matter. */
  lemma ServiceOrderIrrelevant(name: bytes, service: bytes)
    requires RaymarineType(service) && service != BROWSE
    requires Under(Normalize(name), service) && !RaymarineType(Normalize(name))
    ensures ServiceForName(name) == service
  {
    hide Normalize, Under;
    var n := Normalize(name);
    forall other | RaymarineType(other) && other != BROWSE && Under(n, other)
      ensures other == service
    {
      SameTail(n, service, other);
    }
  }

  lemma SameTail(n: bytes, a: bytes, b: bytes)
    requires RaymarineType(a) && a != BROWSE && RaymarineType(b) && b != BROWSE
    requires Under(n, a) && Under(n, b)
    ensures a == b
  {
    if |a| <= |b| {
      TailOfTail(n, a, b);
    } else {
      TailOfTail(n, b, a);
    }
  }

  lemma ServiceShape(s: bytes)
    requires RaymarineType(s) && s != BROWSE
    ensures 16 <= |s| <= 19
    ensures s[0] != DOT && s[1] != DOT && s[2] != DOT
  {}

  lemma TailOfTail(n: bytes, a: bytes, b: bytes)
    requires RaymarineType(a) && a != BROWSE && RaymarineType(b) && b != BROWSE
    requires Under(n, a) && Under(n, b) && |a| <= |b|
    ensures a == b
  {
    ServiceShape(a);
    ServiceShape(b);
    hide RaymarineType;
    var long, short := [DOT] + b, [DOT] + a;
    assert n[|n| - |short|..] == n[|n| - |long|..][|long| - |short|..];
    assert short == long[|long| - |short|..];
    assert long[|long| - |short|] == DOT;
    if |a| == |b| {
      assert long[1..] == b && short[1..] == a;
    }
  }
}
