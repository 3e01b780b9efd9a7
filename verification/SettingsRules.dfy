/**
 * What a settings file may say, in the terms of its text: the spellings of switches and numbers, the forms of
 * addresses, networks and names, and what each option left out stands for.
 */
module SettingsRules {
  import opened Bytes
  import opened UciConfig
  import opened UciFiles
  import opened Settings
  import DnsNames

  // ----- numbers ----------------------------------------------------------------------------

  function Zeros(n: nat): (s: bytes)
    ensures |s| == n
  {
    seq(n, _ => 48)
  }

  lemma {:induction false} DigitsSplit(t: bytes) returns (z: nat)
    requires AllDigits(t)
    ensures t == Zeros(z) + Itoa(Number(t)) && z < |t|
    decreases |t|
  {
    var n := |t| - 1;
    assert t == t[..n] + [t[n]];
    if n == 0 {
      z := 0;
      assert Zeros(0) + Itoa(Number(t)) == t;
    } else {
      z := DigitsSplit(t[..n]);
      if Number(t[..n]) == 0 {
        assert Itoa(0) == [48];
        assert t[..n] == Zeros(z + 1);
        z := z + 1;
      } else {
        assert Itoa(Number(t)) == Itoa(Number(t[..n])) + [t[n]];
      }
    }
  }

  lemma {:induction false} ZerosDoNotCount(z: nat, s: bytes)
    requires AllDigits(s)
    ensures AllDigits(Zeros(z) + s) && Number(Zeros(z) + s) == Number(s)
    decreases z + |s|
  {
    var t := Zeros(z) + s;
    assert forall i :: 0 <= i < |t| ==> Digit(t[i]);
    if |s| > 1 {
      ZerosDoNotCount(z, s[..|s| - 1]);
      assert t[..|t| - 1] == Zeros(z) + s[..|s| - 1];
    } else if z > 0 {
      ZerosDoNotCount(z - 1, [48]);
      assert t[..|t| - 1] == Zeros(z - 1) + [48];
    } else {
      assert t == s;
    }
  }

  function Magnitude(n: int): nat {
    if n < 0 then -n else n
  }

  /** A sign that fits the number, any zeros, and its decimal digits. */
  ghost predicate Signed(s: bytes, n: int, sign: bytes, z: nat) {
    && (n > 0 ==> sign == [] || sign == Ascii("+")) && (n < 0 ==> sign == Ascii("-"))
    && (n == 0 ==> sign == [] || sign == Ascii("+") || sign == Ascii("-"))
    && s == sign + (Zeros(z) + Itoa(Magnitude(n)))
  }

  /** The decimal texts of a 32-bit number. */
  ghost predicate Numeral(s: bytes, n: int) {
    -0x8000_0000 <= n < 0x8000_0000 && exists z, sign :: Signed(s, n, sign, z)
  }

  lemma SignedReads(s: bytes, n: int, sign: bytes, z: nat)
    requires Signed(s, n, sign, z)
    ensures Atoi(s) == if -0x8000_0000 <= n < 0x8000_0000 then Some(n) else None
  {
    hide Itoa, Number;
    var t := Zeros(z) + Itoa(Magnitude(n));
    ZerosDoNotCount(z, Itoa(Magnitude(n)));
    ItoaReads(Magnitude(n));
    assert Digit(t[0]);
    assert Ascii("+") == [43] && Ascii("-") == [45];
    if sign != [] {
      assert s[1..] == t;
    } else {
      assert s == t;
    }
  }

  lemma ReadIsSigned(s: bytes) returns (sign: bytes, z: nat)
    requires Atoi(s).Some?
    ensures Signed(s, Atoi(s).value, sign, z) && -0x8000_0000 <= Atoi(s).value < 0x8000_0000
  {
    hide Itoa, Number;
    var signed := s != [] && (s[0] == 45 || s[0] == 43);
    var t := if signed then s[1..] else s;
    sign := if signed then [s[0]] else [];
    z := DigitsSplit(t);
    assert Ascii("+") == [43] && Ascii("-") == [45];
    assert s == sign + t;
    assert Magnitude(Atoi(s).value) == Number(t);
  }

  /** The numbers read are exactly the signed decimal texts of the 32-bit integers, leading zeros or not. */
  lemma AtoiIff(s: bytes, n: int)
    ensures Atoi(s) == Some(n) <==> Numeral(s, n)
  {
    hide Atoi, Signed;
    if Numeral(s, n) {
      var z, sign :| Signed(s, n, sign, z);
      SignedReads(s, n, sign, z);
    }
    if Atoi(s) == Some(n) {
      var sign, z := ReadIsSigned(s);
    }
  }

  /** Digits without a needless leading zero are the text of a number. */
  lemma PlainNumeral(s: bytes)
    ensures AllDigits(s) && (|s| > 1 ==> s[0] != 48) <==> exists n: nat :: s == Itoa(n)
    ensures AllDigits(s) && (|s| > 1 ==> s[0] != 48) ==> s == Itoa(Number(s))
  {
    if AllDigits(s) && (|s| > 1 ==> s[0] != 48) {
      var z := DigitsSplit(s);
      if z > 0 {
        LeadingZero(s, z, Number(s));
      }
      assert Zeros(0) + Itoa(Number(s)) == Itoa(Number(s));
    }
    forall n: nat
      ensures |Itoa(n)| > 1 ==> Itoa(n)[0] != 48
    {
      NoLeadingZero(n);
    }
  }

  lemma LeadingZero(s: bytes, z: nat, n: nat)
    requires s == Zeros(z) + Itoa(n) && z > 0
    ensures |s| > 1 && s[0] == 48
  {}

  lemma {:induction false} NoLeadingZero(n: nat)
    ensures n > 0 ==> Itoa(n)[0] != 48
    ensures |Itoa(n)| > 1 ==> n > 0
  {
    if n >= 10 {
      NoLeadingZero(n / 10);
    }
  }

  /** Numbers are written so that they are read back. */
  lemma DecimalReads(n: int)
    requires -0x8000_0000 <= n < 0x8000_0000
    ensures Atoi(Decimal(n)) == Some(n)
  {
    hide Itoa, Atoi;
    assert Signed(Decimal(n), n, if n < 0 then Ascii("-") else [], 0) by {
      assert Zeros(0) + Itoa(Magnitude(n)) == Itoa(Magnitude(n));
    }
    SignedReads(Decimal(n), n, if n < 0 then Ascii("-") else [], 0);
  }

  // ----- switches ---------------------------------------------------------------------------

  /** The spellings of on and off, in any letter case. */
  ghost predicate Switch(s: bytes, on: bool) {
    Lower(s) in if on then {Ascii("1"), Ascii("on"), Ascii("yes"), Ascii("true"), Ascii("enabled")}
                else {Ascii("0"), Ascii("off"), Ascii("no"), Ascii("false"), Ascii("disabled")}
  }

  lemma AsBoolIff(s: bytes, on: bool)
    ensures AsBool(s) == Some(on) <==> Switch(s, on)
  {
    assert Ascii("1") == [49] && Ascii("0") == [48];
    assert Ascii("on") == [111, 110] && Ascii("off") == [111, 102, 102] && Ascii("no") == [110, 111];
    assert Ascii("yes")[0] == 121 && Ascii("true")[0] == 116 && Ascii("false")[0] == 102 && Ascii("enabled")[0] == 101
        && Ascii("disabled")[0] == 100;
  }

  // ----- addresses and networks -----------------------------------------------------------------

  /** The dotted text of four numbers. */
  function Dotted(a: nat, b: nat, c: nat, d: nat): bytes {
    Itoa(a) + [46] + (Itoa(b) + [46] + (Itoa(c) + [46] + Itoa(d)))
  }

  ghost predicate IsDotted(s: bytes, a: nat, b: nat, c: nat, d: nat) {
    a <= 255 && b <= 255 && c <= 255 && d <= 255 && s == Dotted(a, b, c, d)
  }

  lemma OctetIff(s: bytes)
    ensures Octet(s) <==> exists n: nat :: n <= 255 && s == Itoa(n)
    ensures Octet(s) ==> s == Itoa(Number(s)) && Number(s) <= 255
  {
    hide Itoa, Number;
    PlainNumeral(s);
    forall n: nat
      ensures Number(Itoa(n)) == n && (|Itoa(n)| <= 3 <==> n < 1000)
    {
      ItoaReads(n);
      DigitsOf(n, 3);
      Thousand();
    }
  }

  lemma Thousand()
    ensures Power(3) == 1000 && Power(2) == 100
  {
    assert Power(1) == 10 && Power(2) == 100;
  }

  lemma {:induction false} NoDot(s: bytes)
    requires AllDigits(s)
    ensures DOT !in s
  {}

  lemma SplitDotted(a: bytes, b: bytes, c: bytes, d: bytes)
    requires DOT !in a && DOT !in b && DOT !in c && DOT !in d
    ensures DnsNames.Split(a + [DOT] + (b + [DOT] + (c + [DOT] + d))) == [a, b, c, d]
  {
    DnsNames.SplitAfterPiece(a, b + [DOT] + (c + [DOT] + d));
    DnsNames.SplitAfterPiece(b, c + [DOT] + d);
    DnsNames.SplitAfterPiece(c, d);
    DnsNames.SplitPiece(d);
  }

  lemma DottedReads(s: bytes, a: nat, b: nat, c: nat, d: nat)
    requires IsDotted(s, a, b, c, d)
    ensures DottedQuad(s) && Number(DnsNames.Split(s)[0]) == a
  {
    hide Itoa, Number, DnsNames.Split, AllDigits;
    NoDot(Itoa(a));
    NoDot(Itoa(b));
    NoDot(Itoa(c));
    NoDot(Itoa(d));
    SplitDotted(Itoa(a), Itoa(b), Itoa(c), Itoa(d));
    OctetIff(Itoa(a));
    OctetIff(Itoa(b));
    OctetIff(Itoa(c));
    OctetIff(Itoa(d));
    ItoaReads(a);
    assert DnsNames.Split(s) == [Itoa(a), Itoa(b), Itoa(c), Itoa(d)];
  }

  lemma QuadIsDotted(s: bytes)
    requires DottedQuad(s)
    ensures exists a, b, c, d :: IsDotted(s, a, b, c, d)
  {
    hide Itoa, Number, DnsNames.Split;
    var f := DnsNames.Split(s);
    DnsNames.SplitJoins(s);
    OctetIff(f[0]);
    OctetIff(f[1]);
    OctetIff(f[2]);
    OctetIff(f[3]);
    JoinFour(f);
    assert IsDotted(s, Number(f[0]), Number(f[1]), Number(f[2]), Number(f[3]));
  }

  lemma JoinFour(f: seq<bytes>)
    requires |f| == 4
    ensures DnsNames.Join(f) == f[0] + [46] + (f[1] + [46] + (f[2] + [46] + f[3]))
  {
    assert f[1..][1..] == f[2..] && f[2..][1..] == f[3..];
    assert DnsNames.Join(f[3..]) == f[3];
    assert DnsNames.Join(f[2..]) == f[2] + [46] + f[3];
    assert DnsNames.Join(f[1..]) == f[1] + [46] + (f[2] + [46] + f[3]);
  }

  /** A unicast address: four octets, but neither 0.0.0.0 nor 255.255.255.255, and no loopback or multicast one. */
  ghost predicate Unicast(s: bytes, a: nat, b: nat, c: nat, d: nat) {
    && IsDotted(s, a, b, c, d) && a != 127 && !(224 <= a < 240)
    && !(a == b == c == d == 0) && !(a == b == c == d == 255)
  }

  lemma UnicastIff(s: bytes)
    ensures UnicastV4(s) <==> exists a, b, c, d :: Unicast(s, a, b, c, d)
  {
    hide Itoa, Number, DnsNames.Split, AllDigits;
    AllZeros();
    AllOnes();
    forall a, b, c, d | IsDotted(s, a, b, c, d)
      ensures DottedQuad(s) && Number(DnsNames.Split(s)[0]) == a
      ensures s == Ascii("0.0.0.0") <==> a == b == c == d == 0
      ensures s == Ascii("255.255.255.255") <==> a == b == c == d == 255
    {
      DottedReads(s, a, b, c, d);
      if s == Ascii("0.0.0.0") {
        SameDotted(s, a, b, c, d, 0, 0, 0, 0);
      }
      if s == Ascii("255.255.255.255") {
        SameDotted(s, a, b, c, d, 255, 255, 255, 255);
      }
    }
    if DottedQuad(s) {
      QuadIsDotted(s);
      var a, b, c, d :| IsDotted(s, a, b, c, d);
      assert UnicastV4(s) <==> Unicast(s, a, b, c, d);
    }
  }

  lemma SameDotted(s: bytes, a: nat, b: nat, c: nat, d: nat, a': nat, b': nat, c': nat, d': nat)
    requires IsDotted(s, a, b, c, d) && IsDotted(s, a', b', c', d')
    ensures a == a' && b == b' && c == c' && d == d'
  {
    hide Itoa, DnsNames.Split, AllDigits;
    forall n: nat
      ensures DOT !in Itoa(n) && Number(Itoa(n)) == n
    {
      NoDot(Itoa(n));
      ItoaReads(n);
    }
    SplitDotted(Itoa(a), Itoa(b), Itoa(c), Itoa(d));
    SplitDotted(Itoa(a'), Itoa(b'), Itoa(c'), Itoa(d'));
    var f := [Itoa(a), Itoa(b), Itoa(c), Itoa(d)];
    var g := [Itoa(a'), Itoa(b'), Itoa(c'), Itoa(d')];
    assert f == g;
    assert f[0] == g[0] && f[1] == g[1] && f[2] == g[2] && f[3] == g[3];
  }

  lemma AllZeros()
    ensures Ascii("0.0.0.0") == Dotted(0, 0, 0, 0)
  {
    assert Itoa(0) == [48];
    assert Ascii("0.0.0.0") == [48, 46, 48, 46, 48, 46, 48];
  }

  lemma AllOnes()
    ensures Ascii("255.255.255.255") == Dotted(255, 255, 255, 255)
  {
    assert Itoa(2) == [50] && Itoa(25) == [50, 53] && Itoa(255) == [50, 53, 53];
    assert Ascii("255.255.255.255") == [50, 53, 53, 46, 50, 53, 53, 46, 50, 53, 53, 46, 50, 53, 53];
  }

  /** A network: an address, a slash and a length of at most 32. */
  ghost predicate Network(s: bytes, a: nat, b: nat, c: nat, d: nat, n: nat) {
    a <= 255 && b <= 255 && c <= 255 && d <= 255 && n <= 32 && s == Dotted(a, b, c, d) + [47] + Itoa(n)
  }

  lemma LengthIff(s: bytes)
    ensures PrefixLength(s) <==> exists n: nat :: n <= 32 && s == Itoa(n)
    ensures PrefixLength(s) ==> s == Itoa(Number(s)) && Number(s) <= 32
  {
    hide Itoa, Number;
    PlainNumeral(s);
    forall n: nat
      ensures Number(Itoa(n)) == n && (|Itoa(n)| <= 2 <==> n < 100)
    {
      ItoaReads(n);
      DigitsOf(n, 2);
      Thousand();
    }
  }

  lemma CidrIff(s: bytes)
    ensures Cidr(s) <==> exists a, b, c, d, n :: Network(s, a, b, c, d, n)
  {
    hide DottedQuad, PrefixLength, Itoa, Number, Dotted;
    forall i | 0 <= i < |s| && s[i] == 47 && DottedQuad(s[..i]) && PrefixLength(s[i + 1..])
      ensures exists a, b, c, d, n :: Network(s, a, b, c, d, n)
    {
      QuadIsDotted(s[..i]);
      LengthIff(s[i + 1..]);
      var a, b, c, d :| IsDotted(s[..i], a, b, c, d);
      var n := Number(s[i + 1..]);
      assert s == s[..i] + [47] + s[i + 1..];
      assert Network(s, a, b, c, d, n);
    }
    forall a, b, c, d, n | Network(s, a, b, c, d, n)
      ensures Cidr(s)
    {
      var quad := Dotted(a, b, c, d);
      DottedReads(quad, a, b, c, d);
      LengthIff(Itoa(n));
      assert s[|quad|] == 47 && s[..|quad|] == quad && s[|quad| + 1..] == Itoa(n);
    }
  }

  // ----- lists ------------------------------------------------------------------------------

  /** A comma or one of the white space characters of ASCII. */
  predicate Between(ch: byte) {
    ch in {44, 32, 9, 10, 11, 12, 13}
  }

  /** A longest stretch without separators. */
  ghost predicate Run(s: bytes, i: nat, j: nat) {
    && i < j <= |s| && (i == 0 || Between(s[i - 1])) && (j == |s| || Between(s[j]))
    && forall k :: i <= k < j ==> !Between(s[k])
  }

  ghost predicate RunBehind(s: bytes, i: nat, f: bytes) {
    exists a: nat, b: nat :: i <= a <= b <= |s| && Run(s, a, b) && s[a..b] == f
  }

  /** The stretch read from `i` to `j`, at a separator or the end, is the next run if it is not empty. */
  lemma RunEnds(s: bytes, i: nat, j: nat, f: bytes)
    requires i <= j <= |s| && (i == 0 || Between(s[i - 1])) && (forall k :: i <= k < j ==> !Between(s[k]))
    requires j == |s| || Between(s[j])
    ensures RunBehind(s, i, f) <==> (i < j && s[i..j] == f) || (j < |s| && RunBehind(s, j + 1, f))
  {
    if i < j {
      assert Run(s, i, j);
    }
    forall a: nat, b: nat | i <= a <= j && Run(s, a, b)
      ensures a == i && b == j
    {
      RunIs(s, i, j, a, b);
    }
  }

  lemma RunIs(s: bytes, i: nat, j: nat, a: nat, b: nat)
    requires i <= a <= j <= |s| && (j == |s| || Between(s[j])) && (forall k :: i <= k < j ==> !Between(s[k]))
    requires Run(s, a, b)
    ensures a == i && b == j
  {}

  lemma {:induction false} FieldsFrom(s: bytes, i: nat, j: nat, f: bytes)
    requires i <= j <= |s| && (i == 0 || Between(s[i - 1])) && forall k :: i <= k < j ==> !Between(s[k])
    ensures f in Fields(s[j..], s[i..j]) <==> RunBehind(s, i, f)
    decreases |s| - j
  {
    hide RunBehind, Run;
    if j == |s| {
      RunEnds(s, i, j, f);
    } else {
      assert s[j..][0] == s[j] && s[j..][1..] == s[j + 1..];
      if Between(s[j]) {
        FieldsFrom(s, j + 1, j + 1, f);
        assert s[j + 1..j + 1] == [];
        RunEnds(s, i, j, f);
      } else {
        assert s[i..j] + [s[j]] == s[i..j + 1];
        FieldsFrom(s, i, j + 1, f);
      }
    }
  }

  /** The entries of a list are exactly its longest stretches without a comma or white space. */
  lemma FieldsIff(s: bytes, f: bytes)
    ensures f in Fields(s, []) <==> exists a: nat, b: nat :: a <= b <= |s| && Run(s, a, b) && s[a..b] == f
  {
    hide Fields, Run;
    assert s[0..] == s && s[0..0] == [];
    FieldsFrom(s, 0, 0, f);
  }

  // ----- names ------------------------------------------------------------------------------

  predicate LetterOrDigit(ch: byte) {
    'a' as int <= ch <= 'z' as int || 'A' as int <= ch <= 'Z' as int || '0' as int <= ch <= '9' as int
  }

  /** Letters, digits, hyphen and underscore, at most 32 of them and at least one. */
  predicate SerialForm(s: bytes) {
    1 <= |s| <= 32 && forall i :: 0 <= i < |s| ==> LetterOrDigit(s[i]) || s[i] in Ascii("-_")
  }

  /** At most `max` octets and at least one, none of them an ASCII control character. */
  predicate TextForm(s: bytes, max: nat) {
    1 <= |s| <= max && forall i :: 0 <= i < |s| ==> s[i] >= 32 && s[i] != 127
  }

  predicate InterfaceForm(s: bytes) {
    && 1 <= |s| <= 15 && s != Ascii("lo")
    && forall i :: 0 <= i < |s| ==> LetterOrDigit(s[i]) || s[i] in Ascii("_.:-")
  }

  predicate HostForm(s: bytes) {
    && 1 <= |s| <= 63 && s[0] != 45 && s[|s| - 1] != 45
    && forall i :: 0 <= i < |s| ==> LetterOrDigit(s[i]) || s[i] == 45
  }

  lemma {:induction false} SerialKeeps(s: bytes)
    ensures |SerialCharacters(s)| <= |s|
    ensures SerialCharacters(s) == s <==> forall i :: 0 <= i < |s| ==> LetterOrDigit(s[i]) || s[i] in Ascii("-_")
    ensures SerialCharacters(s) != s ==> |SerialCharacters(s)| < |s|
  {
    assert Ascii("-_") == [45, 95];
    if s != [] {
      SerialKeeps(s[1..]);
      assert s == [s[0]] + s[1..];
    }
  }

  lemma SerialIff(s: bytes)
    ensures Printable(s, 32) && s == CleanSerial(s) <==> SerialForm(s)
  {
    hide SerialCharacters;
    SerialKeeps(s);
    DefaultSerial();
    assert Ascii("-_") == [45, 95];
  }

  lemma DefaultSerial()
    ensures SerialForm(Ascii("AF002A4"))
    ensures SerialCharacters(Ascii("AF002A4")) == Ascii("AF002A4")
  {
    hide SerialCharacters;
    var s := Ascii("AF002A4");
    assert forall i :: 0 <= i < |s| ==> LetterOrDigit(s[i]);
    SerialKeeps(s);
  }

  lemma FormsAre(s: bytes, max: nat)
    ensures SafeInterface(s) <==> InterfaceForm(s)
    ensures HostLabel(s) <==> HostForm(s)
    ensures Printable(s, max) <==> TextForm(s, max)
  {
    assert Ascii("_.:-") == [95, 46, 58, 45];
  }

  // ----- the whole record -------------------------------------------------------------------

  ghost predicate NetworkList(s: bytes) {
    forall i: nat, j: nat :: i <= j <= |s| && Run(s, i, j) ==> exists a, b, c, d, n :: Network(s[i..j], a, b, c, d, n)
  }

  lemma NetworkListIff(s: bytes)
    ensures NetworkList(s) <==> forall f :: f in Fields(s, []) ==> Cidr(f)
  {
    hide Fields, Cidr, Run, Network;
    forall f
      ensures f in Fields(s, []) <==> exists i: nat, j: nat :: i <= j <= |s| && Run(s, i, j) && s[i..j] == f
      ensures Cidr(f) <==> exists a, b, c, d, n :: Network(f, a, b, c, d, n)
    {
      FieldsIff(s, f);
      CidrIff(f);
    }
    forall i: nat, j: nat | i <= j <= |s| && Run(s, i, j)
      ensures s[i..j] in Fields(s, [])
    {
      FieldsIff(s, s[i..j]);
    }
  }

  /** What validation accepts. */
  ghost predicate Acceptable(c: Settings) {
    && (c.raynetMode == Ascii("auto") || c.raynetMode == Ascii("manual"))
    && (c.appMode == Ascii("auto") || c.appMode == Ascii("manual"))
    && c.discoveryMode in {Ascii("auto"), Ascii("builtin"), Ascii("avahi"), Ascii("disabled")}
    && (c.logLevel == Ascii("info") || c.logLevel == Ascii("debug"))
    && (c.manageIP ==> c.raynetMode == Ascii("manual"))
    && (exists a, b, d, e :: Unicast(c.ip, a, b, d, e)) && 0 <= c.prefix < 33
    && (c.raynetMode == Ascii("manual") ==> InterfaceForm(c.axiomInterface))
    && (c.appMode == Ascii("manual") ==> |c.remoteInterfaces| > 0) && |c.remoteInterfaces| < 17
    && (forall i :: 0 <= i < |c.remoteInterfaces| ==> InterfaceForm(c.remoteInterfaces[i]))
    && SerialForm(c.serial) && TextForm(c.version, 64) && TextForm(c.inst, 63) && 46 !in c.inst && HostForm(c.hostname)
    && 0 < c.ttl <= 86400 && 0 < c.healthPort <= 65535 && 4 < c.logLines < 201
    && 1023 < c.dashboardPort <= 65535 && c.dashboardPort != c.healthPort
    && |c.dashboardCIDRs| <= 1024 && NetworkList(c.dashboardCIDRs)
  }

  lemma ValidIff(c: Settings)
    ensures Valid(c) <==> Acceptable(c)
  {
    hide UnicastV4, Fields, Cidr, NetworkList, Unicast, Printable, CleanSerial, SerialForm, TextForm, SafeInterface,
         InterfaceForm, HostLabel, HostForm;
    UnicastIff(c.ip);
    NetworkListIff(c.dashboardCIDRs);
    SerialIff(c.serial);
    FormsAre(c.version, 64);
    FormsAre(c.inst, 63);
    FormsAre(c.hostname, 63);
    FormsAre(c.axiomInterface, 15);
    forall n | n in c.remoteInterfaces
      ensures SafeInterface(n) <==> InterfaceForm(n)
    {
      FormsAre(n, 15);
    }
  }

  // ----- reading a record -----------------------------------------------------------------------

  /** The last value of a key, if the key is there. */
  ghost predicate Given(v: Values, key: bytes, s: bytes) {
    key in v && v[key] != [] && v[key][|v[key]| - 1] == s
  }

  ghost predicate TextGiven(v: Values, key: bytes, default: bytes, s: bytes) {
    if key in v then Given(v, key, s) else s == default
  }

  ghost predicate SwitchGiven(v: Values, key: bytes, default: bool, on: bool) {
    if key in v then v[key] != [] && Switch(v[key][|v[key]| - 1], on) else on == default
  }

  ghost predicate NumberGiven(v: Values, key: bytes, default: int, n: int) {
    if key in v then v[key] != [] && Numeral(v[key][|v[key]| - 1], n) else n == default
  }

  ghost predicate DiscoverySaid(v: Values, mode: bytes) {
    TextGiven(v, Ascii("discovery_mode"),
              if Given(v, Ascii("relay_mode"), Ascii("force")) then Ascii("builtin")
              else if Given(v, Ascii("relay_mode"), Ascii("disabled")) then Ascii("disabled")
              else Ascii("auto"),
              mode)
  }

  /**
   * The modes: a file that says anything but not the mode keeps its explicit networks, and an old relay mode
   * counts.
   */
  ghost predicate ModesGiven(v: Values, c: Settings) {
    var unsaid := if v == map[] then Ascii("auto") else Ascii("manual");
    && TextGiven(v, Ascii("raynet_mode"), unsaid, c.raynetMode)
    && TextGiven(v, Ascii("app_mode"), unsaid, c.appMode)
    && DiscoverySaid(v, c.discoveryMode)
  }

  ghost predicate SwitchesGiven(v: Values, c: Settings) {
    && SwitchGiven(v, Ascii("enabled"), false, c.enabled)
    && SwitchGiven(v, Ascii("mdns_enabled"), true, c.mdns)
    && SwitchGiven(v, Ascii("web_enabled"), true, c.http)
    && SwitchGiven(v, Ascii("manage_ip"), false, c.manageIP)
    && SwitchGiven(v, Ascii("remove_ip_on_stop"), false, c.removeIP)
    && SwitchGiven(v, Ascii("dashboard_enabled"), true, c.dashboard)
    && SwitchGiven(v, Ascii("dashboard_allow_all"), true, c.dashboardAllowAll)
  }

  ghost predicate NumbersGiven(v: Values, c: Settings) {
    && NumberGiven(v, Ascii("prefix"), 21, c.prefix)
    && NumberGiven(v, Ascii("ttl"), 120, c.ttl)
    && NumberGiven(v, Ascii("health_port"), 7777, c.healthPort)
    && NumberGiven(v, Ascii("log_lines"), 40, c.logLines)
    && NumberGiven(v, Ascii("dashboard_port"), 8088, c.dashboardPort)
  }

  ghost predicate TextsGiven(v: Values, c: Settings) {
    && TextGiven(v, Ascii("axiom_interface"), Ascii("br-lan"), c.axiomInterface)
    && TextGiven(v, Ascii("ipaddr"), Ascii("198.18.0.1"), c.ip)
    && TextGiven(v, Ascii("serial"), Ascii("AF002A4"), c.serial)
    && TextGiven(v, Ascii("version"), Ascii("V142.242.530"), c.version)
    && TextGiven(v, Ascii("hostname"), Ascii("yachtsense-main"), c.hostname)
    && TextGiven(v, Ascii("instance"), Ascii("yachtsense-main Settings"), c.inst)
    && TextGiven(v, Ascii("log_level"), Ascii("info"), c.logLevel)
    && TextGiven(v, Ascii("dashboard_allowed_cidrs"), Ascii("192.168.4.0/24"), c.dashboardCIDRs)
    && c.remoteInterfaces == if Ascii("remote_interface") in v then v[Ascii("remote_interface")] else [Ascii("br-lan")]
  }

  lemma FlagIff(v: Values, key: bytes, default: bool, on: bool)
    requires key in v ==> v[key] != []
    ensures Flag(v, key, default) == Some(on) <==> SwitchGiven(v, key, default, on)
  {
    hide AsBool, Switch;
    if key in v {
      AsBoolIff(v[key][|v[key]| - 1], on);
    }
  }

  lemma CountIff(v: Values, key: bytes, default: int, n: int)
    requires key in v ==> v[key] != []
    ensures Count(v, key, default) == Some(n) <==> NumberGiven(v, key, default, n)
  {
    hide Atoi, Numeral;
    if key in v {
      AtoiIff(v[key][|v[key]| - 1], n);
    }
  }

  lemma TextIff(v: Values, key: bytes, default: bytes, s: bytes)
    requires key in v ==> v[key] != []
    ensures Text(v, key, default) == s <==> TextGiven(v, key, default, s)
  {}

  ghost predicate NoneEmpty(v: Values) {
    forall k :: k in v ==> v[k] != []
  }

  lemma FlagsIff(v: Values, c: Settings)
    requires NoneEmpty(v)
    ensures SwitchesGiven(v, c) <==> FlagsOf(v) == Some(WithSwitches(DEFAULTS, c))
  {
    hide Flag, SwitchGiven;
    FlagIff(v, ENABLED, false, c.enabled);
    FlagIff(v, MDNS, true, c.mdns);
    FlagIff(v, WEB, true, c.http);
    FlagIff(v, MANAGE_IP, false, c.manageIP);
    FlagIff(v, REMOVE_IP, false, c.removeIP);
    FlagIff(v, DASHBOARD, true, c.dashboard);
    FlagIff(v, ALLOW_ALL, true, c.dashboardAllowAll);
  }

  lemma CountsEach(v: Values, d: Settings, c: Settings)
    ensures CountsOf(v, d) == Some(WithNumbers(d, c)) <==>
            && Count(v, PREFIX, d.prefix) == Some(c.prefix) && Count(v, TTL, d.ttl) == Some(c.ttl)
            && Count(v, HEALTH_PORT, d.healthPort) == Some(c.healthPort)
            && Count(v, LOG_LINES, d.logLines) == Some(c.logLines)
            && Count(v, DASHBOARD_PORT, d.dashboardPort) == Some(c.dashboardPort)
  {
    hide Count, PREFIX, TTL, HEALTH_PORT, LOG_LINES, DASHBOARD_PORT;
  }

  lemma CountsIff(v: Values, d: Settings, c: Settings)
    requires NoneEmpty(v)
    requires d.prefix == 21 && d.ttl == 120 && d.healthPort == 7777 && d.logLines == 40 && d.dashboardPort == 8088
    ensures NumbersGiven(v, c) <==> CountsOf(v, d) == Some(WithNumbers(d, c))
  {
    hide CountsOf, Count, NumberGiven, PREFIX, TTL, HEALTH_PORT, LOG_LINES, DASHBOARD_PORT;
    CountsEach(v, d, c);
    NumberKeys();
    CountIff(v, PREFIX, 21, c.prefix);
    CountIff(v, TTL, 120, c.ttl);
    CountIff(v, HEALTH_PORT, 7777, c.healthPort);
    CountIff(v, LOG_LINES, 40, c.logLines);
    CountIff(v, DASHBOARD_PORT, 8088, c.dashboardPort);
  }

  ghost function WithTexts(d: Settings, c: Settings): Settings {
    d.(axiomInterface := c.axiomInterface, ip := c.ip, serial := c.serial, version := c.version,
       hostname := c.hostname, inst := c.inst, logLevel := c.logLevel, dashboardCIDRs := c.dashboardCIDRs,
       remoteInterfaces := c.remoteInterfaces, raynetMode := c.raynetMode, appMode := c.appMode,
       discoveryMode := c.discoveryMode)
  }

  lemma DefaultsAre()
    ensures DEFAULTS.raynetMode == Ascii("auto") && DEFAULTS.appMode == Ascii("auto")
    ensures DEFAULTS.discoveryMode == Ascii("auto") && DEFAULTS.axiomInterface == Ascii("br-lan")
    ensures DEFAULTS.ip == Ascii("198.18.0.1") && DEFAULTS.serial == Ascii("AF002A4")
    ensures DEFAULTS.version == Ascii("V142.242.530") && DEFAULTS.hostname == Ascii("yachtsense-main")
    ensures DEFAULTS.inst == Ascii("yachtsense-main Settings") && DEFAULTS.logLevel == Ascii("info")
    ensures DEFAULTS.dashboardCIDRs == Ascii("192.168.4.0/24") && DEFAULTS.remoteInterfaces == [Ascii("br-lan")]
    ensures DEFAULTS.prefix == 21 && DEFAULTS.ttl == 120 && DEFAULTS.healthPort == 7777 && DEFAULTS.logLines == 40
        && DEFAULTS.dashboardPort == 8088
  {}

  /** The three steps behind the numbers. */
  ghost function Behind(v: Values, d: Settings): Settings {
    var c := TextsOf(v, d);
    Legacy(v, if REMOTE in v then c.(remoteInterfaces := v[REMOTE]) else c)
  }

  ghost predicate TextsSame(c: Settings, d: Settings) {
    && c.axiomInterface == d.axiomInterface && c.ip == d.ip && c.serial == d.serial && c.version == d.version
    && c.hostname == d.hostname && c.inst == d.inst && c.logLevel == d.logLevel
    && c.dashboardCIDRs == d.dashboardCIDRs && c.remoteInterfaces == d.remoteInterfaces
  }

  lemma BehindIs(v: Values, d: Settings)
    ensures var c, t := Behind(v, d), TextsOf(v, d);
      && c == WithTexts(d, c)
      && c.axiomInterface == t.axiomInterface && c.ip == t.ip && c.serial == t.serial && c.version == t.version
      && c.hostname == t.hostname && c.inst == t.inst && c.logLevel == t.logLevel
      && c.dashboardCIDRs == t.dashboardCIDRs
      && c.remoteInterfaces == if REMOTE in v then v[REMOTE] else d.remoteInterfaces
  {
    hide Text, OldMode, OldDiscovery, REMOTE;
  }

  lemma TextsAre(v: Values, d: Settings, c: Settings)
    requires NoneEmpty(v) && TextsSame(d, DEFAULTS)
    ensures TextsGiven(v, c) <==> TextsSame(Behind(v, d), c)
  {
    hide DEFAULTS, Text, TextGiven, AXIOM, IPADDR, SERIAL, VERSION, HOSTNAME, INSTANCE, LOG_LEVEL, CIDRS, REMOTE,
         Behind, RAYNET_MODE, APP_MODE, DISCOVERY;
    DefaultsAre();
    KeyTexts();
    ModeKeys();
    BehindIs(v, d);
    TextIff(v, AXIOM, d.axiomInterface, c.axiomInterface);
    TextIff(v, IPADDR, d.ip, c.ip);
    TextIff(v, SERIAL, d.serial, c.serial);
    TextIff(v, VERSION, d.version, c.version);
    TextIff(v, HOSTNAME, d.hostname, c.hostname);
    TextIff(v, INSTANCE, d.inst, c.inst);
    TextIff(v, LOG_LEVEL, d.logLevel, c.logLevel);
    TextIff(v, CIDRS, d.dashboardCIDRs, c.dashboardCIDRs);
  }

  lemma NumberKeys()
    ensures PREFIX == Ascii("prefix") && TTL == Ascii("ttl") && HEALTH_PORT == Ascii("health_port")
    ensures LOG_LINES == Ascii("log_lines") && DASHBOARD_PORT == Ascii("dashboard_port")
  {}

  lemma ModeKeys()
    ensures RAYNET_MODE == Ascii("raynet_mode") && APP_MODE == Ascii("app_mode")
    ensures DISCOVERY == Ascii("discovery_mode") && RELAY_MODE == Ascii("relay_mode")
    ensures REMOTE == Ascii("remote_interface")
  {}

  lemma KeyTexts()
    ensures AXIOM == Ascii("axiom_interface") && IPADDR == Ascii("ipaddr") && SERIAL == Ascii("serial")
    ensures VERSION == Ascii("version") && HOSTNAME == Ascii("hostname") && INSTANCE == Ascii("instance")
    ensures LOG_LEVEL == Ascii("log_level") && CIDRS == Ascii("dashboard_allowed_cidrs")
  {}

  lemma ModesAre(v: Values, d: Settings, c: Settings)
    requires NoneEmpty(v)
    requires d.raynetMode == Ascii("auto") && d.appMode == Ascii("auto") && d.discoveryMode == Ascii("auto")
    ensures ModesGiven(v, c) <==> ModesSame(Behind(v, d), c)
  {
    hide OldMode, OldDiscovery, ModesGiven, RAYNET_MODE, APP_MODE, DISCOVERY, REMOTE;
    ModeIs(v, RAYNET_MODE, d.raynetMode, c.raynetMode);
    ModeIs(v, APP_MODE, d.appMode, c.appMode);
    DiscoveryIs(v, d.discoveryMode, c.discoveryMode);
    ModesSaid(v, c);
  }

  lemma ModesSaid(v: Values, c: Settings)
    ensures var unsaid := if v == map[] then Ascii("auto") else Ascii("manual");
      ModesGiven(v, c) <==> TextGiven(v, RAYNET_MODE, unsaid, c.raynetMode) && TextGiven(v, APP_MODE, unsaid, c.appMode)
                            && DiscoverySaid(v, c.discoveryMode)
  {
    hide TextGiven, RAYNET_MODE, APP_MODE, Given;
    ModeKeys();
  }

  lemma ModeIs(v: Values, key: bytes, default: bytes, mode: bytes)
    requires NoneEmpty(v) && default == Ascii("auto")
    ensures OldMode(v, key, Text(v, key, default)) == mode <==>
            TextGiven(v, key, if v == map[] then Ascii("auto") else Ascii("manual"), mode)
  {}

  lemma DiscoveryIs(v: Values, default: bytes, mode: bytes)
    requires NoneEmpty(v) && default == Ascii("auto")
    ensures OldDiscovery(v, Text(v, DISCOVERY, default)) == mode <==> DiscoverySaid(v, mode)
  {
    hide Get, Given, DISCOVERY, RELAY_MODE;
    ModeKeys();
    GivenIff(v, RELAY_MODE, Ascii("force"));
    GivenIff(v, RELAY_MODE, Ascii("disabled"));
    GivenIff(v, DISCOVERY, mode);
  }

  lemma GivenIff(v: Values, key: bytes, s: bytes)
    requires NoneEmpty(v)
    ensures Given(v, key, s) <==> Get(v, key) == Some(s)
    ensures key in v <==> Get(v, key).Some?
  {}

  ghost function WithSwitches(d: Settings, c: Settings): Settings {
    d.(enabled := c.enabled, mdns := c.mdns, http := c.http, manageIP := c.manageIP, removeIP := c.removeIP,
       dashboard := c.dashboard, dashboardAllowAll := c.dashboardAllowAll)
  }

  ghost function WithNumbers(d: Settings, c: Settings): Settings {
    d.(prefix := c.prefix, ttl := c.ttl, healthPort := c.healthPort, logLines := c.logLines,
       dashboardPort := c.dashboardPort)
  }

  ghost predicate ModesSame(b: Settings, c: Settings) {
    b.raynetMode == c.raynetMode && b.appMode == c.appMode && b.discoveryMode == c.discoveryMode
  }

  /** Switches, numbers, texts and modes are all there is to a record. */
  lemma SameRecord(flags: Settings, counts: Settings, b: Settings, c: Settings)
    requires flags == WithSwitches(DEFAULTS, flags) && counts == WithNumbers(flags, counts) && b == WithTexts(counts, b)
    ensures b == c <==>
            && flags == WithSwitches(DEFAULTS, c) && counts == WithNumbers(flags, c)
            && TextsSame(b, c) && ModesSame(b, c)
  {
    hide DEFAULTS;
  }

  /** A record is read from values exactly when each option says it or, left out, stands for it, and it is valid. */
  lemma FromValuesIff(v: Values, c: Settings)
    requires NoneEmpty(v)
    ensures FromValues(v) == Some(c) <==>
            SwitchesGiven(v, c) && NumbersGiven(v, c) && TextsGiven(v, c) && ModesGiven(v, c) && Acceptable(c)
  {
    ValidIff(c);
    FlagsIff(v, c);
    FromValuesBehind(v);
    hide FromValues, FlagsOf, CountsOf, DEFAULTS, SwitchesGiven, NumbersGiven, TextsGiven, ModesGiven, Acceptable,
         Valid, Behind, WithSwitches, WithNumbers, WithTexts, TextsSame, ModesSame;
    var flags := FlagsOf(v);
    if flags.Some? && CountsOf(v, flags.value).Some? {
      var counts := CountsOf(v, flags.value).value;
      StepsChange(v, flags.value, counts);
      CountsIff(v, flags.value, c);
      TextsAre(v, counts, c);
      ModesAre(v, counts, c);
      SameRecord(flags.value, counts, Behind(v, counts), c);
    } else if flags.Some? {
      StepsDefault(v, flags.value);
      CountsIff(v, flags.value, c);
    }
  }

  lemma StepsDefault(v: Values, flags: Settings)
    requires FlagsOf(v) == Some(flags)
    ensures flags.prefix == 21 && flags.ttl == 120 && flags.healthPort == 7777 && flags.logLines == 40
        && flags.dashboardPort == 8088
  {
    hide FlagsOf, DEFAULTS;
    FlagsChangeSwitches(v);
    DefaultsAre();
  }

  lemma StepsChange(v: Values, flags: Settings, counts: Settings)
    requires FlagsOf(v) == Some(flags) && CountsOf(v, flags) == Some(counts)
    ensures flags.prefix == 21 && flags.ttl == 120 && flags.healthPort == 7777 && flags.logLines == 40
        && flags.dashboardPort == 8088
    ensures flags == WithSwitches(DEFAULTS, flags) && counts == WithNumbers(flags, counts)
    ensures TextsSame(counts, DEFAULTS) && ModesSame(counts, DEFAULTS)
    ensures Behind(v, counts) == WithTexts(counts, Behind(v, counts))
    ensures counts.raynetMode == Ascii("auto") && counts.appMode == Ascii("auto")
    ensures counts.discoveryMode == Ascii("auto")
  {
    hide FlagsOf, CountsOf, DEFAULTS, Behind;
    FlagsChangeSwitches(v);
    CountsChangeNumbers(v, flags);
    DefaultsAre();
    BehindIs(v, counts);
  }

  lemma FromValuesBehind(v: Values)
    ensures var flags := FlagsOf(v);
      if flags.None? || CountsOf(v, flags.value).None? then FromValues(v).None?
      else var b := Behind(v, CountsOf(v, flags.value).value); FromValues(v) == if Valid(b) then Some(b) else None
  {
    hide FlagsOf, CountsOf, TextsOf, Legacy, Valid, REMOTE;
  }

  /** Each of the three steps sets its own fields only. */
  lemma FlagsChangeSwitches(v: Values)
    requires FlagsOf(v).Some?
    ensures FlagsOf(v).value == WithSwitches(DEFAULTS, FlagsOf(v).value)
  {
    hide Flag, DEFAULTS;
  }

  lemma CountsChangeNumbers(v: Values, d: Settings)
    requires CountsOf(v, d).Some?
    ensures CountsOf(v, d).value == WithNumbers(d, CountsOf(v, d).value)
  {
    hide Count;
  }

  /**
   * A settings file of whatever lines says a record exactly when no line is bad and the values collected in the
   * emulator's section give that record and it is acceptable.
   */
  lemma FileSaysRecordIff(ls: seq<Line>, data: bytes, v: Values, c: Settings)
    requires forall i :: 0 <= i < |ls| ==> LineOk(ls[i])
    requires data == FileText(ls) || (data != [] && data[|data| - 1] != 10 && data + [10] == FileText(ls))
    requires forall k :: k in v <==> Collected(ls, |ls|, k) != []
    requires forall k :: k in v ==> v[k] == Collected(ls, |ls|, k)
    ensures SettingsFrom(data) == Some(c) <==>
            && (forall i :: 0 <= i < |ls| ==> !Bad(ls, i))
            && SwitchesGiven(v, c) && NumbersGiven(v, c) && TextsGiven(v, c) && ModesGiven(v, c) && Acceptable(c)
  {
    hide Collected, FileText, Bad, SwitchesGiven, NumbersGiven, TextsGiven, ModesGiven, Acceptable, ParseFrom,
         FromValues;
    FileSays(ls, data);
    FromValuesIff(v, c);
    if ParseFrom(data, NO_SECTION).Some? {
      assert ParseFrom(data, NO_SECTION).value.values == v;
    }
  }
}
