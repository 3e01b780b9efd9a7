/** The default record is valid, and the file a save makes of it reads back. */
module DefaultSettings {
  import opened Bytes
  import opened UciWords
  import opened UciConfig
  import opened Settings
  import DnsNames

  // ----- validity ---------------------------------------------------------------------------

  lemma {:induction false} SerialKept(s: bytes)
    requires forall i :: 0 <= i < |s| ==> Alphanumeric(s[i])
    ensures SerialCharacters(s) == s
  {
    if s != [] {
      SerialKept(s[1..]);
    }
  }

  lemma {:induction false} OneField(s: bytes, word: bytes)
    requires forall i :: 0 <= i < |s| ==> !Separator(s[i])
    ensures Fields(s, word) == if word + s == [] then [] else [word + s]
  {
    if s == [] {
      assert word + s == word;
    } else {
      OneField(s[1..], word + [s[0]]);
      assert word + [s[0]] + s[1..] == word + s;
    }
  }

  /** Four octets of a dotted quad, as texts. */
  lemma FourOctets(a: bytes, b: bytes, c: bytes, d: bytes)
    requires Octet(a) && Octet(b) && Octet(c) && Octet(d)
    ensures DnsNames.Split(a + [DOT] + (b + [DOT] + (c + [DOT] + d))) == [a, b, c, d]
    ensures DottedQuad(a + [DOT] + (b + [DOT] + (c + [DOT] + d)))
  {
    hide Number;
    DnsNames.SplitAfterPiece(a, b + [DOT] + (c + [DOT] + d));
    DnsNames.SplitAfterPiece(b, c + [DOT] + d);
    DnsNames.SplitAfterPiece(c, d);
    DnsNames.SplitPiece(d);
    assert [a] + ([b] + ([c] + [d])) == [a, b, c, d];
  }

  lemma OneDigit(x: byte)
    requires Digit(x)
    ensures Octet([x]) && Number([x]) == DigitValue(x)
  {}

  lemma TwoDigits(x: byte, y: byte)
    requires Digit(x) && Digit(y) && x != 48
    ensures Octet([x, y]) && Number([x, y]) == 10 * DigitValue(x) + DigitValue(y)
  {
    OneDigit(x);
    assert [x, y][..1] == [x];
  }

  lemma ThreeDigits(x: byte, y: byte, z: byte)
    requires Digit(x) && Digit(y) && Digit(z) && x == 49
    ensures Octet([x, y, z]) && Number([x, y, z]) == 100 + 10 * DigitValue(y) + DigitValue(z)
  {
    TwoDigits(x, y);
    assert [x, y, z][..2] == [x, y];
  }

  const ROUTER: bytes := [49, 57, 56]
  const LAN_FIRST: bytes := [49, 57, 50]
  const LAN_SECOND: bytes := [49, 54, 56]

  lemma AddressTexts()
    ensures Ascii("198.18.0.1") == ROUTER + [DOT] + ([49, 56] + [DOT] + ([48] + [DOT] + [49]))
    ensures Ascii("192.168.4.0") == LAN_FIRST + [DOT] + (LAN_SECOND + [DOT] + ([52] + [DOT] + [48]))
    ensures Ascii("192.168.4.0/24") == Ascii("192.168.4.0") + [47, 50, 52]
  {}

  lemma RouterQuad(s: bytes)
    requires s == ROUTER + [DOT] + ([49, 56] + [DOT] + ([48] + [DOT] + [49]))
    ensures DottedQuad(s) && DnsNames.Split(s)[0] == ROUTER && Number(ROUTER) == 198
  {
    hide Number, DottedQuad, Octet;
    ThreeDigits(49, 57, 56);
    TwoDigits(49, 56);
    OneDigit(48);
    OneDigit(49);
    FourOctets(ROUTER, [49, 56], [48], [49]);
  }

  lemma OtherAddress()
    ensures DEFAULTS.ip != Ascii("0.0.0.0") && DEFAULTS.ip != Ascii("255.255.255.255")
  {
    assert DEFAULTS.ip[0] == 49 && Ascii("0.0.0.0")[0] == 48 && Ascii("255.255.255.255")[0] == 50;
  }

  lemma DefaultAddress()
    ensures UnicastV4(DEFAULTS.ip)
  {
    hide Number, DottedQuad, ROUTER, DnsNames.Split;
    AddressTexts();
    RouterQuad(DEFAULTS.ip);
    OtherAddress();
  }

  lemma CidrAt(s: bytes, i: nat)
    requires i < |s| && s[i] == 47 && DottedQuad(s[..i]) && PrefixLength(s[i + 1..])
    ensures Cidr(s)
  {
    hide DottedQuad, PrefixLength;
  }

  lemma LanQuad(s: bytes)
    requires s == LAN_FIRST + [DOT] + (LAN_SECOND + [DOT] + ([52] + [DOT] + [48]))
    ensures DottedQuad(s) && |s| == 11
  {
    hide Number, DottedQuad, Octet;
    ThreeDigits(49, 57, 50);
    ThreeDigits(49, 54, 56);
    OneDigit(52);
    OneDigit(48);
    FourOctets(LAN_FIRST, LAN_SECOND, [52], [48]);
  }

  lemma LanCidr(quad: bytes)
    requires DottedQuad(quad)
    ensures Cidr(quad + [47, 50, 52])
  {
    hide Number, DottedQuad;
    var s := quad + [47, 50, 52];
    TwoDigits(50, 52);
    assert s[..|quad|] == quad && s[|quad| + 1..] == [50, 52];
    CidrAt(s, |quad|);
  }

  lemma DefaultNetworks()
    ensures Fields(DEFAULTS.dashboardCIDRs, []) == [DEFAULTS.dashboardCIDRs] && Cidr(DEFAULTS.dashboardCIDRs)
  {
    hide DottedQuad, Cidr, LAN_FIRST, LAN_SECOND;
    AddressTexts();
    LanQuad(Ascii("192.168.4.0"));
    LanCidr(Ascii("192.168.4.0"));
    OneField(DEFAULTS.dashboardCIDRs, []);
    assert [] + DEFAULTS.dashboardCIDRs == DEFAULTS.dashboardCIDRs;
  }

  lemma DefaultSerial()
    ensures Printable(DEFAULTS.serial, 32) && CleanSerial(DEFAULTS.serial) == DEFAULTS.serial
  {
    SerialKept(DEFAULTS.serial);
  }

  lemma DefaultLabels()
    ensures HostLabel(DEFAULTS.hostname) && SafeInterface(Ascii("br-lan"))
  {
    assert Ascii("br-lan")[0] == 98 && Ascii("lo")[0] == 108;
  }

  lemma DefaultTexts()
    ensures Printable(DEFAULTS.version, 64) && Printable(DEFAULTS.inst, 63) && DOT !in DEFAULTS.inst
  {}

  lemma DefaultsAreValid()
    ensures Valid(DEFAULTS)
  {
    hide UnicastV4, Fields, Cidr, Printable, CleanSerial, HostLabel, SafeInterface;
    DefaultAddress();
    DefaultNetworks();
    DefaultTexts();
    DefaultSerial();
    DefaultLabels();
    assert |DEFAULTS.dashboardCIDRs| == 14;
    assert Ascii("auto") != Ascii("manual");
  }

  // ----- the file ---------------------------------------------------------------------------

  const MAX_TEXT: nat := 64

  lemma NumbersShort()
    ensures |Itoa(21)| <= 5 && |Itoa(120)| <= 5 && |Itoa(7777)| <= 5 && |Itoa(40)| <= 5 && |Itoa(8088)| <= 5
  {
    assert Power(5) == 100_000;
    DigitsOf(21, 5);
    DigitsOf(120, 5);
    DigitsOf(7777, 5);
    DigitsOf(40, 5);
    DigitsOf(8088, 5);
  }

  predicate Short(t: bytes) {
    |t| <= MAX_TEXT && NEWLINE !in t
  }

  lemma DigitsOneLine(n: nat)
    ensures NEWLINE !in Itoa(n)
  {
    hide Itoa;
    assert AllDigits(Itoa(n));
  }

  lemma NumberTexts()
    ensures Short(Itoa(21)) && Short(Itoa(120)) && Short(Itoa(7777)) && Short(Itoa(40)) && Short(Itoa(8088))
  {
    hide Itoa;
    NumbersShort();
    DigitsOneLine(21);
    DigitsOneLine(120);
    DigitsOneLine(7777);
    DigitsOneLine(40);
    DigitsOneLine(8088);
  }

  lemma PlainTexts()
    ensures Short(DEFAULTS.raynetMode) && Short(DEFAULTS.appMode) && Short(DEFAULTS.axiomInterface)
    ensures Short(DEFAULTS.discoveryMode) && Short(DEFAULTS.ip) && Short(DEFAULTS.serial) && Short(DEFAULTS.version)
    ensures Short(DEFAULTS.hostname) && Short(DEFAULTS.inst) && Short(DEFAULTS.logLevel)
        && Short(DEFAULTS.dashboardCIDRs)
    ensures Short(BoolText(true)) && Short(BoolText(false)) && Short(Ascii("br-lan"))
  {}

  lemma TextsShort(i: nat)
    requires Valid(DEFAULTS) && i < |Texts(DEFAULTS)|
    ensures Short(Texts(DEFAULTS)[i])
  {
    hide Valid, Itoa, Short, BoolText;
    NumberTexts();
    PlainTexts();
  }

  lemma KeysShort(i: nat)
    requires i < |KEYS|
    ensures |KEYS[i]| <= 32 && |REMOTE| <= 32
  {}

  lemma ShortLine(e: Entry)
    requires Short(e.value) && PlainWord(e.key) && |e.key| <= 32
    ensures Fits(e) && |EntryLine(e)| <= 300
  {
    hide EntryLine, PlainWord;
    EntryLineLength(e);
    EscapedLength(e.value);
    assert |LIST| <= 6 && |OPTION| <= 6;
  }

  lemma DefaultEntries(i: nat)
    requires Valid(DEFAULTS) && i < |Entries(DEFAULTS)|
    ensures |Entries(DEFAULTS)| == 24 && Fits(Entries(DEFAULTS)[i]) && |EntryLine(Entries(DEFAULTS)[i])| <= 300
  {
    hide Valid, KEYS, REMOTE, Texts, PlainWord, EntryLine, Fits, Short;
    KeysCount();
    KeysArePlain(DEFAULTS);
    assert Distinct([Ascii("br-lan")]) == [Ascii("br-lan")] by {
      OneIsDistinct(Ascii("br-lan"));
    }
    if i < 23 {
      TextsShort(i);
      KeysShort(i);
    } else {
      PlainTexts();
      KeysShort(0);
    }
    ShortLine(Entries(DEFAULTS)[i]);
  }

  lemma OneIsDistinct(n: bytes)
    ensures Distinct([n]) == [n] && PairwiseDistinct([n])
  {
    assert [n][..0] == [];
  }

  lemma {:induction false} RenderedAtMost(es: seq<Entry>)
    requires forall i :: 0 <= i < |es| ==> |EntryLine(es[i])| <= 300
    ensures |Rendered(es)| <= 301 * |es|
  {
    hide EntryLine;
    if es != [] {
      RenderedAtMost(es[1..]);
    }
  }

  lemma HeadingShort()
    ensures |HEADING| <= 100
  {
    EscapedLength(MAIN);
  }

  /** Saving the defaults gives a file that reads back as the defaults, well within the read limit. */
  lemma DefaultsRoundTrip()
    ensures Valid(DEFAULTS) && SettingsFrom(FileOf(DEFAULTS)) == Some(DEFAULTS)
    ensures ReadSettings(FileOf(DEFAULTS)) == Some(DEFAULTS)
  {
    hide Valid, Entries, Fits, EntryLine, SettingsFrom, HEADING, PairwiseDistinct;
    DefaultsAreValid();
    SettingsRoundTrip(DEFAULTS);
    forall i | 0 <= i < |Entries(DEFAULTS)|
      ensures Fits(Entries(DEFAULTS)[i]) && |EntryLine(Entries(DEFAULTS)[i])| <= 300
    {
      DefaultEntries(i);
    }
    OneIsDistinct(Ascii("br-lan"));
    RenderedAtMost(Entries(DEFAULTS));
    assert |Entries(DEFAULTS)| <= 24 by {
      if |Entries(DEFAULTS)| > 0 {
        DefaultEntries(0);
      }
    }
    HeadingShort();
  }
}
