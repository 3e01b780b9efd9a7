/** Octets, big-endian integers and the byte-wise text functions shared by every component. */
module Bytes {
  type byte = x: int | 0 <= x < 0x100
  type u16 = x: int | 0 <= x < 0x1_0000
  type u32 = x: int | 0 <= x < 0x1_0000_0000
  type bytes = seq<byte>

  datatype Option<+T> = None | Some(value: T)

  const NEWLINE: byte := 10
  const SPACE: byte := 32
  const DOT: byte := 46

  /** The octets of an ASCII literal. */
  function Ascii(s: string): (b: bytes)
    requires forall i :: 0 <= i < |s| ==> s[i] as int < 0x100
    ensures |b| == |s|
    ensures forall i :: 0 <= i < |s| ==> b[i] == s[i] as int
  {
    seq(|s|, i requires 0 <= i < |s| => s[i] as int)
  }

  /** The 16-bit number with the given high and low octets. */
  function Pair(hi: byte, lo: byte): u16 {
    hi as int * 0x100 + lo as int
  }

  /** The number of whole 256s: a choice with one answer, which keeps later proofs free of division. */
  function HighByte(v: u16): (hi: byte)
    ensures 0 <= v - hi as int * 0x100 < 0x100
  {
    assert 0 <= v - (v / 0x100) as int * 0x100 < 0x100;
    var hi: byte :| 0 <= v - hi as int * 0x100 < 0x100;
    hi
  }

  function HighHalf(v: u32): (hi: u16)
    ensures 0 <= v - hi as int * 0x1_0000 < 0x1_0000
  {
    assert 0 <= v - (v / 0x1_0000) as int * 0x1_0000 < 0x1_0000;
    var hi: u16 :| 0 <= v - hi as int * 0x1_0000 < 0x1_0000;
    hi
  }

  function BE16(v: u16): (b: bytes)
    ensures |b| == 2 && Pair(b[0], b[1]) == v
  {
    [HighByte(v), v - HighByte(v) as int * 0x100]
  }

  function BE32(v: u32): (b: bytes)
    ensures |b| == 4 && Pair(b[0], b[1]) as int * 0x1_0000 + Pair(b[2], b[3]) as int == v
  {
    BE16(HighHalf(v)) + BE16(v - HighHalf(v) as int * 0x1_0000)
  }

  function U16At(p: bytes, i: nat): u16
    requires i + 2 <= |p|
  {
    Pair(p[i], p[i + 1])
  }

  function U32At(p: bytes, i: nat): u32
    requires i + 4 <= |p|
  {
    U16At(p, i) as int * 0x1_0000 + U16At(p, i + 2) as int
  }

  /** Lower-casing as one fixed byte map: A..Z only. */
  function LowerByte(b: byte): byte {
    if 65 <= b <= 90 then b + 32 else b
  }

  function Lower(s: bytes): (r: bytes)
    ensures |r| == |s|
    ensures forall i :: 0 <= i < |s| ==> r[i] == LowerByte(s[i])
  {
    seq(|s|, i requires 0 <= i < |s| => LowerByte(s[i]))
  }

  predicate EndsWithDot(s: bytes) {
    s != [] && s[|s| - 1] == DOT
  }

  /** Removes one trailing dot, and only one. */
  function TrimDot(s: bytes): bytes {
    if EndsWithDot(s) then s[..|s| - 1] else s
  }

  function Normalize(s: bytes): bytes {
    Lower(TrimDot(s))
  }

  predicate HasSuffix(s: bytes, t: bytes) {
    |t| <= |s| && s[|s| - |t|..] == t
  }

  /** Exactly the letters A to Z change, each to the small letter. */
  lemma LowerIsLetters(b: byte, k: nat)
    requires k < 26
    ensures b == ('A' as int) + k ==> LowerByte(b) == ('a' as int) + k
    ensures b < ('A' as int) || b > ('Z' as int) ==> LowerByte(b) == b
  {}

  lemma LowerConcat(a: bytes, b: bytes)
    ensures Lower(a + b) == Lower(a) + Lower(b)
  {}

  lemma LowerTwice(a: bytes)
    ensures Lower(Lower(a)) == Lower(a)
  {}

  /** Normalisation is idempotent exactly where no second trailing dot is waiting. */
  lemma NormalizeTwice(s: bytes)
    ensures Normalize(Normalize(s)) == Normalize(s) <==> !EndsWithDot(TrimDot(s))
  {
    LowerTwice(TrimDot(s));
    assert EndsWithDot(Normalize(s)) <==> EndsWithDot(TrimDot(s));
    if EndsWithDot(TrimDot(s)) {
      assert |Normalize(Normalize(s))| == |Normalize(s)| - 1;
    }
  }

  /** Re-bracketing of concatenations, kept out of the proofs that need it. */
  lemma Rebracket(a: bytes, b: bytes, c: bytes, d: bytes)
    ensures a + (b + c) + d == a + b + (c + d)
    ensures a + (b + c) + d == (a + b) + c + d
  {}
}
