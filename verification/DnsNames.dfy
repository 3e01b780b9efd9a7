/**
 * Domain names on the wire (sections 3.1 and 4.1.4 of RFC 1035): the decoder with its
 * compression pointers and depth limit, the encoder, and what they mean.
 */
module DnsNames {
  import opened Bytes

  /** What the decoder returns: display name, offset after the name in place, uncompressed wire form. */
  datatype DecodedName = DecodedName(name: bytes, next: nat, wire: bytes)

  const MAX_DEPTH: nat := 12
  const MAX_WIRE: nat := 255

  // ----- reference meaning ------------------------------------------------------------------

  predicate LabelOk(l: bytes) {
    1 <= |l| <= 63
  }

  predicate LabelsOk(ls: seq<bytes>) {
    forall i :: 0 <= i < |ls| ==> LabelOk(ls[i])
  }

  /** The wire form of a list of labels, without the terminating root octet. */
  function WireBody(ls: seq<bytes>): bytes
    requires LabelsOk(ls)
  {
    if ls == [] then [] else [|ls[0]|] + ls[0] + WireBody(ls[1..])
  }

  function WireOf(ls: seq<bytes>): bytes
    requires LabelsOk(ls)
  {
    WireBody(ls) + [0]
  }

  function Join(ls: seq<bytes>): bytes {
    if ls == [] then []
    else if |ls| == 1 then ls[0]
    else ls[0] + [DOT] + Join(ls[1..])
  }

  /** Where a compression pointer at offset `at` leads. */
  function PointerTarget(p: bytes, at: nat): nat
    requires at + 2 <= |p| && p[at] >= 192
  {
    Pair(p[at] - 192, p[at + 1])
  }

  /**
   * The labels a name at `off` denotes when at most `hops` further pointers may be followed.
   * Following a pointer spends a hop, so the definition is well founded on every octet string.
   */
  function LabelsAt(p: bytes, off: nat, hops: nat): (r: Option<seq<bytes>>)
    ensures r.Some? ==> LabelsOk(r.value)
    decreases hops, |p| - off
  {
    if off >= |p| then None
    else if p[off] == 0 then Some([])
    else if p[off] >= 192 then
      if off + 1 < |p| && PointerTarget(p, off) < off && hops > 0 then LabelsAt(p, PointerTarget(p, off), hops - 1)
      else None
    else if p[off] > 63 || off + 1 + p[off] > |p| then None
    else
      var rest := LabelsAt(p, off + 1 + p[off], hops);
      if rest.None? then None else Some([p[off + 1..off + 1 + p[off]]] + rest.value)
  }

  /** The offset just after the name in place: after its root octet or its first pointer. */
  function NextAt(p: bytes, off: nat): nat
    decreases |p| - off
  {
    if off >= |p| then off
    else if p[off] == 0 then off + 1
    else if p[off] >= 192 then off + 2
    else NextAt(p, off + 1 + p[off])
  }

  /** The display name: each pointer hop normalises the part it contributes. */
  function NameAt(p: bytes, off: nat, before: seq<bytes>, hops: nat): bytes
    decreases hops, |p| - off
  {
    if off >= |p| || p[off] == 0 then Normalize(Join(before))
    else if p[off] >= 192 then
      if off + 1 < |p| && PointerTarget(p, off) < off && hops > 0 then
        var tail := NameAt(p, PointerTarget(p, off), [], hops - 1);
        Normalize(Join(if tail == [] then before else before + [tail]))
      else []
    else if off + 1 + p[off] > |p| then []
    else NameAt(p, off + 1 + p[off], before + [p[off + 1..off + 1 + p[off]]], hops)
  }

  /** Whatever the packet holds, a decoded name is well formed and ends inside the packet. */
  function Decode(p: bytes, start: int, depth: nat): (r: Option<DecodedName>)
    ensures r.Some? ==> NameWire(r.value.wire) && 0 <= start < r.value.next <= |p|
  {
    if start < 0 || start >= |p| || depth > MAX_DEPTH then None
    else
      var ls := LabelsAt(p, start, MAX_DEPTH - depth);
      if ls.None? || |WireOf(ls.value)| > MAX_WIRE then None
      else
        WireOfIsWellFormed(ls.value);
        NextIsInside(p, start, MAX_DEPTH - depth);
        Some(DecodedName(NameAt(p, start, [], MAX_DEPTH - depth), NextAt(p, start), WireOf(ls.value)))
  }

  // ----- the decoder ------------------------------------------------------------------------

  /** The source's loop: grow wire and labels, recurse through a pointer, check lengths as it goes. */
  method DecodeName(packet: bytes, start: int, depth: nat) returns (r: Option<DecodedName>)
    ensures r == Decode(packet, start, depth)
    decreases if depth > MAX_DEPTH then 0 else 1 + MAX_DEPTH - depth
  {
    hide LabelsAt, NextAt, NameAt, Decode, Reached, Join, Normalize;
    if start < 0 || start >= |packet| || depth > MAX_DEPTH {
      NoStart(packet, start, depth);
      return None;
    }
    var off: nat := start;
    var wire: bytes := [];
    var labels: seq<bytes> := [];
    var next: nat;
    Begin(packet, start, MAX_DEPTH - depth);
    while true
      invariant Reached(packet, start, MAX_DEPTH - depth, off, labels)
      invariant LabelsOk(labels) && wire == WireBody(labels) && |wire| <= 254
      decreases |packet| - off
    {
      if off >= |packet| {
        AtDeadEnd(packet, start, depth, off, labels);
        return None;
      }
      var n := packet[off];
      if n == 0 {
        AtRoot(packet, start, depth, off, labels);
        wire := wire + [0];
        next := off + 1;
        break;
      }
      if n >= 192 {
        if off + 1 >= |packet| {
          AtDeadEnd(packet, start, depth, off, labels);
          return None;
        }
        var ptr := Pair(n - 192, packet[off + 1]);
        if ptr >= off {
          AtDeadEnd(packet, start, depth, off, labels);
          return None;
        }
        var tail := DecodeName(packet, ptr, depth + 1);
        AtPointer(packet, start, depth, off, labels);
        if tail.None? {
          return None;
        }
        wire := wire + tail.value.wire;
        if tail.value.name != [] {
          labels := labels + [tail.value.name];
        }
        next := off + 2;
        break;
      }
      if n > 63 || off + 1 + n > |packet| {
        AtDeadEnd(packet, start, depth, off, labels);
        return None;
      }
      AtLabel(packet, start, depth, off, labels);
      wire := wire + [n] + packet[off + 1..off + 1 + n];
      labels := labels + [packet[off + 1..off + 1 + n]];
      off := off + 1 + n;
      if |wire| > 254 {
        return None;
      }
    }
    if |wire| > MAX_WIRE {
      return None;
    }
    return Some(DecodedName(Normalize(Join(labels)), next, wire));
  }

  /** The loop has read `labels` in place and stands at `off`. */
  ghost predicate Reached(p: bytes, start: nat, hops: nat, off: nat, labels: seq<bytes>) {
    && start <= off
    && LabelsOk(labels)
    && LabelsAt(p, start, hops) == Prepended(labels, LabelsAt(p, off, hops))
    && NextAt(p, start) == NextAt(p, off)
    && NameAt(p, start, [], hops) == NameAt(p, off, labels, hops)
  }

  lemma NoStart(p: bytes, start: int, depth: nat)
    requires start < 0 || start >= |p| || depth > MAX_DEPTH
    ensures Decode(p, start, depth).None?
  {}

  lemma Begin(p: bytes, start: nat, hops: nat)
    ensures Reached(p, start, hops, start, [])
  {
    var rest := LabelsAt(p, start, hops);
    if rest.Some? {
      assert [] + rest.value == rest.value;
    }
  }

  lemma AtRoot(p: bytes, start: nat, depth: nat, off: nat, labels: seq<bytes>)
    requires depth <= MAX_DEPTH && start < |p| && off < |p| && p[off] == 0
    requires Reached(p, start, MAX_DEPTH - depth, off, labels)
    requires |WireBody(labels)| <= 254
    ensures Decode(p, start, depth) == Some(DecodedName(Normalize(Join(labels)), off + 1, WireOf(labels)))
  {
    hide Join, Normalize;
    assert labels + [] == labels;
  }

  /** Running off the end, a truncated or forward pointer, or a bad label: there is no name here. */
  lemma AtDeadEnd(p: bytes, start: nat, depth: nat, off: nat, labels: seq<bytes>)
    requires depth <= MAX_DEPTH && start < |p|
    requires Reached(p, start, MAX_DEPTH - depth, off, labels)
    requires || off >= |p|
             || (p[off] >= 192 && (off + 1 >= |p| || PointerTarget(p, off) >= off))
             || 63 < p[off] < 192
             || (p[off] <= 63 && off + 1 + p[off] > |p|)
    ensures Decode(p, start, depth).None?
  {}

  lemma AtLabel(p: bytes, start: nat, depth: nat, off: nat, labels: seq<bytes>)
    requires depth <= MAX_DEPTH && start < |p|
    requires off < |p| && 1 <= p[off] <= 63 && off + 1 + p[off] <= |p|
    requires Reached(p, start, MAX_DEPTH - depth, off, labels)
    ensures var l := p[off + 1..off + 1 + p[off]];
            && Reached(p, start, MAX_DEPTH - depth, off + 1 + p[off], labels + [l])
            && WireBody(labels + [l]) == WireBody(labels) + [p[off]] + l
            && (|WireBody(labels + [l])| > 254 ==> Decode(p, start, depth).None?)
  {
    hide Join, Normalize;
    var hops := MAX_DEPTH - depth;
    var l := p[off + 1..off + 1 + p[off]];
    var rest := LabelsAt(p, off + 1 + p[off], hops);
    WireBodyConcat(labels, [l]);
    if rest.Some? {
      assert labels + ([l] + rest.value) == (labels + [l]) + rest.value;
      WireBodyConcat(labels + [l], rest.value);
    }
  }

  lemma AtPointer(p: bytes, start: nat, depth: nat, off: nat, labels: seq<bytes>)
    requires depth <= MAX_DEPTH && start < |p|
    requires off + 1 < |p| && p[off] >= 192 && PointerTarget(p, off) < off
    requires Reached(p, start, MAX_DEPTH - depth, off, labels)
    ensures var tail := Decode(p, PointerTarget(p, off), depth + 1);
            && (tail.None? ==> Decode(p, start, depth).None?)
            && (tail.Some? ==>
                  var wire := WireBody(labels) + tail.value.wire;
                  var shown := if tail.value.name == [] then labels else labels + [tail.value.name];
                  Decode(p, start, depth) ==
                  if |wire| > MAX_WIRE then None else Some(DecodedName(Normalize(Join(shown)), off + 2, wire)))
  {
    hide Join, Normalize, LabelOk;
    var hops := MAX_DEPTH - depth;
    if hops > 0 {
      var rest := LabelsAt(p, PointerTarget(p, off), hops - 1);
      if rest.Some? {
        WireBodyConcat(labels, rest.value);
        assert WireBody(labels) + (WireBody(rest.value) + [0]) == WireOf(labels + rest.value);
      }
    }
  }

  ghost function Prepended(ls: seq<bytes>, rest: Option<seq<bytes>>): Option<seq<bytes>> {
    if rest.None? then None else Some(ls + rest.value)
  }

  lemma {:induction false} WireBodyConcat(a: seq<bytes>, b: seq<bytes>)
    requires LabelsOk(a) && LabelsOk(b)
    ensures LabelsOk(a + b)
    ensures WireBody(a + b) == WireBody(a) + WireBody(b)
  {
    if a == [] {
      assert a + b == b;
    } else {
      hide LabelOk;
      assert (a + b)[0] == a[0] && (a + b)[1..] == a[1..] + b;
      WireBodyConcat(a[1..], b);
      var head := [|a[0]|] + a[0];
      assert head + (WireBody(a[1..]) + WireBody(b)) == head + WireBody(a[1..]) + WireBody(b);
    }
  }

  // ----- what a decoded name is -------------------------------------------------------------

  /** A well-formed uncompressed name: labels of 1 to 63 octets, then the root. */
  predicate WellFormedWire(w: bytes) {
    || w == [0]
    || (w != [] && 1 <= w[0] <= 63 && 1 + w[0] < |w| && WellFormedWire(w[1 + w[0]..]))
  }

  /** Section 2.3.4 of RFC 1035: a name has at most 255 octets. */
  predicate NameWire(w: bytes) {
    WellFormedWire(w) && |w| <= MAX_WIRE
  }

  function LabelsOf(w: bytes): (ls: seq<bytes>)
    requires WellFormedWire(w)
    ensures LabelsOk(ls) && WireOf(ls) == w
  {
    if w == [0] then []
    else
      var rest := LabelsOf(w[1 + w[0]..]);
      assert w == [w[0]] + w[1..1 + w[0]] + w[1 + w[0]..];
      var ls := [w[1..1 + w[0]]] + rest;
      assert WireOf(ls) == [w[0]] + w[1..1 + w[0]] + WireOf(rest);
      ls
  }

  /** The display name of an uncompressed wire form. */
  function DisplayOf(w: bytes): bytes
    requires WellFormedWire(w)
  {
    Normalize(Join(LabelsOf(w)))
  }

  lemma {:induction false} WireOfIsWellFormed(ls: seq<bytes>)
    requires LabelsOk(ls)
    ensures WellFormedWire(WireOf(ls)) && LabelsOf(WireOf(ls)) == ls
  {
    if ls == [] {
    } else {
      WireOfIsWellFormed(ls[1..]);
      var w := WireOf(ls);
      assert w == [|ls[0]|] + ls[0] + WireOf(ls[1..]);
      assert w[1..1 + w[0]] == ls[0] && w[1 + w[0]..] == WireOf(ls[1..]);
    }
  }

  lemma {:induction false} NextIsInside(p: bytes, off: nat, hops: nat)
    requires LabelsAt(p, off, hops).Some?
    ensures off < NextAt(p, off) <= |p|
    decreases |p| - off
  {
    if 0 < p[off] <= 63 {
      NextIsInside(p, off + 1 + p[off], hops);
    }
  }

  lemma {:induction false} ReadLabels(pre: bytes, ls: seq<bytes>, post: bytes, before: seq<bytes>, hops: nat)
    requires LabelsOk(ls)
    ensures LabelsAt(pre + WireOf(ls) + post, |pre|, hops) == Some(ls)
    ensures NextAt(pre + WireOf(ls) + post, |pre|) == |pre| + |WireOf(ls)|
    ensures NameAt(pre + WireOf(ls) + post, |pre|, before, hops) == Normalize(Join(before + ls))
    decreases |ls|
  {
    var p := pre + WireOf(ls) + post;
    if ls == [] {
      assert before + ls == before;
    } else {
      var l := ls[0];
      var pre' := pre + ([|l|] + l);
      assert p == pre' + WireOf(ls[1..]) + post by {
        assert WireOf(ls) == [|l|] + l + WireOf(ls[1..]);
      }
      ReadLabels(pre', ls[1..], post, before + [l], hops);
      assert p[|pre|] == |l| && p[|pre| + 1..|pre| + 1 + |l|] == l;
      assert before + [l] + ls[1..] == before + ls;
      assert [l] + ls[1..] == ls;
    }
  }

  /** An uncompressed name decodes to itself at any offset of any packet and under any depth. */
  lemma DecodeInPlace(pre: bytes, w: bytes, post: bytes, depth: nat)
    requires NameWire(w) && depth <= MAX_DEPTH
    ensures Decode(pre + w + post, |pre|, depth) == Some(DecodedName(DisplayOf(w), |pre| + |w|, w))
  {
    hide LabelsAt, NextAt, NameAt, WellFormedWire;
    var ls := LabelsOf(w);
    var p := pre + w + post;
    ReadLabels(pre, ls, post, [], MAX_DEPTH - depth);
    assert LabelsAt(p, |pre|, MAX_DEPTH - depth) == Some(ls);
    assert NameAt(p, |pre|, [], MAX_DEPTH - depth) == DisplayOf(w) by {
      assert [] + ls == ls;
    }
    assert |pre| < |p|;
  }

  lemma LastLabel(p: bytes, start: nat, ls: seq<bytes>)
    requires ls != [] && LabelsOk(ls)
    requires start + |WireBody(ls)| <= |p| && p[start..start + |WireBody(ls)|] == WireBody(ls)
    ensures var before, l := ls[..|ls| - 1], ls[|ls| - 1];
            var off := start + |WireBody(before)|;
            && ls == before + [l]
            && off + 1 + |l| == start + |WireBody(ls)|
            && p[start..off] == WireBody(before)
            && p[off] == |l| && p[off + 1..off + 1 + |l|] == l
  {
    var before, l := ls[..|ls| - 1], ls[|ls| - 1];
    var n: byte := |l|;
    assert ls == before + [l];
    WireBodyConcat(before, [l]);
    OneLabel(l);
    hide WireBody, LabelOk;
    SliceParts(p, start, WireBody(before), [n] + l);
    SliceParts(p, start + |WireBody(before)|, [n], l);
  }

  lemma OneLabel(l: bytes)
    requires LabelOk(l)
    ensures WireBody([l]) == [|l|] + l
  {
    assert WireBody([l][1..]) == [];
  }

  lemma SliceParts(p: bytes, at: nat, a: bytes, b: bytes)
    requires at + |a| + |b| <= |p| && p[at..at + |a| + |b|] == a + b
    ensures p[at..at + |a|] == a && p[at + |a|..at + |a| + |b|] == b
    ensures |a| == 1 ==> p[at] == a[0]
  {
    var here := p[at..at + |a| + |b|];
    assert here[..|a|] == a && here[|a|..] == b;
    assert here[..|a|] == p[at..at + |a|] && here[|a|..] == p[at + |a|..at + |a| + |b|];
  }

  lemma {:induction false} LabelsReached(p: bytes, start: nat, ls: seq<bytes>, depth: nat)
    requires depth <= MAX_DEPTH && start < |p| && LabelsOk(ls)
    requires start + |WireBody(ls)| <= |p| && p[start..start + |WireBody(ls)|] == WireBody(ls)
    ensures Reached(p, start, MAX_DEPTH - depth, start + |WireBody(ls)|, ls)
  {
    hide Reached, WireBody, Decode, LabelsAt;
    if ls == [] {
      NoLabels();
      Begin(p, start, MAX_DEPTH - depth);
    } else {
      var before := ls[..|ls| - 1];
      LastLabel(p, start, ls);
      LabelsReached(p, start, before, depth);
      AtLabel(p, start, depth, start + |WireBody(before)|, before);
    }
  }

  lemma NoLabels()
    ensures WireBody([]) == []
  {}

  /**
   * What the octets after some labels make of a name: the root octet ends it; a two-octet pointer with fourteen
   * bits of offset continues it with an earlier name, read one level deeper; anything else is an error, and so is
   * a wire form of more than 255 octets.
   */
  lemma NameReads(p: bytes, start: nat, ls: seq<bytes>, depth: nat)
    requires depth <= MAX_DEPTH && start < |p| && LabelsOk(ls)
    requires start + |WireBody(ls)| <= |p| && p[start..start + |WireBody(ls)|] == WireBody(ls)
    ensures var at := start + |WireBody(ls)|;
      && (at == |p| ==> Decode(p, start, depth).None?)
      && (at < |p| && p[at] == 0 ==>
            Decode(p, start, depth) ==
            if |WireBody(ls)| > 254 then None
            else Some(DecodedName(Normalize(Join(ls)), at + 1, WireBody(ls) + [0])))
      && (at < |p| && 0 < p[at] < 64 && at + 1 + p[at] > |p| ==> Decode(p, start, depth).None?)
      && (at < |p| && 64 <= p[at] < 192 ==> Decode(p, start, depth).None?)
      && (at + 1 == |p| && p[at] >= 192 ==> Decode(p, start, depth).None?)
      && (at + 1 < |p| && p[at] >= 192 ==>
            var target := (p[at] - 192) as int * 256 + p[at + 1] as int;
            if target >= at then Decode(p, start, depth).None?
            else
              var tail := Decode(p, target, depth + 1);
              if tail.None? || |WireBody(ls) + tail.value.wire| > 255 then Decode(p, start, depth).None?
              else
                var shown := if tail.value.name == [] then ls else ls + [tail.value.name];
                Decode(p, start, depth) ==
                Some(DecodedName(Normalize(Join(shown)), at + 2, WireBody(ls) + tail.value.wire)))
  {
    hide LabelsAt, NextAt, NameAt, Join, Normalize, Reached, Decode;
    var at := start + |WireBody(ls)|;
    LabelsReached(p, start, ls, depth);
    if at == |p| || 64 <= p[at] < 192 || (p[at] > 0 && p[at] < 64 && at + 1 + p[at] > |p|)
      || (p[at] >= 192 && (at + 1 == |p| || PointerTarget(p, at) >= at)) {
      AtDeadEnd(p, start, depth, at, ls);
    } else if p[at] == 0 {
      if |WireBody(ls)| <= 254 {
        AtRoot(p, start, depth, at, ls);
      } else {
        TooLongAtRoot(p, start, depth, at, ls);
      }
    } else if p[at] >= 192 {
      AtPointer(p, start, depth, at, ls);
    }
  }

  lemma TooLongAtRoot(p: bytes, start: nat, depth: nat, off: nat, labels: seq<bytes>)
    requires depth <= MAX_DEPTH && start < |p| && off < |p| && p[off] == 0
    requires Reached(p, start, MAX_DEPTH - depth, off, labels)
    requires |WireBody(labels)| > 254
    ensures Decode(p, start, depth).None?
  {
    hide Join, Normalize;
    assert labels + [] == labels;
  }

  lemma RootReads(p: bytes, at: nat, depth: nat)
    requires depth <= MAX_DEPTH && at < |p| && p[at] == 0
    ensures var d := Decode(p, at, depth); d.Some? && d.value.wire == [0]
  {
    hide LabelsAt, NextAt, NameAt, Join, Normalize, Decode;
    NameReads(p, at, [], depth);
  }

  lemma PointerReads(p: bytes, at: nat, target: nat, depth: nat)
    requires depth <= MAX_DEPTH && target < at && at + 1 < |p| && p[at] >= 192
    requires (p[at] - 192) as int * 256 + p[at + 1] as int == target
    ensures var tail, d := Decode(p, target, depth + 1), Decode(p, at, depth);
      d.Some? == tail.Some? && (d.Some? ==> d.value.wire == tail.value.wire)
  {
    hide LabelsAt, NextAt, NameAt, Join, Normalize, Decode;
    NameReads(p, at, [], depth);
    var tail := Decode(p, target, depth + 1);
    if tail.Some? {
      assert [] + tail.value.wire == tail.value.wire;
    }
  }

  /** A chain of pointers to a root name is followed through twelve of them and refused from thirteen on. */
  lemma {:induction false} PointerChain(p: bytes, at: seq<nat>, depth: nat)
    requires at != [] && at[0] < |p| && p[at[0]] == 0
    requires forall i :: 0 < i < |at| ==>
               && at[i - 1] < at[i] && at[i] + 1 < |p| && p[at[i]] >= 192
               && (p[at[i]] - 192) as int * 256 + p[at[i] + 1] as int == at[i - 1]
    ensures Decode(p, at[|at| - 1], depth).Some? <==> depth + |at| <= 13
    ensures var d := Decode(p, at[|at| - 1], depth); d.Some? ==> d.value.wire == [0]
  {
    hide LabelsAt, NextAt, NameAt, Decode;
    var last := at[|at| - 1];
    if depth > MAX_DEPTH {
      NoStart(p, last, depth);
    } else if |at| == 1 {
      RootReads(p, last, depth);
    } else {
      PointerReads(p, last, at[|at| - 2], depth);
      PointerChain(p, at[..|at| - 1], depth + 1);
    }
  }

  // ----- display names ----------------------------------------------------------------------

  lemma {:induction false} JoinConcat(a: seq<bytes>, b: seq<bytes>)
    requires b != []
    ensures Join(a + b) == if a == [] then Join(b) else Join(a) + [DOT] + Join(b)
  {
    if a == [] {
      assert a + b == b;
    } else {
      assert (a + b)[1..] == a[1..] + b;
      JoinConcat(a[1..], b);
      if |a| > 1 {
        assert a[0] + [DOT] + (Join(a[1..]) + [DOT] + Join(b)) == a[0] + [DOT] + Join(a[1..]) + [DOT] + Join(b);
      }
    }
  }

  lemma {:induction false} JoinEnds(ls: seq<bytes>)
    requires LabelsOk(ls)
    ensures ls != [] ==> Join(ls) != []
    ensures EndsWithDot(Join(ls)) <==> ls != [] && EndsWithDot(ls[|ls| - 1])
  {
    if |ls| > 1 {
      JoinEnds(ls[1..]);
    }
  }

  /** The last label of the name ends in a literal dot octet. */
  predicate LastLabelDotted(ls: seq<bytes>) {
    ls != [] && EndsWithDot(ls[|ls| - 1])
  }

  ghost predicate Shown(name: bytes, ls: seq<bytes>) {
    if LastLabelDotted(ls) then |name| < |Join(ls)| else name == Lower(Join(ls))
  }

  lemma ShownInPlace(ls: seq<bytes>)
    requires LabelsOk(ls)
    ensures Shown(Normalize(Join(ls)), ls)
  {
    JoinEnds(ls);
  }

  lemma ShownTextThroughPointer(before: seq<bytes>, rest: seq<bytes>)
    requires LabelsOk(before) && LabelsOk(rest) && rest != [] && !LastLabelDotted(rest)
    ensures Normalize(Join(before + [Lower(Join(rest))])) == Lower(Join(before + rest))
  {
    var tail := Lower(Join(rest));
    JoinEnds(rest);
    JoinConcat(before, rest);
    JoinConcat(before, [tail]);
    assert !EndsWithDot(tail) && !EndsWithDot(Join(before + [tail]));
    LowerTwice(Join(rest));
    if before != [] {
      LowerConcat(Join(before) + [DOT], tail);
      LowerConcat(Join(before) + [DOT], Join(rest));
    }
  }

  lemma ShownThroughPointer(before: seq<bytes>, tail: bytes, rest: seq<bytes>)
    requires LabelsOk(before) && LabelsOk(rest) && rest != [] && Shown(tail, rest)
    ensures Shown(Normalize(Join(if tail == [] then before else before + [tail])), before + rest)
  {
    hide LabelOk, Lower;
    assert (before + rest)[|before + rest| - 1] == rest[|rest| - 1];
    if LastLabelDotted(rest) {
      JoinConcat(before, rest);
      JoinConcat(before, [tail]);
    } else {
      JoinEnds(rest);
      ShownTextThroughPointer(before, rest);
    }
  }

  lemma {:induction false} NameIsShown(p: bytes, off: nat, before: seq<bytes>, hops: nat)
    requires LabelsOk(before) && LabelsAt(p, off, hops).Some?
    ensures Shown(NameAt(p, off, before, hops), before + LabelsAt(p, off, hops).value)
    decreases hops, |p| - off
  {
    var rest := LabelsAt(p, off, hops).value;
    if p[off] == 0 {
      assert before + rest == before;
      ShownInPlace(before);
    } else if p[off] >= 192 {
      var ptr := PointerTarget(p, off);
      NameIsShown(p, ptr, [], hops - 1);
      assert [] + rest == rest;
      if rest == [] {
        assert before + rest == before;
        ShownInPlace(before);
      } else {
        ShownThroughPointer(before, NameAt(p, ptr, [], hops - 1), rest);
      }
    } else {
      var l := p[off + 1..off + 1 + p[off]];
      NameIsShown(p, off + 1 + p[off], before + [l], hops);
      var more := LabelsAt(p, off + 1 + p[off], hops).value;
      assert before + [l] + more == before + ([l] + more);
    }
  }

  /**
   * Every pointer hop strips one more trailing dot, so the display name is the lower-cased
   * dotted text of the labels exactly when the last label does not itself end in a dot.
   */
  lemma DisplayNameIsTextIff(p: bytes, start: int, depth: nat)
    requires Decode(p, start, depth).Some?
    ensures var d := Decode(p, start, depth).value;
            var ls := LabelsOf(d.wire);
            d.name == Lower(Join(ls)) <==> !LastLabelDotted(ls)
  {
    var ls := LabelsAt(p, start, MAX_DEPTH - depth).value;
    WireOfIsWellFormed(ls);
    NameIsShown(p, start, [], MAX_DEPTH - depth);
    assert [] + ls == ls;
  }

  /** So two packets that spell one wire name, compressed or not, show the same name. */
  lemma SameWireSameName(p: bytes, start: int, q: bytes, at: int, depth: nat, depth': nat)
    requires Decode(p, start, depth).Some? && Decode(q, at, depth').Some?
    requires Decode(p, start, depth).value.wire == Decode(q, at, depth').value.wire
    requires !LastLabelDotted(LabelsOf(Decode(p, start, depth).value.wire))
    ensures Decode(p, start, depth).value.name == Decode(q, at, depth').value.name
  {
    DisplayNameIsTextIff(p, start, depth);
    DisplayNameIsTextIff(q, at, depth');
  }

  // ----- the encoder ------------------------------------------------------------------------

  /** The pieces of a text between its dots; one more than it has dots. */
  function Split(s: bytes): (r: seq<bytes>)
    ensures r != []
  {
    if s == [] then [[]]
    else if s[0] == DOT then [[]] + Split(s[1..])
    else [[s[0]] + Split(s[1..])[0]] + Split(s[1..])[1..]
  }

  function Encode(name: bytes): Option<bytes> {
    if name == [] || name == [DOT] then Some([0])
    else
      var ls := Split(TrimDot(name));
      if LabelsOk(ls) && |WireOf(ls)| <= MAX_WIRE then Some(WireOf(ls)) else None
  }

  method EncodeDNSName(name: bytes) returns (r: Option<bytes>)
    ensures r == Encode(name)
  {
    hide Split, TrimDot;
    if name == [] || name == [DOT] {
      return Some([0]);
    }
    var out: bytes := [];
    var ls := Split(TrimDot(name));
    for i := 0 to |ls|
      invariant LabelsOk(ls[..i]) && out == WireBody(ls[..i])
    {
      if |ls[i]| == 0 || |ls[i]| > 63 {
        assert !LabelOk(ls[i]);
        return None;
      }
      WireBodyConcat(ls[..i], [ls[i]]);
      assert ls[..i] + [ls[i]] == ls[..i + 1];
      out := out + [|ls[i]|] + ls[i];
    }
    assert ls[..|ls|] == ls;
    out := out + [0];
    if |out| > MAX_WIRE {
      return None;
    }
    return Some(out);
  }

  predicate DotFree(ls: seq<bytes>) {
    forall i :: 0 <= i < |ls| ==> DOT !in ls[i]
  }

  lemma {:induction false} SplitJoins(s: bytes)
    ensures Join(Split(s)) == s && DotFree(Split(s))
  {
    if s == [] {
    } else {
      SplitJoins(s[1..]);
      var rest := Split(s[1..]);
      assert s == [s[0]] + s[1..];
      if s[0] == DOT {
        assert Split(s)[1..] == rest;
      } else {
        assert Split(s)[1..] == rest[1..];
        if |rest| > 1 {
          assert [s[0]] + (rest[0] + [DOT] + Join(rest[1..])) == ([s[0]] + rest[0]) + [DOT] + Join(rest[1..]);
        }
      }
    }
  }

  lemma {:induction false} SplitPiece(l: bytes)
    requires DOT !in l
    ensures Split(l) == [l]
  {
    if l == [] {
    } else {
      SplitPiece(l[1..]);
      assert [l[0]] + l[1..] == l;
    }
  }

  lemma {:induction false} SplitAfterPiece(l: bytes, s: bytes)
    requires DOT !in l
    ensures Split(l + [DOT] + s) == [l] + Split(s)
  {
    var t := l + [DOT] + s;
    if l == [] {
      assert t[1..] == s;
    } else {
      assert t[1..] == l[1..] + [DOT] + s;
      SplitAfterPiece(l[1..], s);
      assert [l[0]] + l[1..] == l;
      assert Split(t[1..])[1..] == Split(s);
    }
  }

  lemma {:induction false} JoinSplits(ls: seq<bytes>)
    requires ls != [] && DotFree(ls)
    ensures Split(Join(ls)) == ls
  {
    if |ls| == 1 {
      SplitPiece(ls[0]);
    } else {
      JoinSplits(ls[1..]);
      SplitAfterPiece(ls[0], Join(ls[1..]));
      assert [ls[0]] + ls[1..] == ls;
    }
  }

  lemma EncodedIsNameWire(name: bytes)
    requires Encode(name).Some?
    ensures NameWire(Encode(name).value) && DisplayOf(Encode(name).value) == Normalize(name)
  {
    if name != [] && name != [DOT] {
      var ls := Split(TrimDot(name));
      SplitJoins(TrimDot(name));
      WireOfIsWellFormed(ls);
      JoinEnds(ls);
    }
  }

  /** Decoding an encoded name, anywhere in a packet, gives the normalised name back. */
  lemma EncodeThenDecode(name: bytes, w: bytes, pre: bytes, post: bytes, depth: nat)
    requires Encode(name) == Some(w) && depth <= MAX_DEPTH
    ensures Decode(pre + w + post, |pre|, depth) == Some(DecodedName(Normalize(name), |pre| + |w|, w))
  {
    assert NameWire(w) && DisplayOf(w) == Normalize(name) by {
      EncodedIsNameWire(name);
    }
    DecodeInPlace(pre, w, post, depth);
  }

  /**
   * Why the wire form is kept: encoding the dotted text of a name gives its wire form back
   * exactly when no label contains a literal dot.
   */
  lemma ReencodingKeepsWireIff(ls: seq<bytes>)
    requires LabelsOk(ls) && |WireOf(ls)| <= MAX_WIRE
    ensures Encode(Join(ls)) == Some(WireOf(ls)) <==> DotFree(ls)
  {
    WireOfIsWellFormed(ls);
    JoinEnds(ls);
    if ls != [] && DotFree(ls) {
      JoinSplits(ls);
      assert ls[|ls| - 1] != [] && !EndsWithDot(ls[|ls| - 1]);
    }
    if ls != [] && Encode(Join(ls)) == Some(WireOf(ls)) {
      var again := Split(TrimDot(Join(ls)));
      SplitJoins(TrimDot(Join(ls)));
      if Join(ls) != [DOT] {
        WireOfIsWellFormed(again);
        assert again == ls;
      }
    }
  }

  /**
   * The names that can be encoded: those that spell dot-free labels of 1 to 63 octets, with or without one
   * trailing dot, in a wire form of at most 255 octets; the empty name and a lone dot spell the root.
   */
  lemma EncodableIff(name: bytes, w: bytes)
    ensures Encode(name) == Some(w) <==>
            exists ls :: LabelsOk(ls) && DotFree(ls) && WireOf(ls) == w && |w| <= 255
                         && (name == Join(ls) || name == Join(ls) + [46])
  {
    if Encode(name) == Some(w) {
      var ls := if name == [] || name == [DOT] then [] else Split(TrimDot(name));
      SplitJoins(TrimDot(name));
      assert LabelsOk(ls) && DotFree(ls) && WireOf(ls) == w && (name == Join(ls) || name == Join(ls) + [46]);
    }
    forall ls | LabelsOk(ls) && DotFree(ls) && WireOf(ls) == w && |w| <= 255
                && (name == Join(ls) || name == Join(ls) + [46])
      ensures Encode(name) == Some(w)
    {
      EncodesLabels(ls, name);
    }
  }

  lemma EncodesLabels(ls: seq<bytes>, name: bytes)
    requires LabelsOk(ls) && DotFree(ls) && |WireOf(ls)| <= 255 && (name == Join(ls) || name == Join(ls) + [46])
    ensures Encode(name) == Some(WireOf(ls))
  {
    hide LabelOk, Split, Join;
    JoinEnds(ls);
    if ls == [] {
      NoJoin();
      assert WireOf(ls) == [0];
    } else {
      JoinSplits(ls);
      LastIsText(ls);
      assert EndsWithDot(Join(ls) + [DOT]) && (Join(ls) + [DOT])[..|Join(ls)|] == Join(ls);
      assert TrimDot(name) == Join(ls);
      assert name != [] && name != [DOT];
    }
  }

  lemma NoJoin()
    ensures Join([]) == [] && Join([]) + [46] == [DOT]
  {}

  lemma LastIsText(ls: seq<bytes>)
    requires LabelsOk(ls) && DotFree(ls) && ls != []
    ensures !EndsWithDot(ls[|ls| - 1])
  {}
}
