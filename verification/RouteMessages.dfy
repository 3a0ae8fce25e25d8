/**
 * Routing-socket messages on macOS (crates/snxcore/src/platform/macos/net.rs and stats.rs): building their address
 * parts, walking them again, and walking a buffer of messages. Buffers may hold any bytes.
 */
module RouteMessages {
  import opened Wrappers

  type byte = b: int | 0 <= b < 0x100

  const RTAX_DST: nat := 0
  const RTAX_GATEWAY: nat := 1
  const RTAX_NETMASK: nat := 2
  const RTAX_MAX: nat := 8

  /** One address of a message: its position among the address bits, and its sockaddr. */
  datatype Part = Part(bit: nat, sa: seq<byte>)

  /** An address found in a message, and where. */
  datatype Visit = Visit(bit: nat, offset: nat, sa: seq<byte>)

  function Roundup(len: nat): (r: nat)
    ensures r % 4 == 0 && 4 <= r && len <= r
    ensures r == 4 || r < len + 4
  {
    if len == 0 then 4 else (len + 3) / 4 * 4
  }

  function Min(a: nat, b: nat): nat {
    if a < b then a else b
  }

  // ----- One message -----

  function Padded(sa: seq<byte>): (r: seq<byte>)
    ensures |r| == Roundup(|sa|)
  {
    sa + seq(Roundup(|sa|) - |sa|, _ => 0)
  }

  function PayloadOf(parts: seq<Part>): seq<byte> {
    if parts == [] then [] else Padded(parts[0].sa) + PayloadOf(parts[1..])
  }

  function BitsOf(parts: seq<Part>): set<nat> {
    set i | 0 <= i < |parts| :: parts[i].bit
  }

  lemma {:induction false} PayloadSnoc(parts: seq<Part>, p: Part)
    ensures PayloadOf(parts + [p]) == PayloadOf(parts) + Padded(p.sa)
  {
    if parts == [] {
      assert [p][1..] == [];
    } else {
      assert (parts + [p])[1..] == parts[1..] + [p];
      PayloadSnoc(parts[1..], p);
    }
  }

  /** The address bits and the payload of a message with these parts. */
  method BuildRouteMessage(parts: seq<Part>) returns (addrs: set<nat>, payload: seq<byte>)
    ensures addrs == BitsOf(parts) && payload == PayloadOf(parts)
  {
    addrs, payload := {}, [];
    for i := 0 to |parts|
      invariant addrs == BitsOf(parts[..i]) && payload == PayloadOf(parts[..i])
    {
      PayloadSnoc(parts[..i], parts[i]);
      assert parts[..i + 1] == parts[..i] + [parts[i]];
      addrs := addrs + {parts[i].bit};
      var start := |payload|;
      payload := payload + parts[i].sa;
      payload := payload + seq(start + Roundup(|parts[i].sa|) - |payload|, _ => 0);
    }
    assert parts[..|parts|] == parts;
  }

  /** The sockaddr at an offset: its first byte is its length, cut off at the end of the buffer. */
  function SockaddrAt(buf: seq<byte>, offset: nat): seq<byte>
    requires offset < |buf|
  {
    buf[offset..Min(offset + buf[offset], |buf|)]
  }

  /** The addresses a message announces by its bits, from bit `i` and a given offset on. */
  function Walk(buf: seq<byte>, addrs: set<nat>, i: nat, offset: nat): seq<Visit>
    decreases |buf| + RTAX_MAX - i
  {
    if i >= RTAX_MAX then []
    else if i !in addrs || offset >= |buf| then Walk(buf, addrs, i + 1, offset)
    else [Visit(i, offset, SockaddrAt(buf, offset))] + Walk(buf, addrs, i + 1, offset + Roundup(buf[offset]))
  }

  function Find(visits: seq<Visit>, bit: nat): Option<seq<byte>> {
    if visits == [] then None else if visits[0].bit == bit then Some(visits[0].sa) else Find(visits[1..], bit)
  }

  lemma {:induction false} WalkBitsFrom(buf: seq<byte>, addrs: set<nat>, i: nat, offset: nat, bit: nat)
    ensures bit < i ==> Find(Walk(buf, addrs, i, offset), bit).None?
    decreases RTAX_MAX - i
  {
    if i < RTAX_MAX {
      var next := if i !in addrs || offset >= |buf| then offset else offset + Roundup(buf[offset]);
      WalkBitsFrom(buf, addrs, i + 1, next, bit);
    }
  }

  /** Looking for a bit in the rest of a walk: it is here, or further on, or it has been passed. */
  lemma FindStep(buf: seq<byte>, addrs: set<nat>, i: nat, offset: nat, bit: nat)
    requires i < RTAX_MAX
    ensures i !in addrs || offset >= |buf| ==>
              Find(Walk(buf, addrs, i, offset), bit)
              == if bit == i then None else Find(Walk(buf, addrs, i + 1, offset), bit)
    ensures i in addrs && offset < |buf| ==>
              Find(Walk(buf, addrs, i, offset), bit)
              == if bit == i then Some(SockaddrAt(buf, offset))
                 else Find(Walk(buf, addrs, i + 1, offset + Roundup(buf[offset])), bit)
  {
    WalkBitsFrom(buf, addrs, i + 1, offset, bit);
  }

  /** The address of a bit, as a walk from here on finds it. */
  function Found(buf: seq<byte>, addrs: set<nat>, i: nat, offset: nat, bit: nat): Option<seq<byte>>
    decreases |buf| + RTAX_MAX - i
  {
    if i >= RTAX_MAX then None
    else if i !in addrs || offset >= |buf| then
      if bit == i then None else Found(buf, addrs, i + 1, offset, bit)
    else if bit == i then Some(SockaddrAt(buf, offset))
    else Found(buf, addrs, i + 1, offset + Roundup(buf[offset]), bit)
  }

  lemma {:induction false} FoundIsFind(buf: seq<byte>, addrs: set<nat>, i: nat, offset: nat, bit: nat)
    ensures Found(buf, addrs, i, offset, bit) == Find(Walk(buf, addrs, i, offset), bit)
    decreases RTAX_MAX - i
  {
    if i < RTAX_MAX {
      FindStep(buf, addrs, i, offset, bit);
      if i !in addrs || offset >= |buf| {
        FoundIsFind(buf, addrs, i + 1, offset, bit);
      } else {
        FoundIsFind(buf, addrs, i + 1, offset + Roundup(buf[offset]), bit);
      }
    }
  }

  function NonEmpty(sa: Option<seq<byte>>): Option<seq<byte>> {
    if sa == Some([]) then None else sa
  }

  /** The gateway of a reply; the buffer is what follows the message header. */
  method RouteGetGateway(buf: seq<byte>, addrs: set<nat>) returns (gateway: Option<seq<byte>>)
    ensures var visited := Find(Walk(buf, addrs, 0, 0), 1);
            gateway == if visited == Some([]) then None else visited
  {
    var offset: nat := 0;
    gateway := None;
    ghost var found := Found(buf, addrs, 0, 0, RTAX_GATEWAY);
    FoundIsFind(buf, addrs, 0, 0, RTAX_GATEWAY);
    var i: nat := 0;
    while i < RTAX_MAX
      invariant i <= RTAX_MAX
      invariant i <= RTAX_GATEWAY ==> gateway.None? && found == Found(buf, addrs, i, offset, RTAX_GATEWAY)
      invariant i > RTAX_GATEWAY ==> gateway == NonEmpty(found)
    {
      if i in addrs && offset < |buf| {
        var saLen: nat := buf[offset];
        if i == RTAX_GATEWAY && saLen != 0 {
          gateway := Some(SockaddrAt(buf, offset));
        }
        offset := offset + Roundup(saLen);
      }
      i := i + 1;
    }
  }

  /** On any bytes: there are at most eight visits, each for an announced bit and inside the buffer. */
  lemma {:induction false} WalkStaysInside(buf: seq<byte>, addrs: set<nat>, i: nat, offset: nat)
    requires i <= 8
    ensures var visits := Walk(buf, addrs, i, offset);
            && |visits| <= 8 - i
            && forall v | v in visits ::
                 && i <= v.bit < 8 && v.bit in addrs
                 && offset <= v.offset < |buf| && v.sa == SockaddrAt(buf, v.offset)
    decreases RTAX_MAX - i
  {
    if i < RTAX_MAX {
      var next := if i !in addrs || offset >= |buf| then offset else offset + Roundup(buf[offset]);
      WalkStaysInside(buf, addrs, i + 1, next);
    }
  }

  /** Bits ascend from visit to visit, and no two addresses overlap, padding included. */
  lemma {:induction false} WalkAscends(buf: seq<byte>, addrs: set<nat>, i: nat, offset: nat, a: nat, b: nat)
    requires i <= RTAX_MAX
    requires a < b < |Walk(buf, addrs, i, offset)|
    ensures var visits := Walk(buf, addrs, i, offset);
            visits[a].bit < visits[b].bit && visits[a].offset + Roundup(|visits[a].sa|) <= visits[b].offset
    decreases RTAX_MAX - i
  {
    if i !in addrs || offset >= |buf| {
      WalkAscends(buf, addrs, i + 1, offset, a, b);
    } else {
      var next := offset + Roundup(buf[offset]);
      var rest := Walk(buf, addrs, i + 1, next);
      if a == 0 {
        WalkStaysInside(buf, addrs, i + 1, next);
        assert rest[b - 1] in rest;
        RoundupGrows(|SockaddrAt(buf, offset)|, buf[offset]);
      } else {
        WalkAscends(buf, addrs, i + 1, next, a - 1, b - 1);
      }
    }
  }

  lemma RoundupGrows(a: nat, b: nat)
    requires a <= b
    ensures Roundup(a) <= Roundup(b)
  {
  }

  /** Parts as `build_route_message` expects them: bits ascending, each sockaddr led by its own length. */
  predicate WellFormed(parts: seq<Part>) {
    && (forall i | 0 <= i < |parts| ::
          parts[i].bit < RTAX_MAX && (parts[i].sa != [] ==> parts[i].sa[0] == |parts[i].sa|))
    && (forall i, j | 0 <= i < j < |parts| :: parts[i].bit < parts[j].bit)
  }

  /** The parts at the offsets where the builder puts them. */
  function Placed(parts: seq<Part>, offset: nat): seq<Visit> {
    if parts == [] then []
    else [Visit(parts[0].bit, offset, parts[0].sa)] + Placed(parts[1..], offset + Roundup(|parts[0].sa|))
  }

  /** The walker visits exactly the parts that were built, at the offsets they were built at. */
  lemma WalkVisitsParts(parts: seq<Part>)
    requires WellFormed(parts)
    ensures Walk(PayloadOf(parts), BitsOf(parts), 0, 0) == Placed(parts, 0)
  {
    assert [] + PayloadOf(parts) == PayloadOf(parts);
    WalkVisitsRest([], parts, BitsOf(parts), 0);
  }

  /** The first part stands where the bytes before it end. */
  lemma PartInPlace(before: seq<byte>, parts: seq<Part>)
    requires WellFormed(parts) && parts != []
    ensures var buf, sa, padded := before + PayloadOf(parts), parts[0].sa, Padded(parts[0].sa);
            && |before| < |buf| && buf[|before|] == |sa| && SockaddrAt(buf, |before|) == sa
            && buf == (before + padded) + PayloadOf(parts[1..])
  {
    AddressInPlace(before, parts[0].sa, PayloadOf(parts[1..]));
  }

  lemma AddressInPlace(before: seq<byte>, sa: seq<byte>, rest: seq<byte>)
    requires sa != [] ==> sa[0] == |sa|
    ensures var buf := before + (Padded(sa) + rest);
            && |before| < |buf| && buf[|before|] == |sa| && SockaddrAt(buf, |before|) == sa
            && buf == (before + Padded(sa)) + rest
  {
    InTheMiddle(before, sa, seq(Roundup(|sa|) - |sa|, _ => 0), rest);
  }

  lemma InTheMiddle(before: seq<byte>, sa: seq<byte>, zeros: seq<byte>, rest: seq<byte>)
    ensures var buf := before + (sa + zeros + rest);
            && buf == (before + (sa + zeros)) + rest
            && buf[|before|..|before| + |sa|] == sa
            && (sa != [] ==> buf[|before|] == sa[0])
            && (sa == [] && zeros != [] ==> buf[|before|] == zeros[0])
  {
  }

  lemma WalkSkips(buf: seq<byte>, addrs: set<nat>, i: nat, offset: nat)
    requires i < RTAX_MAX && i !in addrs
    ensures Walk(buf, addrs, i, offset) == Walk(buf, addrs, i + 1, offset)
  {
  }

  lemma WalkHere(buf: seq<byte>, addrs: set<nat>, i: nat, offset: nat)
    requires i < RTAX_MAX && i in addrs && offset < |buf|
    ensures Walk(buf, addrs, i, offset)
         == [Visit(i, offset, SockaddrAt(buf, offset))] + Walk(buf, addrs, i + 1, offset + Roundup(buf[offset]))
  {
  }

  /** The walk visits the first part and goes on behind its padding. */
  lemma VisitsFirst(before: seq<byte>, parts: seq<Part>, addrs: set<nat>, i: nat)
    requires WellFormed(parts) && parts != [] && parts[0].bit == i && i in addrs && i < RTAX_MAX
    ensures var next := before + Padded(parts[0].sa);
            Walk(before + PayloadOf(parts), addrs, i, |before|)
            == [Visit(i, |before|, parts[0].sa)] + Walk(next + PayloadOf(parts[1..]), addrs, i + 1, |next|)
  {
    PartInPlace(before, parts);
    WalkHere(before + PayloadOf(parts), addrs, i, |before|);
  }

  lemma {:induction false} WalkVisitsRest(before: seq<byte>, parts: seq<Part>, addrs: set<nat>, i: nat)
    requires WellFormed(parts)
    requires forall b | b >= i :: b in addrs <==> b in BitsOf(parts)
    requires forall k | 0 <= k < |parts| :: parts[k].bit >= i
    ensures Walk(before + PayloadOf(parts), addrs, i, |before|) == Placed(parts, |before|)
    decreases RTAX_MAX - i
  {
    var buf := before + PayloadOf(parts);
    if i >= RTAX_MAX {
      NothingPlaced(parts, |before|);
    } else if i !in addrs {
      LaterBits(parts, i);
      WalkSkips(buf, addrs, i, |before|);
      WalkVisitsRest(before, parts, addrs, i + 1);
    } else {
      FirstBit(parts, i);
      RestOfBits(parts, addrs, i);
      VisitsFirst(before, parts, addrs, i);
      var next := before + Padded(parts[0].sa);
      WalkVisitsRest(next, parts[1..], addrs, i + 1);
      assert |next| == |before| + Roundup(|parts[0].sa|);
    }
  }

  lemma NothingPlaced(parts: seq<Part>, offset: nat)
    requires WellFormed(parts) && forall k | 0 <= k < |parts| :: parts[k].bit >= RTAX_MAX
    ensures Placed(parts, offset) == []
  {
  }

  lemma LaterBits(parts: seq<Part>, i: nat)
    requires i !in BitsOf(parts)
    requires forall k | 0 <= k < |parts| :: parts[k].bit >= i
    ensures forall k | 0 <= k < |parts| :: parts[k].bit >= i + 1
  {
    assert forall k | 0 <= k < |parts| :: parts[k].bit in BitsOf(parts);
  }

  /** A bit that is announced and not beyond the first part is the first part's. */
  lemma FirstBit(parts: seq<Part>, i: nat)
    requires WellFormed(parts) && i in BitsOf(parts)
    requires forall k | 0 <= k < |parts| :: parts[k].bit >= i
    ensures parts != [] && parts[0].bit == i
  {
    var k :| 0 <= k < |parts| && parts[k].bit == i;
  }

  lemma RestOfBits(parts: seq<Part>, addrs: set<nat>, i: nat)
    requires WellFormed(parts) && parts != [] && parts[0].bit == i
    requires forall b | b >= i :: b in addrs <==> b in BitsOf(parts)
    ensures WellFormed(parts[1..])
    ensures forall b | b >= i + 1 :: b in addrs <==> b in BitsOf(parts[1..])
    ensures forall k | 0 <= k < |parts[1..]| :: parts[1..][k].bit >= i + 1
  {
    forall b | b >= i + 1
      ensures b in BitsOf(parts) <==> b in BitsOf(parts[1..])
    {
      if b in BitsOf(parts) {
        var j :| 0 <= j < |parts| && parts[j].bit == b;
        assert parts[1..][j - 1].bit == b;
      }
      if b in BitsOf(parts[1..]) {
        var j :| 0 <= j < |parts[1..]| && parts[1..][j].bit == b;
        assert parts[j + 1].bit == b;
      }
    }
  }

  // ----- Netmasks -----

  function CountOnes(b: nat): (r: nat)
    ensures r <= 8
  {
    Ones(b, 8)
  }

  function Ones(b: nat, bits: nat): (r: nat)
    ensures r <= bits
  {
    if bits == 0 then 0 else b % 2 + Ones(b / 2, bits - 1)
  }

  function CountAll(s: seq<byte>): (r: nat)
    ensures r <= 8 * |s|
  {
    if s == [] then 0 else CountOnes(s[0]) + CountAll(s[1..])
  }

  /** The number of set bits in bytes 4 to 7 of a sockaddr that may be cut short. */
  function NetmaskPrefixLen(sa: seq<byte>): (r: nat)
    ensures r <= 32
  {
    if |sa| < 4 then 0 else CountAll(sa[4..Min(8, |sa|)])
  }

  /** No address byte that is there has a bit set. */
  predicate AddressBytesAreZero(sa: seq<byte>) {
    forall i | 4 <= i < 8 && i < |sa| :: sa[i] == 0
  }

  lemma {:induction false} NoOnes(b: nat, bits: nat, limit: nat)
    requires limit == Pow2(bits) && b < limit
    ensures Ones(b, bits) == 0 <==> b == 0
    decreases bits
  {
    if bits > 0 {
      NoOnes(b / 2, bits - 1, limit / 2);
    }
  }

  function Pow2(n: nat): (r: nat)
    ensures r > 0
  {
    if n == 0 then 1 else 2 * Pow2(n - 1)
  }

  lemma {:induction false} NoOnesAtAll(s: seq<byte>)
    ensures CountAll(s) == 0 <==> forall i | 0 <= i < |s| :: s[i] == 0
  {
    if s != [] {
      assert Pow2(8) == 256 by { assert Pow2(4) == 16; }
      NoOnes(s[0], 8, 256);
      NoOnesAtAll(s[1..]);
      assert s == [s[0]] + s[1..];
    }
  }

  /** A netmask has length zero exactly when no byte of its address has a bit set; missing bytes count as zero. */
  lemma ZeroNetmaskIff(sa: seq<byte>)
    ensures NetmaskPrefixLen(sa) == 0 <==> AddressBytesAreZero(sa)
  {
    if |sa| >= 4 {
      var s := sa[4..Min(8, |sa|)];
      NoOnesAtAll(s);
      assert forall i | 4 <= i < 8 && i < |sa| :: sa[i] == s[i - 4];
      assert forall j | 0 <= j < |s| :: s[j] == sa[j + 4];
    }
  }

  /** The bytes of a netmask with p leading ones, without the zero bytes behind them. */
  function MaskBytes(p: nat): (r: seq<byte>)
    requires p <= 32
    ensures |r| == (p + 7) / 8
  {
    if p == 0 then [] else if p <= 8 then [LeadingOnes(p)] else [255] + MaskBytes(p - 8)
  }

  /** A byte that starts with p ones. */
  function LeadingOnes(p: nat): byte
    requires 0 < p <= 8
  {
    assert Pow2(8) == 256 by { assert Pow2(4) == 16; }
    PowersAscend(8 - p, 8);
    256 - Pow2(8 - p)
  }

  lemma {:induction false} PowersAscend(m: nat, n: nat)
    requires m <= n
    ensures Pow2(m) <= Pow2(n)
  {
    if m < n {
      PowersAscend(m, n - 1);
    }
  }

  lemma {:induction false} AllOnes(p: nat)
    ensures Ones(Pow2(p) - 1, p) == p
  {
    if p > 0 {
      AllOnes(p - 1);
      assert (Pow2(p) - 1) / 2 == Pow2(p - 1) - 1;
    }
  }

  /** Shifting to the left keeps the number of ones. */
  lemma {:induction false} LeadingOnesIn(p: nat, bits: nat)
    requires p <= bits
    ensures Pow2(bits) >= Pow2(bits - p) && Ones(Pow2(bits) - Pow2(bits - p), bits) == p
    decreases bits
  {
    PowersAscend(bits - p, bits);
    if p == bits {
      AllOnes(p);
    } else {
      LeadingOnesIn(p, bits - 1);
      assert Pow2(bits) - Pow2(bits - p) == 2 * (Pow2(bits - 1) - Pow2(bits - 1 - p));
    }
  }

  lemma {:induction false} MaskBytesCount(p: nat)
    requires p <= 32
    ensures CountAll(MaskBytes(p)) == p
    decreases p
  {
    assert Pow2(8) == 256 && Pow2(0) == 1 by { assert Pow2(4) == 16; }
    if 0 < p <= 8 {
      LeadingOnesIn(p, 8);
      assert MaskBytes(p)[1..] == [];
    } else if p > 8 {
      LeadingOnesIn(8, 8);
      MaskBytesCount(p - 8);
      assert MaskBytes(p)[1..] == MaskBytes(p - 8);
    }
  }

  /** A netmask of p leading ones, cut after its last byte that is not zero or not at all, has length p. */
  lemma PrefixLenOfMask(header: seq<byte>, p: nat, zeros: nat)
    requires |header| == 4 && p <= 32 && |MaskBytes(p)| + zeros <= 4
    ensures NetmaskPrefixLen(header + MaskBytes(p) + seq(zeros, _ => 0)) == p
  {
    var sa := header + MaskBytes(p) + seq(zeros, _ => 0);
    assert sa[4..Min(8, |sa|)] == MaskBytes(p) + seq(zeros, _ => 0);
    MaskBytesCount(p);
    ZerosAddNothing(MaskBytes(p), zeros);
  }

  lemma {:induction false} ZerosAddNothing(s: seq<byte>, zeros: nat)
    ensures CountAll(s + seq(zeros, _ => 0)) == CountAll(s)
  {
    var tail: seq<byte> := seq(zeros, _ => 0);
    if s == [] {
      assert s + tail == tail;
      NoOnesAtAll(tail);
    } else {
      assert (s + tail)[1..] == s[1..] + tail;
      ZerosAddNothing(s[1..], zeros);
    }
  }

  // ----- Reading a route -----

  /** A destination counts as zero when it is too short to hold an address, or its four address bytes are zero. */
  predicate DestinationIsZero(sa: seq<byte>) {
    |sa| < 8 || (sa[4] == 0 && sa[5] == 0 && sa[6] == 0 && sa[7] == 0)
  }

  /** A default route has a zero destination, and a netmask without set bits or none at all. */
  predicate IsDefault(visits: seq<Visit>) {
    var dst, mask := Find(visits, RTAX_DST), Find(visits, RTAX_NETMASK);
    dst.Some? && DestinationIsZero(dst.value) && (mask.Some? ==> NetmaskPrefixLen(mask.value) == 0)
  }

  /** What the rest of a walk makes of the three things a route is judged by. */
  function Judge(body: seq<byte>, addrs: set<nat>, i: nat, offset: nat, haveDst: bool, dstZero: bool,
      netmaskZero: bool): bool
    decreases |body| + RTAX_MAX - i
  {
    if i >= RTAX_MAX then haveDst && dstZero && netmaskZero
    else if i !in addrs then Judge(body, addrs, i + 1, offset, haveDst, dstZero, netmaskZero)
    else if offset >= |body| then haveDst && dstZero && netmaskZero
    else
      var sa, next := SockaddrAt(body, offset), offset + Roundup(body[offset]);
      if i == RTAX_DST then Judge(body, addrs, i + 1, next, true, DestinationIsZero(sa), netmaskZero)
      else if i == RTAX_NETMASK then Judge(body, addrs, i + 1, next, haveDst, dstZero, NetmaskPrefixLen(sa) == 0)
      else Judge(body, addrs, i + 1, next, haveDst, dstZero, netmaskZero)
  }

  method RouteIsDefault(body: seq<byte>, addrs: set<nat>) returns (r: bool)
    ensures r == IsDefault(Walk(body, addrs, 0, 0))
  {
    var offset: nat, haveDst, dstZero, netmaskZero := 0, false, false, true;
    var i: nat := 0;
    while i < RTAX_MAX
      invariant i <= RTAX_MAX
      invariant Judge(body, addrs, i, offset, haveDst, dstZero, netmaskZero)
          == Judge(body, addrs, 0, 0, false, false, true)
    {
      if i in addrs {
        if offset >= |body| {
          break;
        }
        var saLen: nat := body[offset];
        var sa := SockaddrAt(body, offset);
        if i == RTAX_DST {
          haveDst := true;
          dstZero := DestinationIsZero(sa);
        } else if i == RTAX_NETMASK {
          netmaskZero := NetmaskPrefixLen(sa) == 0;
        }
        offset := offset + Roundup(saLen);
      }
      i := i + 1;
    }
    r := haveDst && dstZero && netmaskZero;
    FoundIsFind(body, addrs, 0, 0, RTAX_DST);
    FoundIsFind(body, addrs, 0, 0, RTAX_NETMASK);
    JudgedByAddresses(body, addrs, 0, 0, false, false, true);
  }

  predicate ZeroDestination(dst: Option<seq<byte>>) {
    dst.Some? && DestinationIsZero(dst.value)
  }

  predicate ZeroNetmask(mask: Option<seq<byte>>) {
    mask.Some? ==> NetmaskPrefixLen(mask.value) == 0
  }

  lemma {:induction false} JudgedByAddresses(body: seq<byte>, addrs: set<nat>, i: nat, offset: nat,
                                             haveDst: bool, dstZero: bool, netmaskZero: bool)
    requires (i <= RTAX_DST ==> !haveDst) && (i <= RTAX_NETMASK ==> netmaskZero)
    ensures Judge(body, addrs, i, offset, haveDst, dstZero, netmaskZero)
            == ((if i <= RTAX_DST then ZeroDestination(Found(body, addrs, i, offset, RTAX_DST)) else haveDst && dstZero)
                && (if i <= RTAX_NETMASK then ZeroNetmask(Found(body, addrs, i, offset, RTAX_NETMASK))
                    else netmaskZero))
    decreases |body| + RTAX_MAX - i
  {
    if i < RTAX_MAX {
      if i !in addrs {
        JudgedByAddresses(body, addrs, i + 1, offset, haveDst, dstZero, netmaskZero);
      } else if offset >= |body| {
        NothingBeyond(body, addrs, i, offset, RTAX_DST);
        NothingBeyond(body, addrs, i, offset, RTAX_NETMASK);
      } else {
        var sa, next := SockaddrAt(body, offset), offset + Roundup(body[offset]);
        JudgedByAddresses(body, addrs, i + 1, next, haveDst || i == RTAX_DST,
                          if i == RTAX_DST then DestinationIsZero(sa) else dstZero,
                          if i == RTAX_NETMASK then NetmaskPrefixLen(sa) == 0 else netmaskZero);
      }
    }
  }

  lemma {:induction false} NothingBeyond(buf: seq<byte>, addrs: set<nat>, i: nat, offset: nat, bit: nat)
    requires offset >= |buf|
    ensures Found(buf, addrs, i, offset, bit) == None
    decreases RTAX_MAX - i
  {
    if i < RTAX_MAX {
      NothingBeyond(buf, addrs, i + 1, offset, bit);
    }
  }

  // ----- Buffers of messages -----

  /** Every message starts with its own length, low byte first. */
  function LengthAt(buf: seq<byte>, offset: nat): (r: nat)
    requires offset + 2 <= |buf|
  {
    buf[offset] as int + 0x100 * buf[offset + 1] as int
  }

  /** The messages at the front of a buffer, until one is shorter than its header or runs past the end. */
  function Messages(buf: seq<byte>, headerLen: nat): seq<seq<byte>>
    requires headerLen >= 2
    decreases |buf|
  {
    if |buf| < headerLen then []
    else
      var len := LengthAt(buf, 0);
      if len < headerLen || len > |buf| then [] else [buf[..len]] + Messages(buf[len..], headerLen)
  }

  function Concat(messages: seq<seq<byte>>): seq<byte> {
    if messages == [] then [] else messages[0] + Concat(messages[1..])
  }

  predicate IsMessage(m: seq<byte>, headerLen: nat)
    requires headerLen >= 2
  {
    |m| >= headerLen && |m| == m[0] as int + 0x100 * m[1] as int
  }

  /** No whole message: less than a header, or a length that is less than a header or more than there is. */
  predicate IsBroken(tail: seq<byte>, headerLen: nat)
    requires headerLen >= 2
  {
    |tail| < headerLen || !(headerLen <= tail[0] as int + 0x100 * tail[1] as int <= |tail|)
  }

  /** A buffer of whole messages, followed by anything that is none, yields exactly these messages. */
  lemma {:induction false} MessagesOfConcat(messages: seq<seq<byte>>, tail: seq<byte>, headerLen: nat)
    requires headerLen >= 2 && IsBroken(tail, headerLen)
    requires forall m | m in messages :: IsMessage(m, headerLen)
    ensures Messages(Concat(messages) + tail, headerLen) == messages
  {
    if messages == [] {
      assert Concat(messages) + tail == tail;
    } else {
      var m, rest := messages[0], Concat(messages[1..]) + tail;
      assert m in messages;
      assert Concat(messages) + tail == m + rest;
      assert (m + rest)[..|m|] == m && (m + rest)[|m|..] == rest;
      MessagesOfConcat(messages[1..], tail, headerLen);
      assert messages == [m] + messages[1..];
    }
  }

  const RTM_HDR_LEN: nat := 4

  /** What the interface statistics need from a message: its kind, the interface and the counters. */
  datatype IfInfo<C> = IfInfo(index: nat, counters: C)

  /** `messageType` and `infoSize` are the system's RTM_IFINFO2 and the size of its if_msghdr2; `read` decodes it. */
  datatype IfFormat<!C> = IfFormat(messageType: nat, infoSize: nat, read: seq<byte> -> IfInfo<C>)

  predicate CarriesCounters<C>(f: IfFormat<C>, m: seq<byte>, index: nat)
  {
    |m| >= RTM_HDR_LEN && m[3] == f.messageType && |m| >= f.infoSize && f.read(m).index == index
  }

  function FirstCounters<C>(f: IfFormat<C>, messages: seq<seq<byte>>, index: nat): Option<C> {
    if messages == [] then None
    else if CarriesCounters(f, messages[0], index) then Some(f.read(messages[0]).counters)
    else FirstCounters(f, messages[1..], index)
  }

  /** The counters are those of the first message of the right kind and size for this interface. */
  lemma {:induction false} FirstCountersIs<C>(f: IfFormat<C>, messages: seq<seq<byte>>, index: nat)
      returns (i: nat)
    requires forall m | m in messages :: |m| >= 4
    ensures i <= |messages|
    ensures forall j | 0 <= j < i ::
              var m := messages[j]; m[3] != f.messageType || |m| < f.infoSize || f.read(m).index != index
    ensures i == |messages| ==> FirstCounters(f, messages, index) == None
    ensures i < |messages| ==>
              var m := messages[i];
              && m[3] == f.messageType && |m| >= f.infoSize && f.read(m).index == index
              && FirstCounters(f, messages, index) == Some(f.read(m).counters)
  {
    if messages == [] || CarriesCounters(f, messages[0], index) {
      i := 0;
      assert messages != [] ==> messages[0] in messages;
    } else {
      var rest := FirstCountersIs(f, messages[1..], index);
      assert messages[0] in messages;
      i := rest + 1;
      assert forall j | 0 < j < |messages| :: messages[j] == messages[1..][j - 1];
    }
  }

  method ParseIfCounters<C>(f: IfFormat<C>, buf: seq<byte>, index: nat) returns (r: Option<C>)
    ensures r == FirstCounters(f, Messages(buf, RTM_HDR_LEN), index)
  {
    var offset := 0;
    while offset + RTM_HDR_LEN <= |buf|
      invariant offset <= |buf|
      invariant FirstCounters(f, Messages(buf[offset..], RTM_HDR_LEN), index)
             == FirstCounters(f, Messages(buf, RTM_HDR_LEN), index)
    {
      var len := LengthAt(buf, offset);
      assert LengthAt(buf[offset..], 0) == len;
      if len < RTM_HDR_LEN || offset + len > |buf| {
        break;
      }
      var m := buf[offset..offset + len];
      assert buf[offset..][..len] == m && buf[offset..][len..] == buf[offset + len..];
      if CarriesCounters(f, m, index) {
        return Some(f.read(m).counters);
      }
      offset := offset + len;
    }
    return None;
  }

  /** What the default route search needs from a message header. */
  datatype Header = Header(up: bool, gateway: bool, addrs: set<nat>, index: nat)

  /** The system's header length and how to decode it, and the names and kinds of interfaces. */
  datatype System = System(
    headerLen: nat, read: seq<byte> -> Header, name: nat -> Option<string>, pointToPoint: string -> bool)

  /** An up default route through a gateway whose interface has a name and is not point to point. */
  predicate IsUsableDefault(s: System, m: seq<byte>) {
    var h := s.read(m);
    && |m| >= s.headerLen
    && h.up && h.gateway && IsDefault(Walk(m[s.headerLen..], h.addrs, 0, 0))
    && s.name(h.index).Some? && !s.pointToPoint(s.name(h.index).value)
  }

  function FirstDefault(s: System, messages: seq<seq<byte>>): Option<string> {
    if messages == [] then None
    else if IsUsableDefault(s, messages[0]) then s.name(s.read(messages[0]).index)
    else FirstDefault(s, messages[1..])
  }

  /** The interface is that of the first message with an up default route through a gateway that is usable. */
  lemma {:induction false} FirstDefaultIs(s: System, messages: seq<seq<byte>>) returns (i: nat)
    requires forall m | m in messages :: |m| >= s.headerLen
    ensures i <= |messages|
    ensures forall j | 0 <= j < i :: var m := messages[j]; var h := s.read(m);
              !h.up || !h.gateway || !IsDefault(Walk(m[s.headerLen..], h.addrs, 0, 0))
              || s.name(h.index).None? || s.pointToPoint(s.name(h.index).value)
    ensures i == |messages| ==> FirstDefault(s, messages) == None
    ensures i < |messages| ==>
              var m := messages[i];
              var h := s.read(m);
              && h.up && h.gateway && IsDefault(Walk(m[s.headerLen..], h.addrs, 0, 0))
              && s.name(h.index).Some? && !s.pointToPoint(s.name(h.index).value)
              && FirstDefault(s, messages) == s.name(h.index)
  {
    if messages == [] || IsUsableDefault(s, messages[0]) {
      i := 0;
    } else {
      assert messages[0] in messages;
      var rest := FirstDefaultIs(s, messages[1..]);
      i := rest + 1;
      assert forall j | 0 < j < |messages| :: messages[j] == messages[1..][j - 1];
    }
  }

  method UsableDefault(s: System, m: seq<byte>) returns (r: Option<string>)
    requires |m| >= s.headerLen
    ensures r == if IsUsableDefault(s, m) then s.name(s.read(m).index) else None
  {
    var hdr := s.read(m);
    if hdr.up && hdr.gateway {
      var isDefault := RouteIsDefault(m[s.headerLen..], hdr.addrs);
      if isDefault && s.name(hdr.index).Some? && !s.pointToPoint(s.name(hdr.index).value) {
        return s.name(hdr.index);
      }
    }
    return None;
  }

  method DefaultRouteInterface(s: System, buf: seq<byte>) returns (r: Option<string>)
    requires s.headerLen >= 2
    ensures r == FirstDefault(s, Messages(buf, s.headerLen))
  {
    var offset := 0;
    ghost var wanted := FirstDefault(s, Messages(buf, s.headerLen));
    while offset + s.headerLen <= |buf|
      invariant offset <= |buf|
      invariant FirstDefault(s, Messages(buf[offset..], s.headerLen)) == wanted
    {
      var len := LengthAt(buf, offset);
      if len < s.headerLen || offset + len > |buf| {
        break;
      }
      DefaultFrom(s, buf, offset, len);
      r := UsableDefault(s, buf[offset..offset + len]);
      if r.Some? {
        return;
      }
      offset := offset + len;
    }
    NoDefault(s, buf, offset);
    return None;
  }

  lemma DefaultFrom(s: System, buf: seq<byte>, offset: nat, len: nat)
    requires 2 <= s.headerLen <= len && offset + len <= |buf| && len == LengthAt(buf, offset)
    ensures var m := buf[offset..offset + len];
            FirstDefault(s, Messages(buf[offset..], s.headerLen))
            == if IsUsableDefault(s, m) then s.name(s.read(m).index)
               else FirstDefault(s, Messages(buf[offset + len..], s.headerLen))
  {
    assert LengthAt(buf[offset..], 0) == len;
    NextDefault(s, buf[offset..]);
    Drop(buf, offset, len);
  }

  lemma NoDefault(s: System, buf: seq<byte>, offset: nat)
    requires s.headerLen >= 2 && offset <= |buf|
    requires offset + s.headerLen > |buf| || LengthAt(buf, offset) < s.headerLen
             || offset + LengthAt(buf, offset) > |buf|
    ensures FirstDefault(s, Messages(buf[offset..], s.headerLen)) == None
  {
    if offset + s.headerLen <= |buf| {
      assert LengthAt(buf[offset..], 0) == LengthAt(buf, offset);
    }
  }

  lemma Drop(buf: seq<byte>, offset: nat, len: nat)
    requires offset + len <= |buf|
    ensures buf[offset..][..len] == buf[offset..offset + len] && buf[offset..][len..] == buf[offset + len..]
  {
  }

  lemma NextDefault(s: System, buf: seq<byte>)
    requires 2 <= s.headerLen <= |buf| && s.headerLen <= LengthAt(buf, 0) <= |buf|
    ensures var len := LengthAt(buf, 0);
            FirstDefault(s, Messages(buf, s.headerLen))
            == if IsUsableDefault(s, buf[..len]) then s.name(s.read(buf[..len]).index)
               else FirstDefault(s, Messages(buf[len..], s.headerLen))
  {
    NextMessage(buf, s.headerLen);
  }

  lemma NextMessage(buf: seq<byte>, headerLen: nat)
    requires 2 <= headerLen <= |buf| && headerLen <= LengthAt(buf, 0) <= |buf|
    ensures var messages := Messages(buf, headerLen);
            messages != [] && messages[0] == buf[..LengthAt(buf, 0)]
                && messages[1..] == Messages(buf[LengthAt(buf, 0)..], headerLen)
  {
  }

  /**
   * A message with built parts is the default route exactly when it has a destination whose four address bytes are
   * zero or not all there, and no byte of a netmask, if it has one, has a bit set.
   */
  lemma BuiltRouteIsDefault(parts: seq<Part>)
    requires WellFormed(parts)
    ensures var visits := Walk(PayloadOf(parts), BitsOf(parts), 0, 0);
            && (forall b :: Find(visits, b) == FindPart(parts, b))
            && (IsDefault(visits) <==>
                  var dst, mask := FindPart(parts, 0), FindPart(parts, 2);
                  && dst.Some? && (|dst.value| < 8 || dst.value[4..8] == [0, 0, 0, 0])
                  && (mask.Some? ==> AddressBytesAreZero(mask.value)))
  {
    WalkVisitsParts(parts);
    FindPlaced(parts, 0);
    var dst, mask := FindPart(parts, 0), FindPart(parts, 2);
    if mask.Some? {
      ZeroNetmaskIff(mask.value);
    }
    if dst.Some? && |dst.value| >= 8 {
      assert dst.value[4..8] == [dst.value[4], dst.value[5], dst.value[6], dst.value[7]];
    }
  }

  /** A half-space route, as a tunnel adds two of them, is never taken for the default route. */
  lemma HalfRouteIsNoDefault(parts: seq<Part>, header: seq<byte>, p: nat)
    requires WellFormed(parts) && |header| == 4 && 0 < p <= 32
    requires FindPart(parts, 2) == Some(header + MaskBytes(p))
    ensures !IsDefault(Walk(PayloadOf(parts), BitsOf(parts), 0, 0))
  {
    BuiltRouteIsDefault(parts);
    PrefixLenOfMask(header, p, 0);
    assert header + MaskBytes(p) + seq(0, _ => 0) == header + MaskBytes(p);
    ZeroNetmaskIff(header + MaskBytes(p));
  }

  function FindPart(parts: seq<Part>, bit: nat): Option<seq<byte>> {
    if parts == [] then None else if parts[0].bit == bit then Some(parts[0].sa) else FindPart(parts[1..], bit)
  }

  lemma {:induction false} FindPlaced(parts: seq<Part>, offset: nat)
    ensures forall b :: Find(Placed(parts, offset), b) == FindPart(parts, b)
  {
    if parts != [] {
      FindPlaced(parts[1..], offset + Roundup(|parts[0].sa|));
    }
  }
}
