/**
 * The helper's internal test (isInternalDestAddress, xray-apply.ts) and the agent's public test
 * (isPublicUnicastAddress, public-address.ts), judged against one table of address blocks.
 */
module AddressScope {
  import opened Common
  import opened Ipv6Text
  import opened Ipv6Parsing

  ghost predicate AreBytes(b: seq<nat>, n: nat) { |b| == n && forall i :: 0 <= i < n ==> b[i] < 256 }

  // ----- The two tests -----

  predicate IsInternalIPv4(o: seq<nat>)
    requires |o| == 4
  {
    var a, b := o[0], o[1];
    || a == 0 || a == 10 || a == 127 || a >= 224
    || (a == 100 && b >= 64 && b <= 127)
    || (a == 169 && b == 254)
    || (a == 172 && b >= 16 && b <= 31)
    || (a == 192 && b == 168)
  }

  predicate IsPublicIPv4(o: seq<nat>)
    requires |o| == 4
  {
    var a, b := o[0], o[1];
    if a == 0 || a == 10 || a == 127 || a >= 224 then false
    else if a == 172 && b >= 16 && b <= 31 then false
    else if a == 192 && b == 168 then false
    else if a == 169 && b == 254 then false
    else if a == 100 && b >= 64 && b <= 127 then false
    else true
  }

  predicate AllZero(b: seq<nat>) { forall i :: 0 <= i < |b| ==> b[i] == 0 }

  /** `byte & 0xfe`. */
  function MaskFe(b: nat): nat { b - b % 2 }

  /** `byte & 0xc0`, of a byte. */
  function MaskC0(b: nat): nat { b - b % 64 }

  predicate IsMapped(b: seq<nat>)
    requires |b| == 16
  {
    AllZero(b[..10]) && b[10] == 0xff && b[11] == 0xff
  }

  predicate IsInternalIPv6(b: seq<nat>)
    requires |b| == 16
  {
    if IsMapped(b) then IsInternalIPv4(b[12..])
    else
      || AllZero(b)
      || (b[15] == 1 && AllZero(b[..15]))
      || MaskFe(b[0]) == 0xfc
      || (b[0] == 0xfe && MaskC0(b[1]) == 0x80)
      || b[0] == 0xff
  }

  predicate IsPublicIPv6(b: seq<nat>)
    requires |b| == 16
  {
    if IsMapped(b) then IsPublicIPv4(b[12..])
    else if AllZero(b) then false
    else if AllZero(b[..15]) && b[15] == 1 then false
    else if MaskFe(b[0]) == 0xfc then false
    else if b[0] == 0xfe && MaskC0(b[1]) == 0x80 then false
    else b[0] != 0xff
  }

  lemma {:induction false} AssembledLength(host: string, read: Reader)
    requires Assembled(host, read).Some?
    ensures |Assembled(host, read).value| == 16
  {
  }

  /** isInternalDestAddress. */
  predicate IsInternalDest(address: string) {
    var trimmed := Bare(address);
    var v6 := HelperBytes(trimmed);
    if v6.Some? then
      AssembledLength(LowerAll(Bare(trimmed)), StrictPiece);
      IsInternalIPv6(v6.value)
    else
      var v4 := ParseIPv4(trimmed);
      if v4.Some? then IsInternalIPv4(v4.value) else false
  }

  /** isPublicUnicastAddress. */
  ghost predicate IsPublicUnicast(host: string) {
    var trimmed := Bare(host);
    if IsV4(trimmed) then
      var octets := LoosePiece(trimmed);
      octets.Some? && |octets.value| == 4 && IsPublicIPv4(octets.value)
    else if !IsV6(trimmed) then false
    else
      var bytes := AgentBytes(host);
      bytes.Some? && (AssembledLength(trimmed, LoosePiece); IsPublicIPv6(bytes.value))
  }

  // ----- The table -----

  /** An address block: the addresses that agree with `base` on its first `bits` bits. */
  datatype Block = Block(base: seq<nat>, bits: nat)

  /** The first `bits` bits of a byte. */
  function Top(b: nat, bits: nat): nat
    requires bits <= 8
  {
    if bits == 0 then 0
    else if bits == 1 then b / 128
    else if bits == 2 then b / 64
    else if bits == 3 then b / 32
    else if bits == 4 then b / 16
    else if bits == 5 then b / 8
    else if bits == 6 then b / 4
    else if bits == 7 then b / 2
    else b
  }

  predicate InBlock(b: seq<nat>, k: Block) {
    && |b| == |k.base| && k.bits <= 8 * |b|
    && (forall i :: 0 <= i < k.bits / 8 ==> b[i] == k.base[i])
    && (k.bits / 8 < |b| ==> Top(b[k.bits / 8], k.bits % 8) == Top(k.base[k.bits / 8], k.bits % 8))
  }

  /** IPv4 blocks no public service lives in: this network, private use, shared, loopback, link-local, multicast and above. */
  const BLOCKS4: seq<Block> := [
    Block([0, 0, 0, 0], 8), Block([10, 0, 0, 0], 8), Block([100, 64, 0, 0], 10), Block([127, 0, 0, 0], 8),
    Block([169, 254, 0, 0], 16), Block([172, 16, 0, 0], 12), Block([192, 168, 0, 0], 16), Block([224, 0, 0, 0], 3)]

  function Bytes16(first: nat, second: nat, last: nat): seq<nat> {
    [first, second, 0, 0, 0, 0, 0, 0, 0, 0, 0, 0, 0, 0, 0, last]
  }

  /** IPv6: unspecified, loopback, unique-local, link-local, multicast. */
  const BLOCKS6: seq<Block> := [
    Block(Bytes16(0, 0, 0), 128), Block(Bytes16(0, 0, 1), 128), Block(Bytes16(0xfc, 0, 0), 7),
    Block(Bytes16(0xfe, 0x80, 0), 10), Block(Bytes16(0xff, 0, 0), 8)]

  /** `::ffff:0:0/96`, the IPv4-mapped addresses of section 2.5.5.2 of RFC 4291. */
  const MAPPED_BLOCK := Block([0, 0, 0, 0, 0, 0, 0, 0, 0, 0, 0xff, 0xff, 0, 0, 0, 0], 96)

  ghost predicate Reserved4(o: seq<nat>) { exists i :: 0 <= i < |BLOCKS4| && InBlock(o, BLOCKS4[i]) }

  /** A mapped address counts as the IPv4 address it carries. */
  ghost predicate Reserved6(b: seq<nat>)
    requires |b| == 16
  {
    if InBlock(b, MAPPED_BLOCK) then Reserved4(b[12..]) else exists i :: 0 <= i < |BLOCKS6| && InBlock(b, BLOCKS6[i])
  }

  // ----- Both tests read the table -----

  /** What a block that ends in the first or second byte says. */
  lemma ShortBlock(b: seq<nat>, k: Block)
    requires |b| == |k.base| && |b| > 2 && k.bits <= 16
    ensures k.bits < 8 ==> (InBlock(b, k) <==> Top(b[0], k.bits) == Top(k.base[0], k.bits))
    ensures 8 <= k.bits < 16 ==> (InBlock(b, k) <==> b[0] == k.base[0] && Top(b[1], k.bits - 8) == Top(k.base[1], k.bits - 8))
    ensures k.bits == 16 ==> (InBlock(b, k) <==> b[0] == k.base[0] && b[1] == k.base[1])
  {
  }

  /** Block `i` of the IPv4 table in terms of the first two octets. */
  predicate Hits4(a: nat, b: nat, i: nat) {
    match i
    case 0 => a == 0
    case 1 => a == 10
    case 2 => a == 100 && b / 64 == 1
    case 3 => a == 127
    case 4 => a == 169 && b == 254
    case 5 => a == 172 && b / 16 == 1
    case 6 => a == 192 && b == 168
    case _ => a / 32 == 7
  }

  lemma Hits4Means(o: seq<nat>, i: nat)
    requires AreBytes(o, 4) && i < 8
    ensures InBlock(o, BLOCKS4[i]) <==> Hits4(o[0], o[1], i)
  {
    ShortBlock(o, BLOCKS4[i]);
  }

  lemma HitsAreInternal(a: nat, b: nat)
    requires a < 256 && b < 256
    ensures IsInternalIPv4([a, b, 0, 0]) <==> exists i :: 0 <= i < 8 && Hits4(a, b, i)
  {
    if IsInternalIPv4([a, b, 0, 0]) {
      var i := if a == 0 then 0 else if a == 10 then 1 else if a == 100 then 2 else if a == 127 then 3
        else if a == 169 then 4 else if a == 172 then 5 else if a == 192 then 6 else 7;
      assert Hits4(a, b, i);
    }
  }

  /** Both IPv4 tests are the table, one of them negated. */
  lemma InternalIPv4IsReserved(o: seq<nat>)
    requires AreBytes(o, 4)
    ensures IsInternalIPv4(o) <==> Reserved4(o)
    ensures IsPublicIPv4(o) <==> !Reserved4(o)
  {
    HitsAreInternal(o[0], o[1]);
    assert IsInternalIPv4(o) == IsInternalIPv4([o[0], o[1], 0, 0]);
    assert IsPublicIPv4(o) == !IsInternalIPv4(o);
    forall i | 0 <= i < 8 ensures InBlock(o, BLOCKS4[i]) <==> Hits4(o[0], o[1], i) { Hits4Means(o, i); }
  }

  lemma MappedIsBlock(b: seq<nat>)
    requires AreBytes(b, 16)
    ensures IsMapped(b) <==> InBlock(b, MAPPED_BLOCK)
  {
    if IsMapped(b) {
      assert forall i :: 0 <= i < 10 ==> b[i] == b[..10][i];
    }
    if InBlock(b, MAPPED_BLOCK) {
      assert forall i :: 0 <= i < 10 ==> b[..10][i] == MAPPED_BLOCK.base[i];
    }
  }

  predicate Hits6(b: seq<nat>, i: nat)
    requires |b| == 16
  {
    match i
    case 0 => AllZero(b)
    case 1 => AllZero(b[..15]) && b[15] == 1
    case 2 => b[0] / 2 == 0x7e
    case 3 => b[0] == 0xfe && b[1] / 64 == 2
    case _ => b[0] == 0xff
  }

  lemma FullBlock(b: seq<nat>, last: nat)
    requires |b| == 16
    ensures InBlock(b, Block(Bytes16(0, 0, last), 128)) <==> AllZero(b[..15]) && b[15] == last
  {
    var k := Block(Bytes16(0, 0, last), 128);
    if InBlock(b, k) {
      assert forall i :: 0 <= i < 15 ==> b[..15][i] == k.base[i];
    }
    if AllZero(b[..15]) {
      assert forall i :: 0 <= i < 15 ==> b[i] == b[..15][i];
    }
  }

  lemma Hits6Means(b: seq<nat>, i: nat)
    requires AreBytes(b, 16) && i < 5
    ensures InBlock(b, BLOCKS6[i]) <==> Hits6(b, i)
  {
    if i < 2 {
      FullBlock(b, i);
      assert AllZero(b) <==> AllZero(b[..15]) && b[15] == 0 by { assert b == b[..15] + [b[15]]; }
    } else {
      ShortBlock(b, BLOCKS6[i]);
    }
  }

  lemma Hits6AreInternal(b: seq<nat>)
    requires AreBytes(b, 16) && !IsMapped(b)
    ensures IsInternalIPv6(b) <==> exists i :: 0 <= i < 5 && Hits6(b, i)
  {
    if IsInternalIPv6(b) {
      var i := if AllZero(b) then 0 else if b[15] == 1 && AllZero(b[..15]) then 1
        else if MaskFe(b[0]) == 0xfc then 2 else if b[0] == 0xfe then 3 else 4;
      assert Hits6(b, i);
    }
  }

  /** Both IPv6 tests are the table, one of them negated; mapped addresses included. */
  lemma InternalIPv6IsReserved(b: seq<nat>)
    requires AreBytes(b, 16)
    ensures IsInternalIPv6(b) <==> Reserved6(b)
    ensures IsPublicIPv6(b) <==> !Reserved6(b)
  {
    MappedIsBlock(b);
    assert IsPublicIPv6(b) == !IsInternalIPv6(b);
    if IsMapped(b) {
      InternalIPv4IsReserved(b[12..]);
    } else {
      Hits6AreInternal(b);
      forall i | 0 <= i < 5 ensures InBlock(b, BLOCKS6[i]) <==> Hits6(b, i) { Hits6Means(b, i); }
    }
  }

  // ----- Whole texts -----

  lemma {:induction false} GroupsAreBytes(gs: seq<Group>)
    requires LegalGroups(gs)
    ensures forall i :: 0 <= i < |GroupBytes(gs)| ==> GroupBytes(gs)[i] < 256
  {
    if |gs| > 0 {
      GroupsAreBytes(gs[..|gs| - 1]);
      WordIsSmall(Last(gs), 4);
    }
  }

  lemma {:induction false} WordIsSmall(g: Group, n: nat)
    requires |g| <= n <= 4 && forall i :: 0 <= i < |g| ==> g[i].value < 16
    ensures WordOf(g) < if n == 0 then 1 else if n == 1 then 16 else if n == 2 then 256 else if n == 3 then 4096 else 65536
    decreases n
  {
    if |g| > 0 { WordIsSmall(g[..|g| - 1], n - 1); }
  }

  lemma SpelledBytes(sp: Spelling)
    requires Legal(sp)
    ensures AreBytes(Bytes(sp), 16)
  {
    GroupsAreBytes(sp.front);
    GroupsAreBytes(sp.back);
  }

  /** Where a valid IPv6 text lies, both tests say so: the internal one exactly in the table, the public one exactly outside. */
  lemma V6Verdicts(value: string, sp: Spelling)
    requires Legal(sp) && Dresses(value, Text(sp))
    ensures IsInternalDest(value) <==> Reserved6(Bytes(sp))
    ensures IsPublicUnicast(value) <==> !Reserved6(Bytes(sp))
  {
    TextIsClean(sp);
    BareUndresses(value, Text(sp));
    DressesItself(Text(sp));
    HelperReads(Text(sp), sp);
    AgentReads(value, sp);
    SpelledBytes(sp);
    InternalIPv6IsReserved(Bytes(sp));
    NotBothFamilies(sp);
  }

  lemma NotBothFamilies(sp: Spelling)
    requires Legal(sp)
    ensures !IsV4(Text(sp))
  {
    TextIsClean(sp);
    forall q | LegalQuad(q) ensures QuadText(q) != Text(sp) { QuadIsPlain(q); }
  }

  /** The same for a dotted IPv4 text. */
  lemma V4Verdicts(value: string, q: seq<nat>)
    requires LegalQuad(q) && Dresses(value, QuadText(q))
    ensures IsInternalDest(value) <==> Reserved4(q)
    ensures IsPublicUnicast(value) <==> !Reserved4(q)
  {
    var s := QuadText(q);
    QuadIsClean(q);
    BareUndresses(value, s);
    DressesItself(s);
    BareUndresses(s, s);
    QuadIsPlain(q);
    LowerQuad(q);
    BothReadQuad(q);
    InternalIPv4IsReserved(q);
  }

  /** On every valid address, however it is written, the two tests are exact complements. */
  lemma TestsAreComplements(value: string)
    requires exists s :: Dresses(value, s) && (IsV4(s) || IsV6(s))
    ensures IsPublicUnicast(value) <==> !IsInternalDest(value)
  {
    var s :| Dresses(value, s) && (IsV4(s) || IsV6(s));
    if IsV6(s) {
      var sp :| Legal(sp) && Text(sp) == s;
      V6Verdicts(value, sp);
    } else {
      var q :| LegalQuad(q) && QuadText(q) == s;
      V4Verdicts(value, q);
    }
  }

  /** The text `::ffff:` followed by a dotted quad is judged as that quad. */
  lemma MappedIsItsQuad(q: seq<nat>)
    requires LegalQuad(q)
    ensures Legal(MappedSpelling(q)) && Bytes(MappedSpelling(q))[12..] == q && InBlock(Bytes(MappedSpelling(q)), MAPPED_BLOCK)
    ensures Reserved6(Bytes(MappedSpelling(q))) <==> Reserved4(q)
  {
    MappedBytes(q);
    MappedLayout(Zeros(10), q);
  }

  function MappedSpelling(q: seq<nat>): Spelling { Spelling([], true, [Nibbles(255, 255)], Some(q)) }

  lemma MappedBytes(q: seq<nat>)
    requires LegalQuad(q)
    ensures Legal(MappedSpelling(q)) && Bytes(MappedSpelling(q)) == Zeros(10) + [255, 255] + q
  {
    NibblesSpell(255, 255);
    PushGroup([], Nibbles(255, 255));
    ConcatEmpty([Nibbles(255, 255)]);
    ConcatAssociates(Zeros(10), [255, 255], q);
    ConcatEmpty(Zeros(10));
  }

  lemma MappedLayout(zeros: seq<nat>, q: seq<nat>)
    requires zeros == Zeros(10) && LegalQuad(q)
    ensures var b := zeros + [255, 255] + q; |b| == 16 && b[12..] == q && InBlock(b, MAPPED_BLOCK)
  {
  }
}
