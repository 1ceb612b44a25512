/**
 Address ranges of the capture filter (src/dipifccret/capture/ranges.c): the
 byte-wise userspace matcher, and the word view of addresses and masks that the
 kernel filter compiler uses. Addresses are kept as the bytes seen on the wire.
 */
module Cidr {
  type Bytes = seq<bv8>
  type Addr4 = b: Bytes | |b| == 4 witness [0, 0, 0, 0]
  type Addr16 = b: Bytes | |b| == 16 witness [0, 0, 0, 0, 0, 0, 0, 0, 0, 0, 0, 0, 0, 0, 0, 0]
  type Prefix = n: nat | n <= 128

  datatype Family = Inet | Inet6

  // cidr_t: cidr_parse only builds contiguous IPv4 masks, but nothing below needs that.
  datatype Range =
    | V4(addr: Addr4, mask: Addr4)
    | V6(addr6: Addr16, prefix: Prefix)

  type Range4 = r: Range | r.V4? witness V4([0, 0, 0, 0], [0, 0, 0, 0])
  type Range6 = r: Range | r.V6? witness V6([0, 0, 0, 0, 0, 0, 0, 0, 0, 0, 0, 0, 0, 0, 0, 0], 0)

  // The two mask operations are named so that proofs can treat them as unknown functions.
  function Masked8(x: bv8, m: bv8): bv8 { x & m }

  function Masked32(x: bv32, m: bv32): bv32 { x & m }

  /** ntohl of four wire bytes. */
  function Word(a: bv8, b: bv8, c: bv8, d: bv8): bv32 {
    ((a as bv32) << 24) | ((b as bv32) << 16) | ((c as bv32) << 8) | (d as bv32)
  }

  function WordAt(b: Bytes, off: nat): bv32
    requires off + 4 <= |b|
  {
    Word(b[off], b[off + 1], b[off + 2], b[off + 3])
  }

  /** The two IPv4 words agree under the mask, compared as raw bytes. */
  predicate MaskedEqual(a: Addr4, b: Addr4, mask: Addr4) {
    forall i :: 0 <= i < 4 ==> Masked8(a[i], mask[i]) == Masked8(b[i], mask[i])
  }

  function PartialByteMask(bits: nat): bv8
    requires 0 < bits < 8
  {
    (0xFF as bv8) << (8 - bits)
  }

  /** v6_prefix_match: whole bytes first, then the masked remainder byte. */
  predicate PrefixMatch(a: Addr16, b: Addr16, prefix: Prefix) {
    var full, rem := prefix / 8, prefix % 8;
    && a[..full] == b[..full]
    && (rem != 0 ==> Masked8(a[full], PartialByteMask(rem)) == Masked8(b[full], PartialByteMask(rem)))
  }

  predicate Matches4(a: Addr4, r: Range) {
    r.V4? && MaskedEqual(a, r.addr, r.mask)
  }

  predicate Matches6(a: Addr16, r: Range) {
    r.V6? && PrefixMatch(a, r.addr6, r.prefix)
  }

  predicate Matches(family: Family, a: Bytes, r: Range) {
    match family
    case Inet => |a| == 4 && Matches4(a, r)
    case Inet6 => |a| == 16 && Matches6(a, r)
  }

  predicate InRanges(family: Family, a: Bytes, ranges: seq<Range>) {
    exists i :: 0 <= i < |ranges| && Matches(family, a, ranges[i])
  }

  /** in_ranges: linear scan with early exit. */
  method ScanRanges(family: Family, a: Bytes, ranges: seq<Range>) returns (found: bool)
    ensures found <==> InRanges(family, a, ranges)
  {
    for i := 0 to |ranges|
      invariant forall k :: 0 <= k < i ==> !Matches(family, a, ranges[k])
    {
      if Matches(family, a, ranges[i]) {
        return true;
      }
    }
    return false;
  }

  /** v6_word_mask: the prefix mask restricted to 32-bit word `w` of the address. */
  function V6WordMask(prefix: Prefix, w: nat): bv32
    requires w < 4
  {
    if prefix <= 32 * w then 0
    else if prefix >= 32 * w + 32 then 0xFFFF_FFFF
    else (0xFFFF_FFFF as bv32) << (32 * w + 32 - prefix)
  }

  // ---- words against bytes ----

  lemma WordAnd(a: bv8, b: bv8, c: bv8, d: bv8, ma: bv8, mb: bv8, mc: bv8, md: bv8)
    ensures Masked32(Word(a, b, c, d), Word(ma, mb, mc, md))
         == Word(Masked8(a, ma), Masked8(b, mb), Masked8(c, mc), Masked8(d, md))
  {}

  lemma WordInjective(a: bv8, b: bv8, c: bv8, d: bv8, a': bv8, b': bv8, c': bv8, d': bv8)
    ensures Word(a, b, c, d) == Word(a', b', c', d') <==> a == a' && b == b' && c == c' && d == d'
  {}

  /** Comparing masked words is comparing masked bytes. */
  lemma MaskedWords(a: bv8, b: bv8, c: bv8, d: bv8, a': bv8, b': bv8, c': bv8, d': bv8,
                    ma: bv8, mb: bv8, mc: bv8, md: bv8)
    ensures Masked32(Word(a, b, c, d), Word(ma, mb, mc, md)) == Masked32(Word(a', b', c', d'), Word(ma, mb, mc, md))
       <==> && Masked8(a, ma) == Masked8(a', ma) && Masked8(b, mb) == Masked8(b', mb)
            && Masked8(c, mc) == Masked8(c', mc) && Masked8(d, md) == Masked8(d', md)
  {
    hide *;
    WordAnd(a, b, c, d, ma, mb, mc, md);
    WordAnd(a', b', c', d', ma, mb, mc, md);
    WordInjective(Masked8(a, ma), Masked8(b, mb), Masked8(c, mc), Masked8(d, md),
                  Masked8(a', ma), Masked8(b', mb), Masked8(c', mc), Masked8(d', md));
  }

  /** The part of an `n`-bit prefix that falls on one byte. */
  function ByteMask(n: int): bv8 {
    if n <= 0 then 0 else if n >= 8 then 0xFF else PartialByteMask(n)
  }

  lemma WordMaskBytes(n: nat)
    requires 0 < n < 32
    ensures (0xFFFF_FFFF as bv32) << (32 - n)
         == Word(ByteMask(n), ByteMask(n - 8), ByteMask(n - 16), ByteMask(n - 24))
  {}

  lemma V6WordMaskBytes(prefix: Prefix, w: nat)
    requires w < 4
    ensures V6WordMask(prefix, w)
         == Word(ByteMask(prefix - 32 * w), ByteMask(prefix - 32 * w - 8),
                 ByteMask(prefix - 32 * w - 16), ByteMask(prefix - 32 * w - 24))
  {
    if 32 * w < prefix < 32 * w + 32 {
      WordMaskBytes(prefix - 32 * w);
    }
  }

  ghost predicate MaskedByteEqual(a: Addr16, b: Addr16, prefix: Prefix, i: nat)
    requires i < 16
  {
    Masked8(a[i], ByteMask(prefix - 8 * i)) == Masked8(b[i], ByteMask(prefix - 8 * i))
  }

  lemma MaskedByteCases(a: Addr16, b: Addr16, prefix: Prefix, i: nat)
    requires i < 16
    ensures 8 * i + 8 <= prefix ==> (MaskedByteEqual(a, b, prefix, i) <==> a[i] == b[i])
    ensures prefix <= 8 * i ==> MaskedByteEqual(a, b, prefix, i)
    ensures 8 * i < prefix < 8 * i + 8 ==>
              (MaskedByteEqual(a, b, prefix, i) <==>
               Masked8(a[i], PartialByteMask(prefix % 8)) == Masked8(b[i], PartialByteMask(prefix % 8)))
  {
    hide PartialByteMask;
  }

  /** The byte-wise matcher in terms of one mask per address byte. */
  lemma PrefixMatchBytes(a: Addr16, b: Addr16, prefix: Prefix)
    ensures PrefixMatch(a, b, prefix) <==> forall i: nat | i < 16 :: MaskedByteEqual(a, b, prefix, i)
  {
    hide MaskedByteEqual, PartialByteMask, Masked8;
    forall i: nat | i < 16 {
      MaskedByteCases(a, b, prefix, i);
    }
    assert a[..prefix / 8] == b[..prefix / 8] <==> forall i: nat | 8 * i + 8 <= prefix :: a[i] == b[i];
  }

  ghost predicate WordMatch6(a: Addr16, b: Addr16, prefix: Prefix, w: nat)
    requires w < 4
  {
    Masked32(WordAt(a, 4 * w), V6WordMask(prefix, w)) == Masked32(WordAt(b, 4 * w), V6WordMask(prefix, w))
  }

  lemma WordMatch6Bytes(a: Addr16, b: Addr16, prefix: Prefix, w: nat)
    requires w < 4
    ensures WordMatch6(a, b, prefix, w) <==>
            && MaskedByteEqual(a, b, prefix, 4 * w) && MaskedByteEqual(a, b, prefix, 4 * w + 1)
            && MaskedByteEqual(a, b, prefix, 4 * w + 2) && MaskedByteEqual(a, b, prefix, 4 * w + 3)
  {
    hide Word, ByteMask, V6WordMask, Masked8, Masked32;
    var n, k := prefix - 32 * w, 4 * w;
    V6WordMaskBytes(prefix, w);
    MaskedWords(a[k], a[k + 1], a[k + 2], a[k + 3], b[k], b[k + 1], b[k + 2], b[k + 3],
                ByteMask(n), ByteMask(n - 8), ByteMask(n - 16), ByteMask(n - 24));
  }

  /** Four masked word comparisons decide exactly what the byte-wise matcher decides. */
  lemma WordsDecidePrefix(a: Addr16, b: Addr16, prefix: Prefix)
    ensures PrefixMatch(a, b, prefix) <==> forall w: nat | w < 4 :: WordMatch6(a, b, prefix, w)
  {
    hide *;
    PrefixMatchBytes(a, b, prefix);
    forall w: nat | w < 4 {
      WordMatch6Bytes(a, b, prefix, w);
    }
    assert forall i: nat | i < 16 :: i / 4 < 4;
    forall i: nat | i < 16 && forall w: nat | w < 4 :: WordMatch6(a, b, prefix, w)
      ensures MaskedByteEqual(a, b, prefix, i)
    {
      assert WordMatch6(a, b, prefix, i / 4);
    }
  }

  /** One masked word comparison decides an IPv4 range. */
  lemma WordDecidesRange4(a: Addr4, b: Addr4, mask: Addr4)
    ensures MaskedEqual(a, b, mask) <==>
            Masked32(WordAt(a, 0), WordAt(mask, 0)) == Masked32(WordAt(b, 0), WordAt(mask, 0))
  {
    hide Word, Masked8, Masked32;
    MaskedWords(a[0], a[1], a[2], a[3], b[0], b[1], b[2], b[3], mask[0], mask[1], mask[2], mask[3]);
  }
}
