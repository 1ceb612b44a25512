/**
 The other direction of `FrameRoundTrip`: nothing but built frames is delivered.
 Whatever the network parser accepts begins with a link header and an IPv4 or
 IPv6 header that the builder makes - unfragmented, with UDP behind the last
 extension header - and a frame is delivered with a payload if and only if it is
 one the builder makes, with its destination in range.
 */
module FrameDelivered {
  import opened Wrappers
  import opened Cidr
  import opened Bpf
  import opened Frame
  import opened FrameRoundTrip

  lemma HoldsBoth(p: Bytes, off: nat, x: Bytes, y: Bytes)
    requires Holds(p, off, x) && Holds(p, off + |x|, y)
    ensures Holds(p, off, x + y)
  {
    forall i | 0 <= i < |x + y| ensures p[off + i] == (x + y)[i] {
      if i >= |x| { assert p[off + |x| + (i - |x|)] == y[i - |x|]; }
    }
  }

  lemma HoldsSlice(p: Bytes, off: nat, n: nat)
    requires off + n <= |p|
    ensures Holds(p, off, p[off..off + n])
  {
  }

  // ---- extension headers ----

  lemma {:induction false} WalkForward(p: Bytes, off: nat, nh: bv8)
    requires WalkExt(p, off, nh).Some?
    ensures WalkExt(p, off, nh).value >= off
    decreases |p| - off
  {
    hide Half;
    if nh == 17 {
    } else if IsOptionsHeader(nh) {
      WalkForward(p, off + ((p[off + 1] as nat) + 1) * 8, p[off]);
    } else {
      WalkForward(p, off + 8, p[off]);
    }
  }

  /** One step of the walk passes one skippable header. */
  lemma HeaderAt(p: Bytes, off: nat, nh: bv8) returns (e: Ext, len: nat)
    requires WalkExt(p, off, nh).Some? && WalkExt(p, off, nh).value <= |p| && nh != 17
    ensures len >= 8 && off + len <= |p| && WalkExt(p, off, nh) == WalkExt(p, off + len, p[off])
    ensures ValidExt(e) && First([e]) == nh && |ExtBytes(e, p[off])| == len && Holds(p, off, ExtBytes(e, p[off]))
  {
    hide Half, Holds, ExtBytes, ValidExt;
    if IsOptionsHeader(nh) {
      len := ((p[off + 1] as nat) + 1) * 8;
      WalkForward(p, off + len, p[off]);
      e := Options(nh, p[off + 1], p[off + 2..off + len]);
      OptionsHeld(p, off, e);
    } else {
      len := 8;
      WalkForward(p, off + 8, p[off]);
      e := Fragment(p[off + 1], p[off + 2..off + 4], p[off + 4..off + 8]);
      FragmentHeld(p, off, e);
    }
  }

  /** What the walk passes inside the frame is a chain of skippable headers. */
  lemma {:induction false} WalkIsChain(p: Bytes, off: nat, nh: bv8) returns (exts: seq<Ext>)
    requires WalkExt(p, off, nh).Some? && WalkExt(p, off, nh).value <= |p|
    ensures forall i :: 0 <= i < |exts| ==> ValidExt(exts[i])
    ensures First(exts) == nh && Holds(p, off, Chain(exts)) && WalkExt(p, off, nh).value == off + |Chain(exts)|
    decreases |p| - off
  {
    hide WalkExt, Holds, ExtBytes, ValidExt;
    exts := [];
    if nh == 17 {
      WalkUdp(p, off);
      NothingHeld(p, off);
    } else {
      var e, len := HeaderAt(p, off, nh);
      var rest := WalkIsChain(p, off + len, p[off]);
      exts := [e] + rest;
      assert exts[1..] == rest;
      HoldsBoth(p, off, ExtBytes(e, First(rest)), Chain(rest));
    }
  }

  lemma NothingHeld(p: Bytes, off: nat)
    requires off <= |p|
    ensures Holds(p, off, [])
  {
  }

  lemma OptionsHeld(p: Bytes, off: nat, e: Ext)
    requires e.Options? && IsOptionsHeader(e.kind)
    requires var len := ((e.units as nat) + 1) * 8;
             off + len <= |p| && e.units == p[off + 1] && e.body == p[off + 2..off + len]
    ensures var len := ((e.units as nat) + 1) * 8;
            ValidExt(e) && |ExtBytes(e, p[off])| == len && Holds(p, off, ExtBytes(e, p[off]))
  {
    hide Half, Holds, IsOptionsHeader;
    var len := ((e.units as nat) + 1) * 8;
    HeldTwo(p, off, p[off], e.units);
    HoldsSlice(p, off + 2, len - 2);
    HoldsBoth(p, off, [p[off], e.units], e.body);
  }

  lemma FragmentHeld(p: Bytes, off: nat, e: Ext)
    requires e.Fragment? && off + 8 <= |p| && Half(p, off + 2) & 0xFFF9 == 0
    requires e.reserved == p[off + 1] && e.position == p[off + 2..off + 4] && e.ident == p[off + 4..off + 8]
    ensures ValidExt(e) && |ExtBytes(e, p[off])| == 8 && Holds(p, off, ExtBytes(e, p[off]))
  {
    hide Half, Holds;
    HoldsSlice(p, off + 2, 2);
    HoldsHalf(p, off + 2, e.position);
    HeldTwo(p, off, p[off], e.reserved);
    HoldsBoth(p, off, [p[off], e.reserved], e.position);
    HoldsSlice(p, off + 4, 4);
    HoldsBoth(p, off, [p[off], e.reserved] + e.position, e.ident);
  }

  lemma HeldTwo(p: Bytes, off: nat, x: bv8, y: bv8)
    requires off + 2 <= |p| && p[off] == x && p[off + 1] == y
    ensures Holds(p, off, [x, y])
  {
  }

  // ---- network layer ----

  lemma NibbleBits(b: bv8)
    requires b >> 4 == 4
    ensures 0x40 | (b & 0x0F) == b && b & 0x0F <= 15
  {
  }

  /** An accepted IPv4 header is unfragmented, carries UDP and has its options in front of it. */
  lemma Ip4Is(p: Bytes, off: nat) returns (ip: Ip)
    requires ParseV4(p, off).Some?
    ensures ip.Ip4? && ValidIp(ip) && Holds(p, off, IpBytes(ip)) && off + |IpBytes(ip)| + 8 <= |p|
    ensures ParseV4(p, off) == Some(Net(Inet, ip.dst4, ip.tos & 0xFC, off + |IpBytes(ip)|))
  {
    hide Half, Holds;
    var ihl := p[off] & 0x0F;
    var n := (ihl as nat) * 4;
    NibbleBits(p[off]);
    ip := Ip4(ihl, p[off + 1], p[off + 2..off + 6], p[off + 6..off + 8], p[off + 8], p[off + 10..off + 12],
              p[off + 12..off + 16], p[off + 16..off + 20], p[off + 20..off + n]);
    HoldsSlice(p, off + 6, 2);
    HoldsHalf(p, off + 6, ip.frag);
    var a, b := [0x40 | ip.ihl, ip.tos], [ip.ttl, 17 as bv8];
    HeldTwo(p, off, 0x40 | ip.ihl, ip.tos);
    HeldTwo(p, off + 8, ip.ttl, 17);
    HoldsSlice(p, off + 2, 4);
    HoldsBoth(p, off, a, ip.lenId);
    HoldsBoth(p, off, a + ip.lenId, ip.frag);
    HoldsBoth(p, off, a + ip.lenId + ip.frag, b);
    HoldsSlice(p, off + 10, 2);
    HoldsBoth(p, off, a + ip.lenId + ip.frag + b, ip.csum);
    HoldsSlice(p, off + 12, 4);
    HoldsBoth(p, off, a + ip.lenId + ip.frag + b + ip.csum, ip.src);
    HoldsSlice(p, off + 16, 4);
    HoldsBoth(p, off, a + ip.lenId + ip.frag + b + ip.csum + ip.src, ip.dst4);
    HoldsSlice(p, off + 20, n - 20);
    HoldsBoth(p, off, a + ip.lenId + ip.frag + b + ip.csum + ip.src + ip.dst4, ip.options);
  }

  lemma ClassBits(x: bv8, y: bv8)
    requires x >> 4 == 6
    ensures var traffic, flowTop := ((x & 0x0F) << 4) | (y >> 4), y & 0x0F;
            flowTop < 16 && 0x60 | (traffic >> 4) == x && (traffic << 4) | flowTop == y
  {
  }

  /** An accepted IPv6 header is followed by skippable headers only, up to its UDP header. */
  lemma Ip6Is(p: Bytes, off: nat) returns (ip: Ip)
    requires ParseV6(p, off).Some?
    ensures ip.Ip6? && ValidIp(ip) && Holds(p, off, IpBytes(ip)) && off + |IpBytes(ip)| + 8 <= |p|
    ensures ParseV6(p, off) == Some(Net(Inet6, ip.dst6, ip.traffic & 0xFC, off + |IpBytes(ip)|))
  {
    hide WalkExt, Holds, ValidExt, Chain, First;
    var exts := WalkIsChain(p, off + 40, p[off + 6]);
    ClassBits(p[off], p[off + 1]);
    ip := Ip6(((p[off] & 0x0F) << 4) | (p[off + 1] >> 4), p[off + 1] & 0x0F, p[off + 2..off + 4], p[off + 4..off + 6],
              p[off + 7], p[off + 8..off + 24], p[off + 24..off + 40], exts);
    var a, b := [0x60 | (ip.traffic >> 4), (ip.traffic << 4) | ip.flowTop], [First(ip.exts), ip.hops];
    HeldTwo(p, off, 0x60 | (ip.traffic >> 4), (ip.traffic << 4) | ip.flowTop);
    HeldTwo(p, off + 6, First(ip.exts), ip.hops);
    HoldsSlice(p, off + 2, 2);
    HoldsBoth(p, off, a, ip.flow);
    HoldsSlice(p, off + 4, 2);
    HoldsBoth(p, off, a + ip.flow, ip.plen);
    HoldsBoth(p, off, a + ip.flow + ip.plen, b);
    HoldsSlice(p, off + 8, 16);
    HoldsBoth(p, off, a + ip.flow + ip.plen + b, ip.src6);
    HoldsSlice(p, off + 24, 16);
    HoldsBoth(p, off, a + ip.flow + ip.plen + b + ip.src6, ip.dst6);
    HoldsBoth(p, off, a + ip.flow + ip.plen + b + ip.src6 + ip.dst6, Chain(ip.exts));
  }

  // ---- link layer ----

  lemma LinkIs(p: Bytes) returns (macs: Bytes, tag: Option<Bytes2>, off: nat)
    requires |p| >= 14 && (Half(p, 12) == ETH_P_8021Q ==> |p| >= 18)
    ensures off == (if Half(p, 12) == ETH_P_8021Q then 18 else 14)
    ensures |macs| == 12 && |p| >= off
    ensures var front := macs + (if tag.Some? then [0x81, 0x00] + tag.value else []);
            Holds(p, 0, front) && |front| == off - 2
  {
    hide Half, Holds;
    macs := p[..12];
    HoldsSlice(p, 0, 12);
    if Half(p, 12) == ETH_P_8021Q {
      tag, off := Some(p[14..16]), 18;
      HalfIs(p, 12, 0x81, 0x00);
      HeldTwo(p, 12, 0x81, 0x00);
      HoldsSlice(p, 14, 2);
      HoldsBoth(p, 12, [0x81, 0x00], tag.value);
      HoldsBoth(p, 0, macs, [0x81, 0x00] + tag.value);
    } else {
      tag, off := None, 14;
      assert macs + [] == macs;
    }
  }

  lemma HalfIs(p: Bytes, off: nat, x: bv8, y: bv8)
    requires off + 2 <= |p| && Half(p, off) == ((x as bv32) << 8) | (y as bv32)
    ensures p[off] == x && p[off + 1] == y
  {
  }

  /** What the network parser accepts are built headers with room for a UDP header behind them. */
  lemma NetIs(p: Bytes) returns (macs: Bytes, tag: Option<Bytes2>, ip: Ip)
    requires ParseNet(p).Some?
    ensures |macs| == 12 && ValidIp(ip) && Holds(p, 0, Link(macs, tag, ip) + IpBytes(ip))
    ensures var udp := |Link(macs, tag, ip)| + |IpBytes(ip)|;
            && udp + 8 <= |p|
            && ParseNet(p) == Some(if ip.Ip4? then Net(Inet, ip.dst4, ip.tos & 0xFC, udp)
                                   else Net(Inet6, ip.dst6, ip.traffic & 0xFC, udp))
  {
    hide Half, Holds, ParseV4, ParseV6, IpBytes, ValidIp;
    var off;
    macs, tag, off := LinkIs(p);
    var front := macs + (if tag.Some? then [0x81, 0x00] + tag.value else []);
    if Half(p, off - 2) == ETH_P_IP {
      ip := Ip4Is(p, off);
      HalfIs(p, off - 2, 0x08, 0x00);
      HeldTwo(p, off - 2, 0x08, 0x00);
      HoldsBoth(p, 0, front, [0x08, 0x00]);
    } else {
      ip := Ip6Is(p, off);
      HalfIs(p, off - 2, 0x86, 0xDD);
      HeldTwo(p, off - 2, 0x86, 0xDD);
      HoldsBoth(p, 0, front, [0x86, 0xDD]);
    }
    HoldsBoth(p, 0, Link(macs, tag, ip), IpBytes(ip));
  }

  // ---- RTP ----

  lemma FirstBits(b: bv8)
    requires b >> 6 == 2
    ensures b == 0x80 | (b & 0x20) | (b & 0x10) | (b & 0x0F) && b & 0x0F < 16
    ensures (b & 0x20 == 0 || b & 0x20 == 0x20) && (b & 0x10 == 0 || b & 0x10 == 0x10)
  {
  }

  /** The header extension at offset n. */
  lemma ExtensionIs(b: Bytes, n: nat) returns (ext: RtpExt)
    requires n + 4 <= |b| && n + 4 + 4 * Be16(b, n + 2) <= |b|
    ensures ext.RtpExt? && |ext.data| == 4 * Be16(ext.words, 0)
    ensures |RtpExtBytes(ext)| == 4 + 4 * Be16(b, n + 2) && Holds(b, n, RtpExtBytes(ext))
  {
    hide Holds, Half, Be16;
    var len := 4 * Be16(b, n + 2);
    ext := RtpExt(b[n..n + 2], b[n + 2..n + 4], b[n + 4..n + 4 + len]);
    HoldsSlice(b, n, 2);
    HoldsSlice(b, n + 2, 2);
    HoldsSlice(b, n + 4, len);
    HoldsBoth(b, n, ext.profile, ext.words);
    HoldsBoth(b, n, ext.profile + ext.words, ext.data);
    HoldsHalf(b, n + 2, ext.words);
  }

  /** Where the payload begins, and what stands before it. */
  lemma HeaderIs(b: Bytes) returns (csrc: Bytes, ext: RtpExt)
    requires RtpPayloadOffset(b).Some? && RtpPayloadOffset(b).value <= |b|
    ensures b[0] >> 6 == 2 && |csrc| == 4 * ((b[0] & 0x0F) as nat)
    ensures ext.RtpExt? <==> b[0] & 0x10 != 0
    ensures ext.RtpExt? ==> |ext.data| == 4 * Be16(ext.words, 0)
    ensures RtpPayloadOffset(b).value == 12 + |csrc| + |RtpExtBytes(ext)|
    ensures Holds(b, 12, csrc) && Holds(b, 12 + |csrc|, RtpExtBytes(ext))
  {
    hide Holds, Be16;
    var n := 12 + 4 * ((b[0] & 0x0F) as nat);
    csrc := b[12..n];
    HoldsSlice(b, 12, n - 12);
    if b[0] & 0x10 != 0 {
      ext := ExtensionIs(b, n);
    } else {
      ext := NoExt;
      NothingHeld(b, n);
    }
  }

  lemma HeldAll(p: Bytes, s: Bytes)
    requires Holds(p, 0, s) && |s| == |p|
    ensures p == s
  {
  }

  lemma FirstIs(b: bv8, r: Rtp)
    requires b >> 6 == 2 && r.cc == b & 0x0F && (r.ext.RtpExt? <==> b & 0x10 != 0) && (r.pad != [] <==> b & 0x20 != 0)
    ensures RtpFirst(r) == b && r.cc < 16
  {
    FirstBits(b);
  }

  /** The payload and the padding behind it. */
  lemma PayloadIs(b: Bytes, ts: Bytes) returns (off: nat, pad: Bytes)
    requires RtpTsPayload(b) == Some(ts) && ts != []
    ensures RtpPayloadOffset(b) == Some(off) && off <= |b| && Holds(b, off, ts + pad) && off + |ts + pad| == |b|
    ensures ts[0] == 0x47 && (pad != [] <==> b[0] & 0x20 != 0) && (pad != [] ==> pad[|pad| - 1] as nat == |pad|)
  {
    hide RtpPayloadOffset, Holds;
    off := RtpPayloadOffset(b).value;
    var end := off + |ts|;
    pad := b[end..];
    assert ts + pad == b[off..|b|];
    HoldsSlice(b, off, |b| - off);
  }

  /** A payload that is not empty comes out of a packet the builder makes. */
  lemma RtpIs(b: Bytes, ts: Bytes) returns (r: Rtp)
    requires RtpTsPayload(b) == Some(ts) && ts != []
    ensures ValidRtp(r) && RtpBytes(r) == b && r.payload == ts
  {
    hide Holds, RtpTsPayload, RtpPayloadOffset, RtpExtBytes, RtpFirst;
    var off, pad := PayloadIs(b, ts);
    var csrc, ext := HeaderIs(b);
    r := Rtp(b[0] & 0x0F, b[1], b[2..4], b[4..8], b[8..12], csrc, ext, ts, pad);
    FirstIs(b[0], r);
    HeldTwo(b, 0, b[0], b[1]);
    HoldsSlice(b, 2, 2);
    HoldsBoth(b, 0, [RtpFirst(r), r.marker], r.seqno);
    HoldsSlice(b, 4, 4);
    HoldsBoth(b, 0, [RtpFirst(r), r.marker] + r.seqno, r.ts);
    HoldsSlice(b, 8, 4);
    HoldsBoth(b, 0, [RtpFirst(r), r.marker] + r.seqno + r.ts, r.ssrc);
    HoldsBoth(b, 12 + |csrc|, RtpExtBytes(ext), ts + pad);
    HoldsBoth(b, 12, csrc, RtpExtBytes(ext) + (ts + pad));
    HoldsBoth(b, 0, RtpFixed(r), csrc + (RtpExtBytes(ext) + (ts + pad)));
    HeldAll(b, RtpBytes(r));
  }

  // ---- the whole frame ----

  /** The UDP header, what its length covers, and what is left. */
  lemma TailIs(p: Bytes, at: nat) returns (udp: Udp, b: Bytes, filler: Bytes)
    requires at + 8 <= |p| && Be16(p, at + 4) >= 8
    ensures var len := Be16(p, at + 4); b == p[at + 8..if at + len > |p| then |p| else at + len]
    ensures Holds(p, at, UdpBytes(udp) + (b + filler)) && at + 8 + |b + filler| == |p|
    ensures UdpCovers(Be16(udp.len, 0), |b|, filler)
  {
    hide Holds, Be16;
    udp := Udp(p[at..at + 2], p[at + 2..at + 4], p[at + 4..at + 6], p[at + 6..at + 8]);
    HoldsSlice(p, at + 4, 2);
    HoldsHalf(p, at + 4, udp.len);
    var len := Be16(p, at + 4);
    var end := if at + len > |p| then |p| else at + len;
    b, filler := p[at + 8..end], p[end..];
    assert UdpBytes(udp) == p[at..at + 8];
    assert b + filler == p[at + 8..|p|];
    HoldsSlice(p, at, 8);
    HoldsSlice(p, at + 8, |p| - (at + 8));
    HoldsBoth(p, at, UdpBytes(udp), b + filler);
  }

  /** Every frame delivered with a payload is a built one. */
  lemma DeliveredIs(p: Bytes, ranges: seq<Range>) returns (d: Packet)
    requires Parse(p, ranges).Some? && Parse(p, ranges).value.payload != []
    ensures ValidPacket(d) && FrameBytes(d) == p
  {
    hide Holds, Half, Be16, ParseNet, RtpTsPayload, InRanges, IpBytes, Link, ValidIp, ValidRtp, RtpBytes, WordAt,
         UdpBytes, UdpCovers;
    var macs, tag, ip := NetIs(p);
    var link, head := Link(macs, tag, ip), IpBytes(ip);
    var at := |link| + |head|;
    var udp, b, filler := TailIs(p, at);
    var rtp := RtpIs(b, Parse(p, ranges).value.payload);
    d := Packet(macs, tag, ip, udp, rtp, filler);
    FrameIs(p, d);
  }

  lemma FrameIs(p: Bytes, d: Packet)
    requires Holds(p, 0, Link(d.macs, d.tag, d.ip) + IpBytes(d.ip))
    requires var at := |Link(d.macs, d.tag, d.ip)| + |IpBytes(d.ip)|;
             var tail := UdpBytes(d.udp) + (RtpBytes(d.rtp) + d.filler);
             Holds(p, at, tail) && at + |tail| == |p|
    ensures FrameBytes(d) == p
  {
    hide Holds, Link, IpBytes, UdpBytes, RtpBytes;
    var link, head := Link(d.macs, d.tag, d.ip), IpBytes(d.ip);
    var tail := UdpBytes(d.udp) + (RtpBytes(d.rtp) + d.filler);
    HoldsParts(p, 0, link, head);
    HoldsBoth(p, |link|, head, tail);
    HoldsBoth(p, 0, link, head + tail);
    HeldAll(p, FrameBytes(d));
  }

  /**
   * Exactly which frames are delivered with a payload, and what is delivered: the built ones whose
   * destination is in range, with their contents.
   */
  lemma DeliveredIff(p: Bytes, ranges: seq<Range>, out: Delivery)
    requires out.payload != []
    ensures Parse(p, ranges) == Some(out)
       <==> exists d: Packet :: && ValidPacket(d) && FrameBytes(d) == p && Expected(d) == out
                                && InRanges(out.family, out.dst, ranges)
  {
    hide Parse, ValidPacket, FrameBytes, Expected, InRanges;
    if Parse(p, ranges) == Some(out) {
      var d := DeliveredIs(p, ranges);
      ParseBuilt(d, ranges);
    }
    if d: Packet :|
      && ValidPacket(d) && FrameBytes(d) == p && Expected(d) == out && InRanges(out.family, out.dst, ranges) {
      ParseBuilt(d, ranges);
    }
  }

  // ---- network byte order ----

  /** A 16-bit field as a number, high byte first. */
  lemma FieldValue(p: Bytes, off: nat)
    requires off + 2 <= |p|
    ensures p[off] as nat == Be16(p, off) / 256 && p[off + 1] as nat == Be16(p, off) % 256
  {
  }

  /** A 32-bit field is its two halves, the high one first. */
  lemma WordValue(p: Bytes, off: nat)
    requires off + 4 <= |p|
    ensures WordAt(p, off) == (Half(p, off) << 16) | Half(p, off + 2)
  {
  }
}
