/**
 A reference builder for the frames the capture path is meant to deliver, and the
 proof that parsing such a frame gives back exactly what went into it: any MACs,
 an optional VLAN tag, IPv4 options, any chain of skippable IPv6 extension
 headers, RTP CSRC lists, header extension and padding, and Ethernet padding.
 */
module FrameRoundTrip {
  import opened Wrappers
  import opened Cidr
  import opened Bpf
  import opened Frame

  type Bytes2 = b: Bytes | |b| == 2 witness [0, 0]

  // ---- builder ----

  datatype Ext =
    | Options(kind: bv8, units: bv8, body: Bytes)
    | Fragment(reserved: bv8, position: Bytes2, ident: Addr4)

  ghost predicate ValidExt(e: Ext) {
    match e
    case Options(kind, units, body) => IsOptionsHeader(kind) && |body| == 8 * (units as nat) + 6
    case Fragment(_, position, _) => Half(position, 0) & 0xFFF9 == 0
  }

  function First(exts: seq<Ext>): bv8 {
    if exts == [] then 17 else if exts[0].Options? then exts[0].kind else 44
  }

  function ExtBytes(e: Ext, next: bv8): Bytes {
    match e
    case Options(_, units, body) => [next, units] + body
    case Fragment(reserved, position, ident) => [next, reserved] + position + ident
  }

  function Chain(exts: seq<Ext>): Bytes {
    if exts == [] then [] else ExtBytes(exts[0], First(exts[1..])) + Chain(exts[1..])
  }

  datatype Ip =
    | Ip4(ihl: bv8, tos: bv8, lenId: Addr4, frag: Bytes2, ttl: bv8, csum: Bytes2, src: Addr4, dst4: Addr4,
          options: Bytes)
    | Ip6(traffic: bv8, flowTop: bv8, flow: Bytes2, plen: Bytes2, hops: bv8, src6: Addr16, dst6: Addr16, exts: seq<Ext>)

  ghost predicate ValidIp(ip: Ip) {
    match ip
    case Ip4(ihl, _, _, frag, _, _, _, _, options) =>
      5 <= ihl <= 15 && |options| == 4 * (ihl as nat) - 20 && Half(frag, 0) & 0x3FFF == 0
    case Ip6(_, flowTop, _, _, _, _, _, exts) =>
      flowTop < 16 && forall i :: 0 <= i < |exts| ==> ValidExt(exts[i])
  }

  function IpBytes(ip: Ip): Bytes {
    match ip
    case Ip4(ihl, tos, lenId, frag, ttl, csum, src, dst, options) =>
      [0x40 | ihl, tos] + lenId + frag + [ttl, 17] + csum + src + dst + options
    case Ip6(traffic, flowTop, flow, plen, hops, src, dst, exts) =>
      [0x60 | (traffic >> 4), (traffic << 4) | flowTop] + flow + plen + [First(exts), hops] + src + dst + Chain(exts)
  }

  datatype RtpExt = NoExt | RtpExt(profile: Bytes2, words: Bytes2, data: Bytes)
  datatype Rtp = Rtp(cc: bv8, marker: bv8, seqno: Bytes2, ts: Addr4, ssrc: Addr4, csrc: Bytes, ext: RtpExt,
                     payload: Bytes, pad: Bytes)

  ghost predicate ValidRtp(r: Rtp) {
    && r.cc < 16 && |r.csrc| == 4 * (r.cc as nat)
    && (r.ext.RtpExt? ==> |r.ext.data| == 4 * Be16(r.ext.words, 0))
    && r.payload != [] && r.payload[0] == 0x47
    && (r.pad != [] ==> r.pad[|r.pad| - 1] as nat == |r.pad|)
  }

  function RtpFirst(r: Rtp): bv8 {
    0x80 | (if r.pad != [] then 0x20 else 0) | (if r.ext.RtpExt? then 0x10 else 0) | r.cc
  }

  function RtpFixed(r: Rtp): (h: Bytes)
    ensures |h| == 12
  {
    [RtpFirst(r), r.marker] + r.seqno + r.ts + r.ssrc
  }

  function RtpExtBytes(x: RtpExt): Bytes {
    if x.NoExt? then [] else x.profile + x.words + x.data
  }

  function RtpBytes(r: Rtp): Bytes {
    RtpFixed(r) + (r.csrc + (RtpExtBytes(r.ext) + (r.payload + r.pad)))
  }

  datatype Udp = Udp(sport: Bytes2, dport: Bytes2, len: Bytes2, csum: Bytes2)

  function UdpBytes(u: Udp): (h: Bytes)
    ensures |h| == 8
  {
    u.sport + u.dport + u.len + u.csum
  }

  datatype Packet = Packet(macs: Bytes, tag: Option<Bytes2>, ip: Ip, udp: Udp, rtp: Rtp, filler: Bytes)

  ghost predicate ValidPacket(d: Packet) {
    && |d.macs| == 12 && ValidIp(d.ip) && ValidRtp(d.rtp)
    && UdpCovers(Be16(d.udp.len, 0), |RtpBytes(d.rtp)|, d.filler)
  }

  /** Ethernet padding follows what the UDP length covers, or the capture cut the frame short. */
  ghost predicate UdpCovers(len: nat, rtp: nat, filler: Bytes) {
    len == 8 + rtp || (len > 8 + rtp && filler == [])
  }

  function Link(macs: Bytes, tag: Option<Bytes2>, ip: Ip): Bytes {
    macs + (if tag.Some? then [0x81, 0x00] + tag.value else []) + (if ip.Ip4? then [0x08, 0x00] else [0x86, 0xDD])
  }

  function LinkBytes(d: Packet): Bytes { Link(d.macs, d.tag, d.ip) }

  function FrameBytes(d: Packet): Bytes {
    LinkBytes(d) + (IpBytes(d.ip) + (UdpBytes(d.udp) + (RtpBytes(d.rtp) + d.filler)))
  }

  function Expected(d: Packet): Delivery {
    var (family, dst, dscp) := if d.ip.Ip4? then (Inet, d.ip.dst4, d.ip.tos & 0xFC)
      else (Inet6, d.ip.dst6, d.ip.traffic & 0xFC);
    Delivery(family, dst, Be16(d.udp.dport, 0), dscp, WordAt(d.rtp.ssrc, 0), Half(d.rtp.seqno, 0),
             WordAt(d.rtp.ts, 0), d.rtp.payload)
  }

  // ---- slices ----

  ghost predicate Holds(p: Bytes, off: nat, s: Bytes) {
    off + |s| <= |p| && forall i {:trigger s[i]} {:trigger p[off + i]} :: 0 <= i < |s| ==> p[off + i] == s[i]
  }

  lemma HoldsParts(p: Bytes, off: nat, x: Bytes, y: Bytes)
    requires Holds(p, off, x + y)
    ensures Holds(p, off, x) && Holds(p, off + |x|, y)
  {
    assert forall i :: 0 <= i < |x| ==> (x + y)[i] == x[i];
    assert forall i :: 0 <= i < |y| ==> (x + y)[|x| + i] == y[i];
  }

  lemma HoldsWhole(p: Bytes, off: nat, s: Bytes)
    requires Holds(p, off, s)
    ensures p[off..off + |s|] == s
  {}

  lemma HoldsHalf(p: Bytes, off: nat, s: Bytes2)
    requires Holds(p, off, s)
    ensures Half(p, off) == Half(s, 0) && Be16(p, off) == Be16(s, 0)
  {
    assert p[off + 0] == s[0] && p[off + 1] == s[1];
  }

  lemma HoldsWord(p: Bytes, off: nat, s: Addr4)
    requires Holds(p, off, s)
    ensures WordAt(p, off) == WordAt(s, 0)
  {
    hide Word;
    assert p[off + 0] == s[0] && p[off + 1] == s[1] && p[off + 2] == s[2] && p[off + 3] == s[3];
  }

  // ---- extension headers ----

  lemma ExtLen(e: Ext, next: bv8)
    requires ValidExt(e)
    ensures |ExtBytes(e, next)| == if e.Options? then ((e.units as nat) + 1) * 8 else 8
  {}

  /** Walking a built chain ends at its UDP header, whatever headers it is made of. */
  lemma {:induction false} WalkChain(p: Bytes, off: nat, exts: seq<Ext>)
    requires Holds(p, off, Chain(exts))
    requires forall i :: 0 <= i < |exts| ==> ValidExt(exts[i])
    ensures WalkExt(p, off, First(exts)) == Some(off + |Chain(exts)|)
    decreases |exts|
  {
    hide ExtBytes, WalkExt, ValidExt, Holds;
    if exts == [] {
      WalkUdp(p, off);
    } else {
      var e, next, rest := exts[0], First(exts[1..]), Chain(exts[1..]);
      HoldsParts(p, off, ExtBytes(e, next), rest);
      WalkOne(p, off, e, next);
      WalkChain(p, off + |ExtBytes(e, next)|, exts[1..]);
    }
  }

  lemma WalkUdp(p: Bytes, off: nat)
    ensures WalkExt(p, off, 17) == Some(off)
  {}

  lemma WalkOne(p: Bytes, off: nat, e: Ext, next: bv8)
    requires ValidExt(e) && Holds(p, off, ExtBytes(e, next))
    ensures WalkExt(p, off, First([e])) == WalkExt(p, off + |ExtBytes(e, next)|, next)
  {
    hide Half;
    var head := ExtBytes(e, next);
    ExtLen(e, next);
    assert p[off + 0] == head[0] == next;
    if e.Options? {
      assert p[off + 1] == head[1] == e.units;
    } else {
      assert head == [next, e.reserved] + (e.position + e.ident);
      HoldsParts(p, off, [next, e.reserved], e.position + e.ident);
      HoldsParts(p, off + 2, e.position, e.ident);
      HoldsHalf(p, off + 2, e.position);
    }
  }

  // ---- RTP ----

  lemma RtpFirstBits(r: Rtp)
    requires r.cc < 16
    ensures RtpFirst(r) >> 6 == 2 && RtpFirst(r) & 0x0F == r.cc
    ensures (RtpFirst(r) & 0x10 == 0) == r.ext.NoExt?
    ensures (RtpFirst(r) & 0x20 == 0) == (r.pad == [])
  {}

  lemma RtpSlices(r: Rtp)
    ensures var b := RtpBytes(r); var n := 12 + |r.csrc|;
            && |b| == n + |RtpExtBytes(r.ext)| + |r.payload| + |r.pad|
            && b[0] == RtpFirst(r)
            && Holds(b, 2, r.seqno) && Holds(b, 4, r.ts) && Holds(b, 8, r.ssrc)
            && Holds(b, n, RtpExtBytes(r.ext))
            && Holds(b, n + |RtpExtBytes(r.ext)|, r.payload)
            && Holds(b, n + |RtpExtBytes(r.ext)| + |r.payload|, r.pad)
  {
    hide RtpFirst, RtpExtBytes;
    var b, x := RtpBytes(r), RtpExtBytes(r.ext);
    assert Holds(b, 0, b);
    HoldsParts(b, 0, RtpFixed(r), r.csrc + (x + (r.payload + r.pad)));
    HoldsParts(b, 12, r.csrc, x + (r.payload + r.pad));
    HoldsParts(b, 12 + |r.csrc|, x, r.payload + r.pad);
    HoldsParts(b, 12 + |r.csrc| + |x|, r.payload, r.pad);
    HoldsParts(b, 0, [RtpFirst(r), r.marker] + r.seqno + r.ts, r.ssrc);
    HoldsParts(b, 0, [RtpFirst(r), r.marker] + r.seqno, r.ts);
    HoldsParts(b, 0, [RtpFirst(r), r.marker], r.seqno);
    assert b[0 + 0] == [RtpFirst(r), r.marker][0];
  }

  lemma RtpOffset(r: Rtp)
    requires ValidRtp(r)
    ensures RtpPayloadOffset(RtpBytes(r)) == Some(12 + |r.csrc| + |RtpExtBytes(r.ext)|)
  {
    hide RtpFirst, RtpBytes;
    RtpSlices(r);
    RtpFirstBits(r);
    if r.ext.RtpExt? {
      var b, n := RtpBytes(r), 12 + |r.csrc|;
      HoldsParts(b, n, r.ext.profile + r.ext.words, r.ext.data);
      HoldsParts(b, n, r.ext.profile, r.ext.words);
      HoldsHalf(b, n + 2, r.ext.words);
    }
  }

  lemma RtpRoundTrip(r: Rtp)
    requires ValidRtp(r)
    ensures var b := RtpBytes(r);
            && RtpTsPayload(b) == Some(r.payload)
            && Half(b, 2) == Half(r.seqno, 0) && WordAt(b, 4) == WordAt(r.ts, 0) && WordAt(b, 8) == WordAt(r.ssrc, 0)
  {
    hide RtpFirst, RtpBytes, RtpExtBytes, RtpPayloadOffset, WordAt, Half, Be16;
    var b := RtpBytes(r);
    RtpSlices(r);
    RtpFirstBits(r);
    RtpOffset(r);
    HoldsHalf(b, 2, r.seqno);
    HoldsWord(b, 4, r.ts);
    HoldsWord(b, 8, r.ssrc);
    var off := 12 + |r.csrc| + |RtpExtBytes(r.ext)|;
    assert b[off + 0] == r.payload[0];
    HoldsWhole(b, off, r.payload);
    if r.pad != [] {
      assert b[off + |r.payload| + (|r.pad| - 1)] == r.pad[|r.pad| - 1];
    }
  }

  // ---- network layer ----

  lemma Ip4RoundTrip(p: Bytes, off: nat, ip: Ip)
    requires ip.Ip4? && ValidIp(ip)
    requires Holds(p, off, IpBytes(ip)) && off + |IpBytes(ip)| + 8 <= |p|
    ensures ParseV4(p, off) == Some(Net(Inet, ip.dst4, ip.tos & 0xFC, off + |IpBytes(ip)|))
  {
    hide Half;
    var a := [0x40 | ip.ihl, ip.tos];
    var b := [ip.ttl, 17 as bv8];
    HoldsParts(p, off, a + ip.lenId + ip.frag + b + ip.csum + ip.src + ip.dst4, ip.options);
    HoldsParts(p, off, a + ip.lenId + ip.frag + b + ip.csum + ip.src, ip.dst4);
    HoldsParts(p, off, a + ip.lenId + ip.frag + b + ip.csum, ip.src);
    HoldsParts(p, off, a + ip.lenId + ip.frag + b, ip.csum);
    HoldsParts(p, off, a + ip.lenId + ip.frag, b);
    HoldsParts(p, off, a + ip.lenId, ip.frag);
    HoldsParts(p, off, a, ip.lenId);
    HoldsHalf(p, off + 6, ip.frag);
    HoldsWhole(p, off + 16, ip.dst4);
    assert p[off + 0] == a[0] && p[off + 1] == a[1] && p[off + 8 + 1] == b[1];
    IhlBits(ip.ihl);
  }

  lemma IhlBits(ihl: bv8)
    requires ihl <= 15
    ensures (0x40 | ihl) >> 4 == 4 && (0x40 | ihl) & 0x0F == ihl
  {}

  lemma TrafficBits(traffic: bv8, flowTop: bv8)
    requires flowTop < 16
    ensures (0x60 | (traffic >> 4)) >> 4 == 6
    ensures (((0x60 | (traffic >> 4)) & 0x0F) << 4) | (((traffic << 4) | flowTop) >> 4) == traffic
  {}

  lemma Ip6RoundTrip(p: Bytes, off: nat, ip: Ip)
    requires ip.Ip6? && ValidIp(ip)
    requires Holds(p, off, IpBytes(ip)) && off + |IpBytes(ip)| + 8 <= |p|
    ensures ParseV6(p, off) == Some(Net(Inet6, ip.dst6, ip.traffic & 0xFC, off + |IpBytes(ip)|))
  {
    hide WalkExt, Chain, First;
    var a := [0x60 | (ip.traffic >> 4), (ip.traffic << 4) | ip.flowTop];
    var b := [First(ip.exts), ip.hops];
    HoldsParts(p, off, a + ip.flow + ip.plen + b + ip.src6 + ip.dst6, Chain(ip.exts));
    HoldsParts(p, off, a + ip.flow + ip.plen + b + ip.src6, ip.dst6);
    HoldsParts(p, off, a + ip.flow + ip.plen + b, ip.src6);
    HoldsParts(p, off, a + ip.flow + ip.plen, b);
    HoldsParts(p, off, a + ip.flow, ip.plen);
    HoldsParts(p, off, a, ip.flow);
    HoldsWhole(p, off + 24, ip.dst6);
    assert p[off + 0] == a[0] && p[off + 1] == a[1] && p[off + 6 + 0] == b[0];
    TrafficBits(ip.traffic, ip.flowTop);
    WalkChain(p, off + 40, ip.exts);
  }

  lemma LinkSlices(p: Bytes, d: Packet)
    requires |d.macs| == 12 && Holds(p, 0, LinkBytes(d))
    ensures var off := |LinkBytes(d)|;
            && Half(p, off - 2) == (if d.ip.Ip4? then ETH_P_IP else ETH_P_IPV6)
            && off == (if Half(p, 12) == ETH_P_8021Q then 18 else 14)
  {
    hide Half;
    KindHalves();
    var kind: Bytes2 := if d.ip.Ip4? then [0x08, 0x00] else [0x86, 0xDD];
    var tag: Bytes := if d.tag.Some? then [0x81, 0x00] + d.tag.value else [];
    HoldsParts(p, 0, d.macs + tag, kind);
    HoldsParts(p, 0, d.macs, tag);
    HoldsHalf(p, 12 + |tag|, kind);
    if d.tag.Some? {
      HoldsParts(p, 12, [0x81, 0x00], d.tag.value);
      HoldsHalf(p, 12, [0x81, 0x00]);
    }
  }

  lemma KindHalves()
    ensures Half([0x08, 0x00], 0) == ETH_P_IP && Half([0x86, 0xDD], 0) == ETH_P_IPV6
            && Half([0x81, 0x00], 0) == ETH_P_8021Q
  {}

  lemma BuiltSlices(d: Packet)
    ensures var p := FrameBytes(d); var link, ip, rtp := |LinkBytes(d)|, |IpBytes(d.ip)|, |RtpBytes(d.rtp)|;
            && |p| == link + ip + 8 + rtp + |d.filler|
            && Holds(p, 0, LinkBytes(d)) && Holds(p, link, IpBytes(d.ip))
            && Holds(p, link + ip, UdpBytes(d.udp)) && Holds(p, link + ip + 8, RtpBytes(d.rtp))
  {
    hide LinkBytes, IpBytes, UdpBytes, RtpBytes;
    var p := FrameBytes(d);
    var link, ip, udp, rtp := LinkBytes(d), IpBytes(d.ip), UdpBytes(d.udp), RtpBytes(d.rtp);
    assert Holds(p, 0, p);
    HoldsParts(p, 0, link, ip + (udp + (rtp + d.filler)));
    HoldsParts(p, |link|, ip, udp + (rtp + d.filler));
    HoldsParts(p, |link| + |ip|, udp, rtp + d.filler);
    HoldsParts(p, |link| + |ip| + 8, rtp, d.filler);
  }

  lemma NetOfBuilt(d: Packet)
    requires ValidPacket(d)
    ensures ParseNet(FrameBytes(d))
         == Some(Net(Expected(d).family, Expected(d).dst, Expected(d).dscp, |LinkBytes(d)| + |IpBytes(d.ip)|))
  {
    hide LinkBytes, IpBytes, UdpBytes, RtpBytes, WordAt, Half, Be16, ParseV4, ParseV6, ValidIp, ValidRtp, FrameBytes,
         Holds;
    var p := FrameBytes(d);
    BuiltSlices(d);
    LinkSlices(p, d);
    if d.ip.Ip4? {
      Ip4RoundTrip(p, |LinkBytes(d)|, d.ip);
    } else {
      Ip6RoundTrip(p, |LinkBytes(d)|, d.ip);
    }
  }

  /** Parsing a built frame delivers exactly its contents when its destination is in range,
      and nothing otherwise. */
  lemma ParseBuilt(d: Packet, ranges: seq<Range>)
    requires ValidPacket(d)
    ensures Parse(FrameBytes(d), ranges)
         == if InRanges(Expected(d).family, Expected(d).dst, ranges) then Some(Expected(d)) else None
  {
    hide LinkBytes, IpBytes, UdpBytes, RtpBytes, RtpTsPayload, WordAt, Half, Be16, InRanges, ParseNet, ValidIp,
         ValidRtp, FrameBytes, Holds;
    var p, udp := FrameBytes(d), |LinkBytes(d)| + |IpBytes(d.ip)|;
    BuiltSlices(d);
    NetOfBuilt(d);
    UdpSlices(p, udp, d.udp);
    HoldsWhole(p, udp + 8, RtpBytes(d.rtp));
    RtpRoundTrip(d.rtp);
  }

  lemma UdpSlices(p: Bytes, off: nat, u: Udp)
    requires Holds(p, off, UdpBytes(u))
    ensures Be16(p, off + 2) == Be16(u.dport, 0) && Be16(p, off + 4) == Be16(u.len, 0)
  {
    HoldsParts(p, off, u.sport + u.dport + u.len, u.csum);
    HoldsParts(p, off, u.sport + u.dport, u.len);
    HoldsParts(p, off, u.sport, u.dport);
    HoldsHalf(p, off + 2, u.dport);
    HoldsHalf(p, off + 4, u.len);
  }
}
