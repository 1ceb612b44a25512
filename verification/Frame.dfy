/**
 Userspace frame parsing (src/dipifccret/capture/frame.c): Ethernet with an
 optional single VLAN tag, IPv4 or IPv6 with extension headers, UDP, RTP. The
 parser is proved total and in bounds, to deliver only frames the compiled
 kernel filter accepts, and to recover every field of a well-formed frame.
 */
module Frame {
  import opened Wrappers
  import opened Cidr
  import opened Bpf

  datatype Delivery = Delivery(family: Family, dst: Bytes, dport: nat, dscp: bv8,
                               ssrc: bv32, seqno: bv32, timestamp: bv32, payload: Bytes)

  function Be16(b: Bytes, off: nat): (n: nat)
    requires off + 2 <= |b|
  {
    (b[off] as nat) * 256 + (b[off + 1] as nat)
  }

  // ---- RTP (src/lib/demux/rtp.c) ----

  /** Offset of the RTP payload: fixed header, CSRC list, header extension. */
  function RtpPayloadOffset(r: Bytes): Option<nat> {
    if |r| < 12 || (r[0] >> 6) != 2 then None
    else
      var off := 12 + ((r[0] & 0x0F) as nat) * 4;
      if r[0] & 0x10 == 0 then Some(off)
      else if |r| < off + 4 then None
      else Some(off + 4 + Be16(r, off + 2) * 4)
  }

  /** rtp_ts_payload: only a payload starting with the TS sync byte; RTP padding dropped. */
  function RtpTsPayload(r: Bytes): Option<Bytes> {
    match RtpPayloadOffset(r)
    case None => None
    case Some(off) =>
      if off >= |r| || r[off] != 0x47 then None
      else
        var pad := if r[0] & 0x20 == 0 then 0
                   else
                     var last := r[|r| - 1] as nat;
                     if last == 0 || last > |r| - off then |r| - off else last;
        Some(r[off..|r| - pad])
  }

  // ---- IPv6 extension headers ----

  predicate IsOptionsHeader(nh: bv8) { nh == 0 || nh == 60 || nh == 43 }

  /** Where the UDP header starts, if the chain from `off` ends in one. */
  function WalkExt(p: Bytes, off: nat, nh: bv8): Option<nat>
    decreases |p| - off
  {
    if nh == 17 then Some(off)
    else if IsOptionsHeader(nh) then
      if |p| < off + 2 then None else WalkExt(p, off + ((p[off + 1] as nat) + 1) * 8, p[off])
    else if nh == 44 then
      if |p| < off + 8 || Half(p, off + 2) & 0xFFF9 != 0 then None else WalkExt(p, off + 8, p[off])
    else None
  }

  method WalkExtHeaders(p: Bytes, start: nat, first: bv8) returns (udp: Option<nat>)
    ensures udp == WalkExt(p, start, first)
  {
    var off, nh := start, first;
    while true
      invariant WalkExt(p, start, first) == WalkExt(p, off, nh)
      decreases |p| - off
    {
      if nh == 17 {
        return Some(off);
      } else if IsOptionsHeader(nh) {
        if |p| < off + 2 {
          return None;
        }
        off, nh := off + ((p[off + 1] as nat) + 1) * 8, p[off];
      } else if nh == 44 {
        if |p| < off + 8 || Half(p, off + 2) & 0xFFF9 != 0 {
          return None;
        }
        off, nh := off + 8, p[off];
      } else {
        return None;
      }
    }
  }

  // ---- the whole frame ----

  datatype Net = Net(family: Family, dst: Bytes, dscp: bv8, udp: nat)

  function ParseV4(p: Bytes, ip: nat): (n: Option<Net>)
    ensures n.Some? ==> |p| >= ip + 20 && n.value.dst == p[ip + 16..ip + 20] && n.value.family == Inet
    ensures n.Some? ==> n.value.udp + 8 <= |p|
  {
    if |p| < ip + 20 || (p[ip] >> 4) != 4 then None
    else
      var ihl := ((p[ip] & 0x0F) as nat) * 4;
      if ihl < 20 || p[ip + 9] != 17 || |p| < ip + ihl + 8 || Half(p, ip + 6) & 0x3FFF != 0 then None
      else Some(Net(Inet, p[ip + 16..ip + 20], p[ip + 1] & 0xFC, ip + ihl))
  }

  function ParseV6(p: Bytes, ip: nat): (n: Option<Net>)
    ensures n.Some? ==> |p| >= ip + 40 && n.value.dst == p[ip + 24..ip + 40] && n.value.family == Inet6
    ensures n.Some? ==> n.value.udp + 8 <= |p|
  {
    if |p| < ip + 40 || (p[ip] >> 4) != 6 then None
    else
      var dscp := (((p[ip] & 0x0F) << 4) | (p[ip + 1] >> 4)) & 0xFC;
      match WalkExt(p, ip + 40, p[ip + 6])
      case None => None
      case Some(udp) => if |p| < udp + 8 then None else Some(Net(Inet6, p[ip + 24..ip + 40], dscp, udp))
  }

  function ParseNet(p: Bytes): Option<Net> {
    if |p| < 14 then None
    else if Half(p, 12) == ETH_P_8021Q && |p| < 18 then None
    else
      var off := if Half(p, 12) == ETH_P_8021Q then 18 else 14;
      var ethertype := Half(p, off - 2);
      if ethertype == ETH_P_IP then ParseV4(p, off)
      else if ethertype == ETH_P_IPV6 then ParseV6(p, off)
      else None
  }

  function ParseRtp(n: Net, dport: nat, r: Bytes): Option<Delivery> {
    match RtpTsPayload(r)
    case None => None
    case Some(ts) => Some(Delivery(n.family, n.dst, dport, n.dscp, WordAt(r, 8), Half(r, 2), WordAt(r, 4), ts))
  }

  function Parse(p: Bytes, ranges: seq<Range>): Option<Delivery> {
    match ParseNet(p)
    case None => None
    case Some(n) =>
      if !InRanges(n.family, n.dst, ranges) || n.udp + 8 > |p| then None
      else
        var udpLen := Be16(p, n.udp + 4);
        var end := if n.udp + udpLen > |p| then |p| else n.udp + udpLen;
        if udpLen < 8 then None else ParseRtp(n, Be16(p, n.udp + 2), p[n.udp + 8..end])
  }

  lemma NetWanted(p: Bytes, ranges: seq<Range>)
    requires ParseNet(p).Some? && InRanges(ParseNet(p).value.family, ParseNet(p).value.dst, ranges)
    ensures Wanted(ranges, p)
  {
    hide InRanges, Half, ParseV4, ParseV6;
  }

  /** The link and network layer part of capture_handle_frame. */
  method HandleNet(p: Bytes) returns (n: Option<Net>)
    ensures n == ParseNet(p)
  {
    hide WalkExt, Half;
    if |p| < 14 {
      return None;
    }
    var ethertype := Half(p, 12);
    var off := 14;
    if ethertype == ETH_P_8021Q {
      if |p| < off + 4 {
        return None;
      }
      ethertype := Half(p, off + 2);
      off := off + 4;
    }
    if ethertype == ETH_P_IP {
      if |p| < off + 20 || (p[off] >> 4) != 4 {
        return None;
      }
      var ihl := ((p[off] & 0x0F) as nat) * 4;
      if ihl < 20 {
        return None;
      }
      var dscp := p[off + 1] & 0xFC;
      if p[off + 9] != 17 || |p| < off + ihl + 8 {
        return None;
      }
      if Half(p, off + 6) & 0x3FFF != 0 {
        return None;
      }
      return Some(Net(Inet, p[off + 16..off + 20], dscp, off + ihl));
    } else if ethertype == ETH_P_IPV6 {
      if |p| < off + 40 || (p[off] >> 4) != 6 {
        return None;
      }
      var dscp := (((p[off] & 0x0F) << 4) | (p[off + 1] >> 4)) & 0xFC;
      var walked := WalkExtHeaders(p, off + 40, p[off + 6]);
      if walked.None? || |p| < walked.value + 8 {
        return None;
      }
      return Some(Net(Inet6, p[off + 24..off + 40], dscp, walked.value));
    }
    return None;
  }

  /** capture_handle_frame: `None` is the silent return, `Some` the callback's arguments. */
  method HandleFrame(p: Bytes, ranges: seq<Range>) returns (out: Option<Delivery>)
    ensures out == Parse(p, ranges)
    ensures out.Some? ==> Wanted(ranges, p) && InRanges(out.value.family, out.value.dst, ranges)
    ensures out.Some? && |V4s(ranges)| <= 63 ==> Run(Program(ranges), p, 0, 0) == Verdict(ACCEPT_ALL)
  {
    hide V4s, Program, Run, Matches, InRanges, Wanted, RtpTsPayload, WordAt, Half;
    var net := HandleNet(p);
    if net.None? {
      return None;
    }
    var n := net.value;
    assert n.udp + 8 <= |p|;
    var inRange := ScanRanges(n.family, n.dst, ranges);
    if !inRange {
      return None;
    }
    NetWanted(p, ranges);
    var dport := Be16(p, n.udp + 2);
    var udpLen := Be16(p, n.udp + 4);
    if udpLen < 8 {
      return None;
    }
    var end := n.udp + udpLen;
    if end > |p| {
      end := |p|;
    }
    out := ParseRtp(n, dport, p[n.udp + 8..end]);
    if |V4s(ranges)| <= 63 {
      ProgramCorrect(ranges, p);
    }
  }
}
