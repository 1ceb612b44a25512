/**
 * The message a matching encoder builds for a profile, and the proof that decoding it returns
 * the control words that went in.
 */
module EcmRoundTrip {
  import opened Wrappers
  import opened EcmProfile
  import opened EcmDecode

  /** What goes into a message: crypto period numbers, control words, padding and random vector. */
  datatype Message = Message(ecmId: nat, cp: nat, cps: seq<nat>, cws: seq<Bytes>, pad: Bytes, iv: Bytes)

  ghost predicate MessageOk(p: Profile, m: Message, cwLen: nat) {
    && m.cp < 65536
    && |m.cws| >= 1 && |m.cws| >= p.cwCount && |m.cps| >= p.cwCount
    && (forall c :: 0 <= c < |m.cws| ==> |m.cws[c]| == cwLen)
    && (forall c :: 0 <= c < |m.cps| ==> m.cps[c] < 65536)
    && |m.iv| == IvLen(p)
  }

  // ----- Plaintext -----

  function UnitTokenBytes(m: Message, t: Token, c: nat): Bytes
    requires c < |m.cws| && c < |m.cps|
  {
    if t.CpNumber? then Be16(m.cps[c]) else if t.Cw? then m.cws[c] else []
  }

  function UnitBytes(m: Message, group: seq<Token>, c: nat): Bytes
    requires c < |m.cws| && c < |m.cps|
  {
    if group == [] then [] else UnitBytes(m, group[..|group| - 1], c) + UnitTokenBytes(m, group[|group| - 1], c)
  }

  function GroupBytes(p: Profile, m: Message, n: nat): Bytes
    requires n <= |m.cws| && n <= |m.cps|
  {
    if n == 0 then [] else GroupBytes(p, m, n - 1) + UnitBytes(m, p.cwGroup, n - 1)
  }

  function FieldBytes(p: Profile, m: Message, t: Token, tag: Bytes): Bytes
    requires |m.cws| >= 1 && |m.cws| >= p.cwCount && |m.cps| >= p.cwCount
  {
    match t
    case Header(id) => var h := FindHeader(p.headers, id); if h.Some? then h.value.data else []
    case EcmId => Be16(m.ecmId)
    case CpNumber => Be16(m.cp)
    case Cw => m.cws[0]
    case CwGroup => GroupBytes(p, m, p.cwCount)
    case IntegrityTag => tag
    case _ => []
  }

  function PlainOf(p: Profile, m: Message, ts: seq<Token>, tag: Bytes): Bytes
    requires |m.cws| >= 1 && |m.cws| >= p.cwCount && |m.cps| >= p.cwCount
  {
    if ts == [] then [] else PlainOf(p, m, ts[..|ts| - 1], tag) + FieldBytes(p, m, ts[|ts| - 1], tag)
  }

  lemma {:induction false} UnitBytesLen(p: Profile, m: Message, group: seq<Token>, c: nat, cwLen: nat)
    requires MessageOk(p, m, cwLen) && c < |m.cws| && c < |m.cps|
    ensures |UnitBytes(m, group, c)| == UnitLen(group, cwLen)
  {
    if group != [] {
      UnitBytesLen(p, m, group[..|group| - 1], c, cwLen);
    }
  }

  lemma {:induction false} GroupBytesLen(p: Profile, m: Message, n: nat, cwLen: nat)
    requires MessageOk(p, m, cwLen) && n <= p.cwCount
    ensures |GroupBytes(p, m, n)| == UnitLen(p.cwGroup, cwLen) * n
  {
    if n > 0 {
      GroupBytesLen(p, m, n - 1, cwLen);
      UnitBytesLen(p, m, p.cwGroup, n - 1, cwLen);
      assert UnitLen(p.cwGroup, cwLen) * n == UnitLen(p.cwGroup, cwLen) * (n - 1) + UnitLen(p.cwGroup, cwLen);
    }
  }

  lemma FieldBytesLen(p: Profile, m: Message, t: Token, tag: Bytes, cwLen: nat)
    requires MessageOk(p, m, cwLen) && (t == IntegrityTag ==> |tag| == TagLen(p))
    ensures |FieldBytes(p, m, t, tag)| == FieldLen(p, t, cwLen)
  {
    GroupBytesLen(p, m, p.cwCount, cwLen);
  }

  lemma {:induction false} PlainLen(p: Profile, m: Message, ts: seq<Token>, tag: Bytes, cwLen: nat)
    requires MessageOk(p, m, cwLen) && (IntegrityTag in ts ==> |tag| == TagLen(p))
    ensures |PlainOf(p, m, ts, tag)| == FieldsLen(p, ts, cwLen)
  {
    if ts != [] {
      hide FieldBytes, FieldLen;
      PlainLen(p, m, ts[..|ts| - 1], tag, cwLen);
      FieldBytesLen(p, m, ts[|ts| - 1], tag, cwLen);
    }
  }

  // ----- Extraction undoes it -----

  /** `b` has `part` at this offset. */
  ghost predicate HasAt(b: Bytes, off: nat, part: Bytes) {
    off + |part| <= |b| && b[off..off + |part|] == part
  }

  lemma HasFits(b: Bytes, off: nat, part: Bytes)
    requires HasAt(b, off, part)
    ensures off + |part| <= |b|
  {
  }

  lemma HasParts(b: Bytes, off: nat, x: Bytes, y: Bytes)
    requires HasAt(b, off, x + y)
    ensures HasAt(b, off, x) && HasAt(b, off + |x|, y)
  {
    var s := b[off..off + |x + y|];
    assert x == s[..|x|] == b[off..off + |x|];
    assert y == s[|x|..] == b[off + |x|..off + |x| + |y|];
  }

  lemma ReadAt(b: Bytes, off: nat, v: nat)
    requires v < 65536 && HasAt(b, off, Be16(v))
    ensures Read16(b, off) == v
  {
    Read16Be16(v);
    var s := b[off..off + 2];
    assert s == Be16(v) && s[0] == b[off] && s[1] == b[off + 1];
  }

  lemma {:induction false} UnitExtracts(p: Profile, m: Message, pt: Bytes, cwLen: nat, init: Combo, off: nat,
                                        group: seq<Token>, c: nat)
    requires MessageOk(p, m, cwLen) && c < |m.cws| && c < |m.cps|
    requires HasAt(pt, off, UnitBytes(m, group, c))
    ensures off + UnitLen(group, cwLen) <= |pt|
    ensures UnitUpTo(pt, cwLen, init, off, group)
         == Combo(if CpNumber in group then m.cps[c] else init.cp, if Cw in group then m.cws[c] else init.cw)
  {
    hide *;
    UnitBytesLen(p, m, group, c, cwLen);
    HasFits(pt, off, UnitBytes(m, group, c));
    UnitUnfold(m, pt, cwLen, init, off, group, c);
    if group != [] {
      var front, t := group[..|group| - 1], group[|group| - 1];
      UnitBytesLen(p, m, front, c, cwLen);
      InLast(group, CpNumber);
      InLast(group, Cw);
      HasParts(pt, off, UnitBytes(m, front, c), UnitTokenBytes(m, t, c));
      UnitExtracts(p, m, pt, cwLen, init, off, front, c);
      WordsOk(p, m, cwLen, c);
      UnitTokenExtracts(m, pt, cwLen, UnitUpTo(pt, cwLen, init, off, front), off + UnitLen(front, cwLen), t, c);
    }
  }

  lemma WordsOk(p: Profile, m: Message, cwLen: nat, c: nat)
    requires MessageOk(p, m, cwLen) && c < |m.cws| && c < |m.cps|
    ensures m.cps[c] < 65536 && |m.cws[c]| == cwLen
  {
  }

  lemma UnitUnfold(m: Message, pt: Bytes, cwLen: nat, init: Combo, off: nat, group: seq<Token>, c: nat)
    requires c < |m.cws| && c < |m.cps| && off + UnitLen(group, cwLen) <= |pt|
    ensures group == [] ==> UnitUpTo(pt, cwLen, init, off, group) == init
    ensures group != [] ==>
      var front, t := group[..|group| - 1], group[|group| - 1];
      && UnitBytes(m, group, c) == UnitBytes(m, front, c) + UnitTokenBytes(m, t, c)
      && UnitLen(group, cwLen) == UnitLen(front, cwLen) + UnitTokenLen(t, cwLen)
      && UnitUpTo(pt, cwLen, init, off, group)
         == UnitStep(pt, cwLen, UnitUpTo(pt, cwLen, init, off, front), off + UnitLen(front, cwLen), t)
  {
    hide UnitStep, UnitTokenBytes, UnitTokenLen;
  }

  lemma InLast(ts: seq<Token>, t: Token)
    requires ts != []
    ensures t in ts <==> t in ts[..|ts| - 1] || ts[|ts| - 1] == t
  {
    assert ts == ts[..|ts| - 1] + [ts[|ts| - 1]];
  }

  lemma UnitTokenExtracts(m: Message, pt: Bytes, cwLen: nat, r: Combo, off: nat, t: Token, c: nat)
    requires c < |m.cws| && c < |m.cps| && m.cps[c] < 65536 && |m.cws[c]| == cwLen
    requires HasAt(pt, off, UnitTokenBytes(m, t, c))
    ensures off + UnitTokenLen(t, cwLen) <= |pt|
    ensures UnitStep(pt, cwLen, r, off, t)
            == Combo(if t.CpNumber? then m.cps[c] else r.cp, if t.Cw? then m.cws[c] else r.cw)
  {
    hide Read16, Be16;
    if t.CpNumber? {
      ReadAt(pt, off, m.cps[c]);
    }
  }

  /** The combination a group carries for word c. */
  function Expected(p: Profile, m: Message, outer: nat, c: nat): Combo
    requires c < |m.cws| && c < |m.cps|
  {
    Combo(if CpNumber in p.cwGroup then m.cps[c] else (outer + c) % 65536, m.cws[c])
  }

  lemma {:induction false} GroupExtracts(p: Profile, m: Message, pt: Bytes, cwLen: nat, outer: nat, init: seq<Combo>,
                                         off: nat, n: nat)
    requires MessageOk(p, m, cwLen) && n <= p.cwCount <= |init| && Cw in p.cwGroup
    requires HasAt(pt, off, GroupBytes(p, m, n))
    ensures off + UnitLen(p.cwGroup, cwLen) * n <= |pt|
    ensures forall c :: 0 <= c < n ==> GroupUpTo(p, pt, cwLen, outer, init, off, n)[c] == Expected(p, m, outer, c)
  {
    hide *;
    MessageSizes(p, m, cwLen);
    GroupBytesLen(p, m, n, cwLen);
    HasFits(pt, off, GroupBytes(p, m, n));
    if n > 0 {
      GroupUnfold(p, m, pt, cwLen, outer, init, off, n);
      GroupBytesLen(p, m, n - 1, cwLen);
      HasParts(pt, off, GroupBytes(p, m, n - 1), UnitBytes(m, p.cwGroup, n - 1));
      GroupExtracts(p, m, pt, cwLen, outer, init, off, n - 1);
      var r := GroupUpTo(p, pt, cwLen, outer, init, off, n - 1);
      WordExtracts(p, m, pt, cwLen, outer, r[n - 1], off + UnitLen(p.cwGroup, cwLen) * (n - 1), n - 1);
    }
  }

  lemma MessageSizes(p: Profile, m: Message, cwLen: nat)
    requires MessageOk(p, m, cwLen)
    ensures |m.cws| >= 1 && |m.cws| >= p.cwCount && |m.cps| >= p.cwCount
  {
  }

  lemma WordExtracts(p: Profile, m: Message, pt: Bytes, cwLen: nat, outer: nat, init: Combo, off: nat, c: nat)
    requires MessageOk(p, m, cwLen) && c < p.cwCount && Cw in p.cwGroup && HasAt(pt, off, UnitBytes(m, p.cwGroup, c))
    ensures off + UnitLen(p.cwGroup, cwLen) <= |pt|
    ensures Unit(p, pt, cwLen, init, off, (outer + c) % 65536) == Expected(p, m, outer, c)
  {
    hide UnitUpTo, UnitBytes, UnitLen, HasAt;
    UnitExtracts(p, m, pt, cwLen, init, off, p.cwGroup, c);
  }

  lemma GroupUnfold(p: Profile, m: Message, pt: Bytes, cwLen: nat, outer: nat, init: seq<Combo>, off: nat, n: nat)
    requires 0 < n <= |init| && n <= |m.cws| && n <= |m.cps| && off + UnitLen(p.cwGroup, cwLen) * n <= |pt|
    ensures UnitLen(p.cwGroup, cwLen) * n == UnitLen(p.cwGroup, cwLen) * (n - 1) + UnitLen(p.cwGroup, cwLen)
    ensures GroupBytes(p, m, n) == GroupBytes(p, m, n - 1) + UnitBytes(m, p.cwGroup, n - 1)
    ensures var r := GroupUpTo(p, pt, cwLen, outer, init, off, n - 1);
            GroupUpTo(p, pt, cwLen, outer, init, off, n)
            == r[n - 1 :=
                 Unit(p, pt, cwLen, r[n - 1], off + UnitLen(p.cwGroup, cwLen) * (n - 1), (outer + (n - 1)) % 65536)]
  {
    hide Unit, UnitLen, UnitBytes;
  }

  /** The period number of the first combination: whatever field came last. */
  function FirstCp(p: Profile, m: Message, outer: nat, ts: seq<Token>): nat
    requires |m.cws| >= 1 && |m.cws| >= p.cwCount && |m.cps| >= p.cwCount
  {
    if ts == [] then outer
    else
      match ts[|ts| - 1]
      case CpNumber => m.cp
      case CwGroup => if p.cwCount > 0 then Expected(p, m, outer, 0).cp else FirstCp(p, m, outer, ts[..|ts| - 1])
      case _ => FirstCp(p, m, outer, ts[..|ts| - 1])
  }

  /** What has been extracted after some fields. */
  ghost predicate Extracted(p: Profile, m: Message, outer: nat, ts: seq<Token>, f: Fields)
    requires |m.cws| >= 1 && |m.cws| >= p.cwCount && |m.cps| >= p.cwCount
  {
    && |f.combos| > 0 && p.cwCount <= |f.combos|
    && f.combos[0].cp == FirstCp(p, m, outer, ts)
    && (Cw in ts && CwGroup !in ts ==> f.count == 1 && f.combos[0].cw == m.cws[0])
    && (CwGroup in ts && Cw !in ts && p.cwCount > 0 ==>
          && f.count == p.cwCount && f.combos[0].cw == m.cws[0]
          && forall c :: 1 <= c < p.cwCount ==> f.combos[c] == Expected(p, m, outer, c))
  }

  lemma {:induction false} FieldsExtract(p: Profile, m: Message, pt: Bytes, cwLen: nat, outer: nat, init: seq<Combo>,
                                         ts: seq<Token>, tag: Bytes)
    requires MessageOk(p, m, cwLen) && (IntegrityTag in ts ==> |tag| == TagLen(p)) && |init| > 0 && p.cwCount <= |init|
    requires CwGroup in ts ==> Cw in p.cwGroup
    requires HasAt(pt, 0, PlainOf(p, m, ts, tag))
    ensures FieldsLen(p, ts, cwLen) <= |pt|
    ensures Extracted(p, m, outer, ts, FieldsUpTo(p, pt, cwLen, outer, init, ts))
  {
    PlainLen(p, m, ts, tag, cwLen);
    if ts != [] {
      var front, t := ts[..|ts| - 1], ts[|ts| - 1];
      PlainLen(p, m, front, tag, cwLen);
      HasParts(pt, 0, PlainOf(p, m, front, tag), FieldBytes(p, m, t, tag));
      FieldsExtract(p, m, pt, cwLen, outer, init, front, tag);
      assert ts == front + [t];
      StepExtracts(p, m, pt, cwLen, outer, front, t, tag, FieldsUpTo(p, pt, cwLen, outer, init, front));
    }
  }

  lemma StepExtracts(p: Profile, m: Message, pt: Bytes, cwLen: nat, outer: nat, front: seq<Token>, t: Token,
                     tag: Bytes, f: Fields)
    requires MessageOk(p, m, cwLen) && (t == IntegrityTag ==> |tag| == TagLen(p))
    requires Extracted(p, m, outer, front, f) && HasAt(pt, f.off, FieldBytes(p, m, t, tag))
    requires t == CwGroup ==> Cw in p.cwGroup
    ensures f.off + FieldLen(p, t, cwLen) <= |pt|
    ensures Extracted(p, m, outer, front + [t], FieldStep(p, pt, cwLen, outer, f, t))
  {
    FieldBytesLen(p, m, t, tag, cwLen);
    FirstCpNext(p, m, outer, front, t);
    InNext(front, t, Cw);
    InNext(front, t, CwGroup);
    hide GroupUpTo, GroupBytes, UnitLen, FirstCp, Read16, Be16;
    var g := FieldStep(p, pt, cwLen, outer, f, t);
    if t.CpNumber? {
      ReadAt(pt, f.off, m.cp);
    } else if t.CwGroup? {
      if p.cwCount == 0 {
        GroupNone(p, pt, cwLen, outer, f.combos, f.off);
      } else {
        GroupExtracts(p, m, pt, cwLen, outer, f.combos, f.off, p.cwCount);
        assert g.combos[0] == Expected(p, m, outer, 0);
      }
    }
  }

  lemma GroupNone(p: Profile, pt: Bytes, cwLen: nat, outer: nat, combos: seq<Combo>, off: nat)
    requires off + UnitLen(p.cwGroup, cwLen) * 0 <= |pt|
    ensures GroupUpTo(p, pt, cwLen, outer, combos, off, 0) == combos
  {
  }

  lemma InNext(front: seq<Token>, t: Token, x: Token)
    ensures x in front + [t] <==> x in front || x == t
  {
  }

  lemma FirstCpNext(p: Profile, m: Message, outer: nat, front: seq<Token>, t: Token)
    requires |m.cws| >= 1 && |m.cws| >= p.cwCount && |m.cps| >= p.cwCount
    ensures FirstCp(p, m, outer, front + [t])
         == match t
            case CpNumber => m.cp
            case CwGroup => if p.cwCount > 0 then Expected(p, m, outer, 0).cp else FirstCp(p, m, outer, front)
            case _ => FirstCp(p, m, outer, front)
  {
    assert (front + [t])[..|front + [t]| - 1] == front;
  }

  // ----- Wire: the components tile the message -----

  function TokenLen(p: Profile, lay: Layout, t: Token): nat {
    if t.Header? then HeaderLen(p, t.id) else ComponentLen(lay, t)
  }

  function TokensLen(p: Profile, lay: Layout, ts: seq<Token>): nat {
    if ts == [] then 0 else TokensLen(p, lay, ts[..|ts| - 1]) + TokenLen(p, lay, ts[|ts| - 1])
  }

  function Times(n: nat, len: nat): nat {
    n * len
  }

  lemma {:induction false} TokensByKind(p: Profile, lay: Layout, ts: seq<Token>)
    ensures TokensLen(p, lay, ts)
         == Times(Count(ts, Iv), lay.iv) + Times(Count(ts, Ciphertext), lay.ct) + Times(Count(ts, GcmTag), lay.gcm)
            + Times(Count(ts, IntegrityTag), lay.itag) + HeadersLen(p, ts)
  {
    if ts != [] {
      var front, t := ts[..|ts| - 1], ts[|ts| - 1];
      TokensByKind(p, lay, front);
      TimesNext(Count(front, Iv), lay.iv);
      TimesNext(Count(front, Ciphertext), lay.ct);
      TimesNext(Count(front, GcmTag), lay.gcm);
      TimesNext(Count(front, IntegrityTag), lay.itag);
      hide Times;
    }
  }

  lemma TimesNext(n: nat, len: nat)
    ensures Times(n + 1, len) == Times(n, len) + len
  {
  }

  lemma TimesOnce(len: nat)
    ensures Times(0, len) == 0 && Times(1, len) == len
  {
  }

  /** In an accepted profile the components and markers make up the message exactly. */
  lemma TokensTile(p: Profile, o: Orders, cwLen: nat, lay: Layout)
    requires Accepted(p, o) && LayoutOf(p, o.fields, o.wires, cwLen) == Some(lay)
    ensures TokensLen(p, lay, o.wires) == lay.wire
  {
    TokensByKind(p, lay, o.wires);
    TimesOnce(lay.iv);
    TimesOnce(lay.ct);
    TimesOnce(lay.gcm);
    TimesOnce(lay.itag);
    hide Times, Count, FieldsLen, HeadersLen, TokensLen, FieldsOk, HeadersOk, Padded, GroupOk;
  }

  lemma {:induction false} TokensLenPrefix(p: Profile, lay: Layout, ts: seq<Token>, k: nat)
    requires k <= |ts|
    ensures TokensLen(p, lay, ts[..k]) <= TokensLen(p, lay, ts)
    decreases |ts|
  {
    if k < |ts| {
      TokensLenPrefix(p, lay, ts[..|ts| - 1], k);
      assert ts[..|ts| - 1][..k] == ts[..k];
    } else {
      assert ts[..k] == ts;
    }
  }

  /** The marker before position k of the order is where the order puts it. */
  ghost predicate MarkerAt(p: Profile, lay: Layout, wire: Bytes, ts: seq<Token>, k: nat)
    requires k < |ts|
  {
    ts[k].Header? ==>
      var h := FindHeader(p.headers, ts[k].id);
      h.Some? && HasAt(wire, TokensLen(p, lay, ts[..k]), h.value.data)
  }

  ghost predicate Markers(p: Profile, lay: Layout, wire: Bytes, ts: seq<Token>, n: nat)
    requires n <= |ts|
  {
    forall k :: 0 <= k < n ==> MarkerAt(p, lay, wire, ts, k)
  }

  /** Locating the components of a message long enough fails only at a wrong marker. */
  lemma {:induction false} LocatesPrefix(p: Profile, lay: Layout, wire: Bytes, ts: seq<Token>, n: nat)
    requires n <= |ts| && TokensLen(p, lay, ts) <= |wire|
    requires forall i :: 0 <= i < |ts| ==> WireToken(p, ts[i])
    ensures LocateUpTo(p, lay, wire, ts[..n]).Some? <==> Markers(p, lay, wire, ts, n)
    ensures LocateUpTo(p, lay, wire, ts[..n]).Some? ==>
            LocateUpTo(p, lay, wire, ts[..n]).value.off == TokensLen(p, lay, ts[..n])
  {
    if n > 0 {
      var s := LocateUpTo(p, lay, wire, ts[..n - 1]);
      TokensLenPrefix(p, lay, ts, n);
      assert ts[..n][..n - 1] == ts[..n - 1];
      assert ts[..n][n - 1] == ts[n - 1];
      assert LocateUpTo(p, lay, wire, ts[..n]) == if s.None? then None
             else LocateStep(p, lay, wire, s.value, ts[n - 1]);
      assert TokensLen(p, lay, ts[..n]) == TokensLen(p, lay, ts[..n - 1]) + TokenLen(p, lay, ts[n - 1]);
      hide MarkerAt, FindHeader, LocateStep, TokensLen, TokenLen, LocateUpTo, WireToken, HasAt;
      LocatesPrefix(p, lay, wire, ts, n - 1);
      if s.Some? {
        StepLocates(p, lay, wire, ts, n - 1, s.value);
      }
    }
  }

  lemma StepLocates(p: Profile, lay: Layout, wire: Bytes, ts: seq<Token>, k: nat, s: Located)
    requires k < |ts| && WireToken(p, ts[k]) && s.off == TokensLen(p, lay, ts[..k])
    requires s.off + TokenLen(p, lay, ts[k]) <= |wire|
    ensures LocateStep(p, lay, wire, s, ts[k]).Some? <==> MarkerAt(p, lay, wire, ts, k)
    ensures LocateStep(p, lay, wire, s, ts[k]).Some? ==>
            LocateStep(p, lay, wire, s, ts[k]).value.off == s.off + TokenLen(p, lay, ts[k])
  {
    hide TokensLen, FindHeader;
  }

  /** A message of the right length is located exactly when all its markers are right. */
  lemma LocateIff(p: Profile, o: Orders, cwLen: nat, lay: Layout, wire: Bytes)
    requires Accepted(p, o) && LayoutOf(p, o.fields, o.wires, cwLen) == Some(lay) && |wire| == lay.wire
    ensures Locate(p, lay, o.wires, wire).Some? <==> Markers(p, lay, wire, o.wires, |o.wires|)
  {
    TokensTile(p, o, cwLen, lay);
    assert o.wires[..|o.wires|] == o.wires;
    hide TokensLen, LocateUpTo, Markers, FieldsOk, HeadersOk, FieldsLen, HeadersLen, GroupOk, CipherOk;
    LocatesPrefix(p, lay, wire, o.wires, |o.wires|);
  }

  // ----- The encoder -----

  datatype Parts = Parts(iv: Bytes, ct: Bytes, gcm: Bytes, itag: Bytes)

  function TokenBytes(p: Profile, x: Parts, t: Token): Bytes {
    match t
    case Header(id) => var h := FindHeader(p.headers, id); if h.Some? then h.value.data else []
    case Iv => x.iv
    case Ciphertext => x.ct
    case GcmTag => x.gcm
    case IntegrityTag => x.itag
    case _ => []
  }

  function WireOf(p: Profile, x: Parts, ts: seq<Token>): Bytes {
    if ts == [] then [] else WireOf(p, x, ts[..|ts| - 1]) + TokenBytes(p, x, ts[|ts| - 1])
  }

  ghost predicate PartsFit(lay: Layout, x: Parts) {
    |x.iv| == lay.iv && |x.ct| == lay.ct && |x.gcm| == lay.gcm && |x.itag| == lay.itag
  }

  lemma {:induction false} WireLen(p: Profile, lay: Layout, x: Parts, ts: seq<Token>)
    requires PartsFit(lay, x)
    ensures |WireOf(p, x, ts)| == TokensLen(p, lay, ts)
  {
    if ts != [] {
      WireLen(p, lay, x, ts[..|ts| - 1]);
    }
  }

  lemma {:induction false} WirePrefix(p: Profile, lay: Layout, x: Parts, ts: seq<Token>, k: nat)
    requires PartsFit(lay, x) && k < |ts|
    ensures HasAt(WireOf(p, x, ts), TokensLen(p, lay, ts[..k]), TokenBytes(p, x, ts[k]))
    decreases |ts|
  {
    var front, w := ts[..|ts| - 1], WireOf(p, x, ts);
    WireLen(p, lay, x, front);
    assert w == WireOf(p, x, front) + TokenBytes(p, x, ts[|ts| - 1]);
    hide TokenBytes;
    if k < |ts| - 1 {
      WirePrefix(p, lay, x, front, k);
      assert front[..k] == ts[..k] && front[k] == ts[k];
      Extends(WireOf(p, x, front), TokenBytes(p, x, ts[|ts| - 1]), TokensLen(p, lay, ts[..k]), TokenBytes(p, x, ts[k]));
    } else {
      assert w[|WireOf(p, x, front)|..] == TokenBytes(p, x, ts[k]);
    }
  }

  lemma Extends(a: Bytes, b: Bytes, off: nat, part: Bytes)
    requires HasAt(a, off, part)
    ensures HasAt(a + b, off, part)
  {
    assert (a + b)[off..off + |part|] == a[off..off + |part|];
  }

  /** Every component was located where its bytes are. */
  ghost predicate FoundIn(lay: Layout, x: Parts, wire: Bytes, s: Located, ts: seq<Token>) {
    && (Iv in ts && lay.iv > 0 ==> s.iv.Some? && HasAt(wire, s.iv.value, x.iv))
    && (Ciphertext in ts && lay.ct > 0 ==> s.ct.Some? && HasAt(wire, s.ct.value, x.ct))
    && (GcmTag in ts && lay.gcm > 0 ==> s.gcm.Some? && HasAt(wire, s.gcm.value, x.gcm))
    && (IntegrityTag in ts && lay.itag > 0 ==> s.itag.Some? && HasAt(wire, s.itag.value, x.itag))
  }

  lemma {:induction false} LocateFinds(p: Profile, lay: Layout, x: Parts, ts: seq<Token>, n: nat)
    requires PartsFit(lay, x) && n <= |ts| && forall i :: 0 <= i < |ts| ==> WireToken(p, ts[i])
    requires LocateUpTo(p, lay, WireOf(p, x, ts), ts[..n]).Some?
    ensures FoundIn(lay, x, WireOf(p, x, ts), LocateUpTo(p, lay, WireOf(p, x, ts), ts[..n]).value, ts[..n])
  {
    if n > 0 {
      var wire := WireOf(p, x, ts);
      var front, t := ts[..n - 1], ts[n - 1];
      assert ts[..n][..n - 1] == front && ts[..n][n - 1] == t;
      assert ts[..n] == front + [t];
      LocateFinds(p, lay, x, ts, n - 1);
      WireLen(p, lay, x, ts);
      LocatesPrefix(p, lay, wire, ts, n - 1);
      WirePrefix(p, lay, x, ts, n - 1);
      var s := LocateUpTo(p, lay, wire, front).value;
      hide LocateUpTo, WireOf, TokensLen, WireToken, Markers, FindHeader;
      StepFinds(p, lay, x, wire, s, front, t);
    }
  }

  lemma StepFinds(p: Profile, lay: Layout, x: Parts, wire: Bytes, s: Located, front: seq<Token>, t: Token)
    requires PartsFit(lay, x) && FoundIn(lay, x, wire, s, front)
    requires HasAt(wire, s.off, TokenBytes(p, x, t)) && LocateStep(p, lay, wire, s, t).Some?
    ensures FoundIn(lay, x, wire, LocateStep(p, lay, wire, s, t).value, front + [t])
  {
    hide HasAt;
  }

  function SentIv(p: Profile, m: Message, outer: nat): Bytes {
    if p.iv.RandomIv? then m.iv else FixedIv(p, outer)
  }

  function Blank(n: nat): (b: Bytes)
    ensures |b| == n
  {
    seq(n, _ => 0)
  }

  /** The tag inside the ciphertext, over the fields before it. */
  function InnerTag(c: Crypto, p: Profile, o: Orders, m: Message, mac: Bytes, assoc: Bytes): (t: Option<Bytes>)
    requires Sized(c) && Accepted(p, o) && |m.cws| >= 1 && |m.cws| >= p.cwCount && |m.cps| >= p.cwCount
    ensures t.Some? ==> |t.value| == TagLen(p)
  {
    if MacThenEncrypt(p) then Tag(c, p, mac, PlainOf(p, m, o.fields[..|o.fields| - 1], []), assoc)
    else Some(Blank(TagLen(p)))
  }

  /** Ciphertext and tag of the cipher. */
  function Seal(c: Crypto, p: Profile, k: Keys, iv: Bytes, assoc: Bytes, plain: Bytes, pad: Bytes): (Bytes, Bytes) {
    if IsGcm(p.cipher) then c.gcmEnc(if |k.enc| == 16 then 128 else 256, k.enc, iv, assoc, plain)
    else (c.blockEnc(p.cipher, k.enc, if IsCbc(p.cipher) then Some(iv) else None, plain + pad), [])
  }

  function OuterTag(c: Crypto, p: Profile, mac: Bytes, ct: Bytes, assoc: Bytes): (t: Option<Bytes>)
    requires Sized(c) && CipherOk(p)
  {
    if WireTag(p) then Tag(c, p, mac, ct, assoc) else Some([])
  }

  function Encode(c: Crypto, p: Profile, o: Orders, cwLen: nat, sk: Bytes, outer: nat, fallback: nat,
                  m: Message): Option<Bytes>
    requires Accepted(p, o) && Sized(c) && |sk| == 32 && |m.cws| >= 1 && |m.cws| >= p.cwCount && |m.cps| >= p.cwCount
  {
    var l := LayoutOf(p, o.fields, o.wires, cwLen);
    var keys := DeriveKeys(c, p, sk);
    if l.None? || l.value.plain > WIRE_MAX || l.value.ct > WIRE_MAX || keys.None? then None
    else
      var assoc := Assoc(p, outer, fallback);
      var inner := InnerTag(c, p, o, m, keys.value.mac, assoc);
      if inner.None? then None
      else
        var iv := SentIv(p, m, outer);
        var body := Seal(c, p, keys.value, iv, assoc, PlainOf(p, m, o.fields, inner.value), m.pad);
        var tag := OuterTag(c, p, keys.value.mac, body.0, assoc);
        if tag.None? then None
        else Some(WireOf(p, Parts(if WireIv(p) then iv else [], body.0, body.1, tag.value), o.wires))
  }

  // ----- Round trip -----

  /** Decryption undoes encryption of whole blocks, and keeps lengths. */
  ghost predicate Lawful(c: Crypto) {
    && Sized(c)
    && (forall a, k, v, d :: |d| > 0 && |d| % BlockSize(a) == 0 ==>
        |c.blockEnc(a, k, v, d)| == |d| && c.blockDec(a, k, v, c.blockEnc(a, k, v, d)) == Some(d))
    && (forall n, k, v, a, d :: |c.gcmEnc(n, k, v, a, d).0| == |d| && |c.gcmEnc(n, k, v, a, d).1| == GCM_TAG_LEN
          && c.gcmDec(n, k, v, a, c.gcmEnc(n, k, v, a, d).0, c.gcmEnc(n, k, v, a, d).1) == Some(d))
  }

  lemma Unseals(c: Crypto, p: Profile, k: Keys, iv: Bytes, assoc: Bytes, plain: Bytes, pad: Bytes, ct: nat)
    requires Lawful(c) && |plain| > 0
    requires if IsGcm(p.cipher) then ct == |plain| else Padded(p, |plain|) == Some(ct) && |pad| == ct - |plain|
    ensures var b := Seal(c, p, k, iv, assoc, plain, pad);
            && |b.0| == ct && |b.1| == (if IsGcm(p.cipher) then GCM_TAG_LEN else 0)
            && Unseal(c, p, k, if UsesIv(p) then Some(iv) else None, assoc, b.0, b.1)
               == Some(if IsGcm(p.cipher) then plain else plain + pad)
  {
    hide Padded;
  }

  lemma {:induction false} CountIn(ts: seq<Token>, t: Token)
    ensures Count(ts, t) > 0 <==> t in ts
  {
    if ts != [] {
      CountIn(ts[..|ts| - 1], t);
      InLast(ts, t);
    }
  }

  /** All combinations, as the decoder should return them. */
  function ExpectedAll(p: Profile, o: Orders, m: Message, outer: nat): seq<Combo>
    requires |m.cws| >= 1 && |m.cws| >= p.cwCount && |m.cps| >= p.cwCount
  {
    [Combo(FirstCp(p, m, outer, o.fields), m.cws[0])]
    + (if p.cwCount <= 1 then []
       else seq(p.cwCount - 1, c requires 0 <= c < p.cwCount - 1 => Expected(p, m, outer, c + 1)))
  }

  lemma ExtractsAll(p: Profile, o: Orders, m: Message, pt: Bytes, cwLen: nat, outer: nat, init: seq<Combo>, tag: Bytes)
    requires Accepted(p, o) && MessageOk(p, m, cwLen) && |tag| == TagLen(p) && |init| > 0 && p.cwCount <= |init|
    requires HasAt(pt, 0, PlainOf(p, m, o.fields, tag))
    ensures FieldsLen(p, o.fields, cwLen) <= |pt|
    ensures var f := FieldsUpTo(p, pt, cwLen, outer, init, o.fields);
            f.count > 0 && f.combos[..f.count] == ExpectedAll(p, o, m, outer)
  {
    CountIn(o.fields, Cw);
    CountIn(o.fields, CwGroup);
    CountIn(p.cwGroup, Cw);
    hide PlainOf, FieldsUpTo, FieldsLen, Count, HasAt, FirstCp, WiresOk, HeadersOk, CipherOk;
    FieldsExtract(p, m, pt, cwLen, outer, init, o.fields, tag);
  }

  /** What the decoder finds in a message the encoder built. */
  ghost predicate Arrived(p: Profile, lay: Layout, x: Parts, wire: Bytes, loc: Located) {
    && PartsFit(lay, x) && LocatedOk(p, lay, wire, loc)
    && (WireIv(p) ==> HasAt(wire, loc.iv.value, x.iv))
    && loc.ct.Some? && HasAt(wire, loc.ct.value, x.ct)
    && (IsGcm(p.cipher) ==> HasAt(wire, loc.gcm.value, x.gcm))
    && (WireTag(p) ==> HasAt(wire, loc.itag.value, x.itag))
  }

  lemma Arrives(p: Profile, o: Orders, cwLen: nat, lay: Layout, x: Parts)
    requires Accepted(p, o) && LayoutOf(p, o.fields, o.wires, cwLen) == Some(lay) && cwLen > 0 && PartsFit(lay, x)
    ensures var wire := WireOf(p, x, o.wires);
            && |wire| == lay.wire && 0 < lay.plain <= lay.ct
            && Locate(p, lay, o.wires, wire).Some?
            && Arrived(p, lay, x, wire, Locate(p, lay, o.wires, wire).value)
  {
    hide *;
    var wire := WireOf(p, x, o.wires);
    WiresAccepted(p, o);
    WireLen(p, lay, x, o.wires);
    TokensTile(p, o, cwLen, lay);
    PlainHoldsCw(p, o, cwLen);
    MarkersSent(p, lay, x, o.wires);
    LocateIff(p, o, cwLen, lay, wire);
    LocateOk(p, o, cwLen, wire);
    LocateIs(p, lay, o.wires, wire);
    LocateFinds(p, lay, x, o.wires, |o.wires|);
    FoundArrives(p, o, cwLen, lay, x, wire, Locate(p, lay, o.wires, wire).value);
  }

  lemma WiresAccepted(p: Profile, o: Orders)
    requires Accepted(p, o)
    ensures CipherOk(p) && WiresOk(p, o.wires) && forall i :: 0 <= i < |o.wires| ==> WireToken(p, o.wires[i])
  {
    hide FieldsOk, HeadersOk, CipherOk, GroupOk, WireToken, Count;
  }

  lemma MarkersSent(p: Profile, lay: Layout, x: Parts, wires: seq<Token>)
    requires PartsFit(lay, x) && forall i :: 0 <= i < |wires| ==> WireToken(p, wires[i])
    ensures Markers(p, lay, WireOf(p, x, wires), wires, |wires|)
  {
    forall k | 0 <= k < |wires| ensures MarkerAt(p, lay, WireOf(p, x, wires), wires, k) {
      hide WireOf, TokensLen, HasAt;
      WirePrefix(p, lay, x, wires, k);
      assert WireToken(p, wires[k]);
    }
  }

  lemma LocateIs(p: Profile, lay: Layout, wires: seq<Token>, wire: Bytes)
    ensures wires[..|wires|] == wires
    ensures Locate(p, lay, wires, wire).Some? ==>
            LocateUpTo(p, lay, wire, wires[..|wires|]) == Locate(p, lay, wires, wire)
  {
    hide LocateUpTo;
    assert wires[..|wires|] == wires;
  }

  lemma FoundArrives(p: Profile, o: Orders, cwLen: nat, lay: Layout, x: Parts, wire: Bytes, s: Located)
    requires Accepted(p, o) && WiresOk(p, o.wires) && LayoutOf(p, o.fields, o.wires, cwLen) == Some(lay) && 0 < lay.ct
    requires PartsFit(lay, x) && LocatedOk(p, lay, wire, s) && FoundIn(lay, x, wire, s, o.wires)
    ensures Arrived(p, lay, x, wire, s)
  {
    CountIn(o.wires, Iv);
    CountIn(o.wires, Ciphertext);
    CountIn(o.wires, GcmTag);
    CountIn(o.wires, IntegrityTag);
    hide FieldsLen, HeadersLen, Count, FieldsOk, HeadersOk, HasAt, GroupOk, Padded;
  }

  lemma SliceHas(b: Bytes, off: nat, part: Bytes)
    requires HasAt(b, off, part)
    ensures off + |part| <= |b| && Slice(b, off, |part|) == part
  {
  }

  /** Everything the encoder put in a message, and that it fits. */
  ghost predicate Packed(c: Crypto, p: Profile, o: Orders, m: Message, lay: Layout, k: Keys, assoc: Bytes, iv: Bytes,
                         tag: Bytes, plain: Bytes, x: Parts)
    requires Sized(c) && Accepted(p, o) && |m.cws| >= 1 && |m.cws| >= p.cwCount && |m.cps| >= p.cwCount
  {
    && InnerTag(c, p, o, m, k.mac, assoc) == Some(tag)
    && plain == PlainOf(p, m, o.fields, tag) && |plain| == lay.plain
    && (x.ct, x.gcm) == Seal(c, p, k, iv, assoc, plain, m.pad)
    && OuterTag(c, p, k.mac, x.ct, assoc) == Some(x.itag)
    && (WireIv(p) ==> x.iv == iv)
  }

  /** The inner tag is read back from the end of the plaintext. */
  lemma InnerTagAgrees(c: Crypto, p: Profile, o: Orders, cwLen: nat, m: Message, k: Keys, lay: Layout, pt: Bytes,
                       assoc: Bytes, tag: Bytes)
    requires Accepted(p, o) && Sized(c) && LayoutOf(p, o.fields, o.wires, cwLen) == Some(lay) && lay.plain <= |pt|
    requires MessageOk(p, m, cwLen) && MacThenEncrypt(p) && InnerTag(c, p, o, m, k.mac, assoc) == Some(tag)
    requires HasAt(pt, 0, PlainOf(p, m, o.fields, tag))
    ensures InnerTagOk(c, p, o, cwLen, k, lay, pt, assoc)
  {
    hide *;
    MessageSizes(p, m, cwLen);
    TagLast(p, o);
    var front := o.fields[..|o.fields| - 1];
    var data := PlainOf(p, m, front, tag);
    FieldsHoldLast(p, o.fields, cwLen);
    PlainIsFields(p, o, cwLen, lay);
    PlainEnds(c, p, o, m, k, assoc, tag);
    PlainLen(p, m, front, tag, cwLen);
    HasParts(pt, 0, data, tag);
    SliceHas(pt, 0, data);
    SliceHas(pt, lay.plain - TagLen(p), tag);
    InnerTagIs(c, p, o, cwLen, k, lay, pt, assoc, data, tag);
  }

  /** The plaintext ends in the tag of what comes before it. */
  lemma PlainEnds(c: Crypto, p: Profile, o: Orders, m: Message, k: Keys, assoc: Bytes, tag: Bytes)
    requires Sized(c) && Accepted(p, o) && MacThenEncrypt(p) && |m.cws| >= 1 && |m.cws| >= p.cwCount
             && |m.cps| >= p.cwCount
    requires InnerTag(c, p, o, m, k.mac, assoc) == Some(tag)
    requires o.fields != [] && o.fields[|o.fields| - 1] == IntegrityTag && IntegrityTag !in o.fields[..|o.fields| - 1]
    ensures CipherOk(p)
    ensures PlainOf(p, m, o.fields, tag) == PlainOf(p, m, o.fields[..|o.fields| - 1], tag) + tag
    ensures Tag(c, p, k.mac, PlainOf(p, m, o.fields[..|o.fields| - 1], tag), assoc) == Some(tag)
  {
    TagUnused(p, m, o.fields[..|o.fields| - 1], tag, []);
    hide FieldsOk, WiresOk, HeadersOk, CipherOk, Tag;
  }

  lemma InnerTagIs(c: Crypto, p: Profile, o: Orders, cwLen: nat, k: Keys, lay: Layout, pt: Bytes, assoc: Bytes,
                   data: Bytes, tag: Bytes)
    requires Accepted(p, o) && Sized(c) && LayoutOf(p, o.fields, o.wires, cwLen) == Some(lay) && lay.plain <= |pt|
             && MacThenEncrypt(p) && CipherOk(p)
    requires |tag| == TagLen(p) && |data| + TagLen(p) == lay.plain && Slice(pt, 0, |data|) == data
             && Slice(pt, |data|, |tag|) == tag
    requires Tag(c, p, k.mac, data, assoc) == Some(tag)
    ensures InnerTagOk(c, p, o, cwLen, k, lay, pt, assoc)
  {
    hide Accepted, LayoutOf, Tag;
    assert pt[..|data|] == data;
  }

  lemma PlainIsFields(p: Profile, o: Orders, cwLen: nat, lay: Layout)
    requires LayoutOf(p, o.fields, o.wires, cwLen) == Some(lay)
    ensures lay.plain == FieldsLen(p, o.fields, cwLen)
    ensures FieldLen(p, IntegrityTag, cwLen) == TagLen(p)
  {
    hide FieldsLen;
  }

  lemma TagLast(p: Profile, o: Orders)
    requires Accepted(p, o) && MacThenEncrypt(p)
    ensures o.fields != [] && o.fields[|o.fields| - 1] == IntegrityTag && IntegrityTag !in o.fields[..|o.fields| - 1]
    ensures CipherOk(p)
  {
    CountIn(o.fields[..|o.fields| - 1], IntegrityTag);
  }

  lemma {:induction false} TagUnused(p: Profile, m: Message, ts: seq<Token>, a: Bytes, b: Bytes)
    requires IntegrityTag !in ts && |m.cws| >= 1 && |m.cws| >= p.cwCount && |m.cps| >= p.cwCount
    ensures PlainOf(p, m, ts, a) == PlainOf(p, m, ts, b)
  {
    if ts != [] {
      TagUnused(p, m, ts[..|ts| - 1], a, b);
      assert ts[|ts| - 1] in ts;
    }
  }

  lemma Opens(c: Crypto, p: Profile, o: Orders, cwLen: nat, sk: Bytes, wire: Bytes, outer: nat, fallback: nat,
              m: Message, init: seq<Combo>,
              lay: Layout, loc: Located, k: Keys, iv: Bytes, tag: Bytes, plain: Bytes, x: Parts)
    requires Accepted(p, o) && Lawful(c) && |sk| == 32 && MessageOk(p, m, cwLen) && |init| > 0 && p.cwCount <= |init|
    requires LayoutOf(p, o.fields, o.wires, cwLen) == Some(lay) && 0 < lay.plain <= lay.ct
             && Arrived(p, lay, x, wire, loc)
    requires DeriveKeys(c, p, sk) == Some(k) && iv == SentIv(p, m, outer)
    requires Packed(c, p, o, m, lay, k, Assoc(p, outer, fallback), iv, tag, plain, x)
    requires IsGcm(p.cipher) || |m.pad| == lay.ct - lay.plain
    ensures Open(c, p, o, cwLen, sk, wire, outer, fallback, init, lay, loc) == Some(ExpectedAll(p, o, m, outer))
  {
    var assoc := Assoc(p, outer, fallback);
    hide FieldsLen, HeadersLen, FieldsOk, WiresOk, HeadersOk, HasAt, Tag, DeriveKeys, FieldsUpTo, PlainOf, FixedIv,
         ExpectedAll, InnerTagOk, Padded, Count, Seal, Unseal;
    if WireIv(p) { SliceHas(wire, loc.iv.value, x.iv); }
    SliceHas(wire, loc.ct.value, x.ct);
    if IsGcm(p.cipher) { SliceHas(wire, loc.gcm.value, x.gcm); }
    if WireTag(p) { SliceHas(wire, loc.itag.value, x.itag); }
    Unseals(c, p, k, iv, assoc, plain, m.pad, lay.ct);
    var pt := if IsGcm(p.cipher) then plain else plain + m.pad;
    StartsWith(pt, plain);
    if MacThenEncrypt(p) {
      InnerTagAgrees(c, p, o, cwLen, m, k, lay, pt, assoc, tag);
    }
    ExtractsAll(p, o, m, pt, cwLen, outer, init, tag);
  }

  lemma StartsWith(b: Bytes, part: Bytes)
    requires |part| <= |b| && b[..|part|] == part
    ensures HasAt(b, 0, part)
  {
  }

  /**
   * Decoding what a matching encoder sends returns its control words and period numbers, for
   * every accepted profile, every length of control word the layout takes and every padding.
   */
  lemma RoundTrip(c: Crypto, p: Profile, o: Orders, cwLen: nat, sk: Bytes, outer: nat, fallback: nat, m: Message,
                  init: seq<Combo>)
    requires Accepted(p, o) && Lawful(c) && |sk| == 32 && cwLen > 0 && MessageOk(p, m, cwLen)
    requires |init| > 0 && p.cwCount <= |init|
    requires var l := LayoutOf(p, o.fields, o.wires, cwLen);
             l.Some? && !IsGcm(p.cipher) ==> |m.pad| == l.value.ct - l.value.plain
    requires Encode(c, p, o, cwLen, sk, outer, fallback, m).Some?
    ensures Decrypt(c, p, o, cwLen, sk, Encode(c, p, o, cwLen, sk, outer, fallback, m).value, outer, fallback, init)
         == Some(ExpectedAll(p, o, m, outer))
  {
    hide FieldsLen, HeadersLen, FieldsOk, WiresOk, HeadersOk, Tag, DeriveKeys, FieldsUpTo, PlainOf, FixedIv,
         ExpectedAll, InnerTagOk, Padded, Count, Locate, WireOf, Open, Accepted;
    WiresAccepted(p, o);
    var lay := LayoutOf(p, o.fields, o.wires, cwLen).value;
    var k := DeriveKeys(c, p, sk).value;
    var assoc := Assoc(p, outer, fallback);
    var tag := InnerTag(c, p, o, m, k.mac, assoc).value;
    var iv := SentIv(p, m, outer);
    var plain := PlainOf(p, m, o.fields, tag);
    PlainLen(p, m, o.fields, tag, cwLen);
    PlainHoldsCw(p, o, cwLen);
    Unseals(c, p, k, iv, assoc, plain, m.pad, lay.ct);
    var body := Seal(c, p, k, iv, assoc, plain, m.pad);
    var itag := OuterTag(c, p, k.mac, body.0, assoc).value;
    var x := Parts(if WireIv(p) then iv else [], body.0, body.1, itag);
    Arrives(p, o, cwLen, lay, x);
    var wire := WireOf(p, x, o.wires);
    Opens(c, p, o, cwLen, sk, wire, outer, fallback, m, init, lay, Locate(p, lay, o.wires, wire).value, k, iv, tag,
          plain, x);
  }

  // ----- Whose number the first combination gets -----

  /** A period number of its own stands behind the group in the plaintext. */
  predicate NumberAfterGroup(ts: seq<Token>) {
    exists i, j :: 0 <= i < j < |ts| && ts[i] == CwGroup && ts[j] == CpNumber
  }

  lemma {:induction false} FirstCpOfGroup(p: Profile, m: Message, outer: nat, ts: seq<Token>)
    requires |m.cws| >= 1 && |m.cws| >= p.cwCount && |m.cps| >= p.cwCount
    requires p.cwCount > 0 && Count(ts, CwGroup) == 1
    ensures FirstCp(p, m, outer, ts) == if NumberAfterGroup(ts) then m.cp else Expected(p, m, outer, 0).cp
  {
    var front, t := ts[..|ts| - 1], ts[|ts| - 1];
    CountIn(front, CwGroup);
    if !t.CwGroup? {
      FirstCpOfGroup(p, m, outer, front);
      var i :| 0 <= i < |front| && front[i] == CwGroup;
      assert ts[i] == CwGroup;
      assert NumberAfterGroup(front) ==> NumberAfterGroup(ts) by {
        if NumberAfterGroup(front) {
          var a, b :| 0 <= a < b < |front| && front[a] == CwGroup && front[b] == CpNumber;
          assert ts[a] == CwGroup && ts[b] == CpNumber;
        }
      }
      if !t.CpNumber? && NumberAfterGroup(ts) {
        var a, b :| 0 <= a < b < |ts| && ts[a] == CwGroup && ts[b] == CpNumber;
        assert front[a] == CwGroup && front[b] == CpNumber;
      }
    } else {
      assert forall a :: 0 <= a < |front| ==> ts[a] == front[a] && front[a] in front;
    }
  }

  lemma {:induction false} FirstCpWithoutGroup(p: Profile, m: Message, outer: nat, ts: seq<Token>)
    requires |m.cws| >= 1 && |m.cws| >= p.cwCount && |m.cps| >= p.cwCount && CwGroup !in ts
    ensures FirstCp(p, m, outer, ts) == if CpNumber in ts then m.cp else outer
  {
    if ts != [] {
      InLast(ts, CpNumber);
      InLast(ts, CwGroup);
      FirstCpWithoutGroup(p, m, outer, ts[..|ts| - 1]);
    }
  }

  /** The combination list a group alone would give. */
  function OwnCombos(p: Profile, m: Message, outer: nat): seq<Combo>
    requires |m.cws| >= p.cwCount && |m.cps| >= p.cwCount
  {
    seq(p.cwCount, c requires 0 <= c < p.cwCount => Expected(p, m, outer, c))
  }

  /** Two messages that differ only in the number beside the group. */
  function Numbered(p: Profile, cwLen: nat, cp: nat): Message {
    Message(0, cp, seq(p.cwCount, c => 0), seq(p.cwCount + 1, c => seq(cwLen, i => 0)), [], seq(IvLen(p), i => 0))
  }

  /** Every word of a group comes back with the number the group gives it, for all messages, if
      and only if no period number stands behind the group. */
  lemma GroupNumbersSurviveIff(p: Profile, o: Orders, cwLen: nat, outer: nat)
    requires Accepted(p, o) && p.cwCount > 1
    ensures (forall m | MessageOk(p, m, cwLen) :: ExpectedAll(p, o, m, outer) == OwnCombos(p, m, outer))
         <==> !NumberAfterGroup(o.fields)
  {
    hide FirstCp, NumberAfterGroup, Count, WiresOk, HeadersOk, CipherOk;
    forall m | MessageOk(p, m, cwLen)
      ensures var cp := if NumberAfterGroup(o.fields) then m.cp else Expected(p, m, outer, 0).cp;
              ExpectedAll(p, o, m, outer) == OwnCombos(p, m, outer)[0 := Combo(cp, m.cws[0])]
    {
      FirstCpOfGroup(p, m, outer, o.fields);
    }
    if NumberAfterGroup(o.fields) {
      var cp := if Expected(p, Numbered(p, cwLen, 0), outer, 0).cp == 0 then 1 else 0;
      var m := Numbered(p, cwLen, cp);
      assert MessageOk(p, m, cwLen);
      assert ExpectedAll(p, o, m, outer)[0].cp == cp != OwnCombos(p, m, outer)[0].cp;
    }
  }
}
