/**
 * Decoding a control message (src/dipidescramble/ecm_profile/crypto.c).
 *
 * Positions in the message are offsets. A component that the code would dereference through a
 * pointer is taken out of an option here, so a null dereference would not verify.
 */
module EcmDecode {
  import opened Wrappers
  import opened EcmProfile

  const WIRE_MAX := 512

  // ----- Where the components are -----

  datatype Located = Located(off: nat, iv: Option<nat>, ct: Option<nat>, gcm: Option<nat>, itag: Option<nat>)

  const Nowhere := Located(0, None, None, None, None)

  function ComponentLen(lay: Layout, t: Token): nat {
    match t
    case Iv => lay.iv
    case Ciphertext => lay.ct
    case GcmTag => lay.gcm
    case IntegrityTag => lay.itag
    case _ => 0
  }

  function SetAt(s: Located, t: Token): Located {
    match t
    case Iv => s.(iv := Some(s.off))
    case Ciphertext => s.(ct := Some(s.off))
    case GcmTag => s.(gcm := Some(s.off))
    case IntegrityTag => s.(itag := Some(s.off))
    case _ => s
  }

  predicate WireComponent(t: Token) {
    t.Iv? || t.Ciphertext? || t.GcmTag? || t.IntegrityTag?
  }

  function LocateStep(p: Profile, lay: Layout, wire: Bytes, s: Located, t: Token): (r: Option<Located>)
    ensures r.Some? && s.off <= |wire| ==> r.value.off <= |wire|
  {
    if t.Header? then
      var h := FindHeader(p.headers, t.id);
      if h.None? || s.off + |h.value.data| > |wire| || wire[s.off..s.off + |h.value.data|] != h.value.data then None
      else Some(s.(off := s.off + |h.value.data|))
    else if !WireComponent(t) then None
    else
      var len := ComponentLen(lay, t);
      if len == 0 then Some(s)
      else if s.off + len > |wire| then None
      else Some(SetAt(s, t).(off := s.off + len))
  }

  function LocateUpTo(p: Profile, lay: Layout, wire: Bytes, ts: seq<Token>): (r: Option<Located>)
    ensures r.Some? ==> r.value.off <= |wire|
  {
    if ts == [] then Some(Nowhere)
    else
      var s := LocateUpTo(p, lay, wire, ts[..|ts| - 1]);
      if s.None? then None else LocateStep(p, lay, wire, s.value, ts[|ts| - 1])
  }

  /** `locate_wire_components`: nothing may be left over. */
  function Locate(p: Profile, lay: Layout, wires: seq<Token>, wire: Bytes): Option<Located> {
    var s := LocateUpTo(p, lay, wire, wires);
    if s.Some? && s.value.off == |wire| then s else None
  }

  // ----- Fields of the plaintext -----

  datatype Combo = Combo(cp: nat, cw: Bytes)

  function Be16(v: nat): (b: Bytes)
    ensures |b| == 2
  {
    var high := v / 256 % 256;
    var low := v % 256;
    [high, low]
  }

  function Read16(b: Bytes, off: nat): nat
    requires off + 2 <= |b|
  {
    (b[off] as nat) * 256 + b[off + 1] as nat
  }

  lemma Read16Be16(v: nat)
    requires v < 65536
    ensures Read16(Be16(v), 0) == v
  {
  }

  function UnitStep(pt: Bytes, cwLen: nat, c: Combo, off: nat, t: Token): Combo
    requires off + UnitTokenLen(t, cwLen) <= |pt|
  {
    if t.CpNumber? then c.(cp := Read16(pt, off))
    else if t.Cw? then c.(cw := pt[off..off + cwLen])
    else c
  }

  function UnitUpTo(pt: Bytes, cwLen: nat, c: Combo, off: nat, group: seq<Token>): Combo
    requires off + UnitLen(group, cwLen) <= |pt|
  {
    if group == [] then c
    else
      var front := group[..|group| - 1];
      UnitStep(pt, cwLen, UnitUpTo(pt, cwLen, c, off, front), off + UnitLen(front, cwLen), group[|group| - 1])
  }

  /** `extract_cw_group_combo`. */
  function Unit(p: Profile, pt: Bytes, cwLen: nat, c: Combo, off: nat, fallback: nat): Combo
    requires off + UnitLen(p.cwGroup, cwLen) <= |pt|
  {
    var r := UnitUpTo(pt, cwLen, c, off, p.cwGroup);
    if CpNumber in p.cwGroup then r else r.(cp := fallback)
  }

  /** The first n combinations of a group. */
  function GroupUpTo(p: Profile, pt: Bytes, cwLen: nat, outer: nat, combos: seq<Combo>, off: nat,
                     n: nat): (r: seq<Combo>)
    requires n <= |combos| && off + UnitLen(p.cwGroup, cwLen) * n <= |pt|
    ensures |r| == |combos|
  {
    if n == 0 then combos
    else
      assert UnitLen(p.cwGroup, cwLen) * n == UnitLen(p.cwGroup, cwLen) * (n - 1) + UnitLen(p.cwGroup, cwLen);
      var r := GroupUpTo(p, pt, cwLen, outer, combos, off, n - 1);
      r[n - 1 := Unit(p, pt, cwLen, r[n - 1], off + UnitLen(p.cwGroup, cwLen) * (n - 1), (outer + n - 1) % 65536)]
  }

  datatype Fields = Fields(off: nat, combos: seq<Combo>, count: nat)

  function FieldStep(p: Profile, pt: Bytes, cwLen: nat, outer: nat, s: Fields, t: Token): (r: Fields)
    requires |s.combos| > 0 && p.cwCount <= |s.combos| && s.off + FieldLen(p, t, cwLen) <= |pt|
    ensures |r.combos| == |s.combos| && r.off == s.off + FieldLen(p, t, cwLen)
    ensures s.count <= |s.combos| ==> r.count <= |r.combos|
  {
    var off := s.off + FieldLen(p, t, cwLen);
    match t
    case CpNumber => Fields(off, s.combos[0 := s.combos[0].(cp := Read16(pt, s.off))], s.count)
    case Cw => Fields(off, s.combos[0 := s.combos[0].(cw := pt[s.off..s.off + cwLen])], 1)
    case CwGroup => Fields(off, GroupUpTo(p, pt, cwLen, outer, s.combos, s.off, p.cwCount), p.cwCount)
    case _ => s.(off := off)
  }

  /** Extraction never reads past the fields, and ends exactly behind them. */
  function FieldsUpTo(p: Profile, pt: Bytes, cwLen: nat, outer: nat, init: seq<Combo>, ts: seq<Token>): (r: Fields)
    requires |init| > 0 && p.cwCount <= |init| && FieldsLen(p, ts, cwLen) <= |pt|
    ensures |r.combos| == |init| && r.off == FieldsLen(p, ts, cwLen) && r.count <= |init|
  {
    if ts == [] then Fields(0, init[0 := init[0].(cp := outer)], 0)
    else FieldStep(p, pt, cwLen, outer, FieldsUpTo(p, pt, cwLen, outer, init, ts[..|ts| - 1]), ts[|ts| - 1])
  }

  // ----- Keys, initialisation vector, tags -----

  /** The libraries, as functions. */
  datatype Crypto = Crypto(
    hkdf: (Bytes, string) -> Option<Bytes>,
    hmac: (Bytes, Bytes) -> Option<Bytes>,
    crc: (bool, Bytes) -> nat,
    blockEnc: (Cipher, Bytes, Option<Bytes>, Bytes) -> Bytes,
    blockDec: (Cipher, Bytes, Option<Bytes>, Bytes) -> Option<Bytes>,
    gcmEnc: (nat, Bytes, Bytes, Bytes, Bytes) -> (Bytes, Bytes),
    gcmDec: (nat, Bytes, Bytes, Bytes, Bytes, Bytes) -> Option<Bytes>
  )

  /** Lengths the libraries keep. */
  ghost predicate Sized(c: Crypto) {
    && (forall k, i :: c.hkdf(k, i).Some? ==> |c.hkdf(k, i).value| == 32)
    && (forall k, d :: c.hmac(k, d).Some? ==> |c.hmac(k, d).value| == HMAC_LEN)
    && (forall a, k, v, d :: c.blockDec(a, k, v, d).Some? ==> |c.blockDec(a, k, v, d).value| == |d|)
    && (forall n, k, v, a, d, t :: c.gcmDec(n, k, v, a, d, t).Some? ==> |c.gcmDec(n, k, v, a, d, t).value| == |d|)
  }

  datatype Keys = Keys(enc: Bytes, mac: Bytes)

  function DeriveKeys(c: Crypto, p: Profile, sk: Bytes): (k: Option<Keys>)
    requires |sk| == 32 && Sized(c)
    ensures k.Some? ==> |k.value.enc| == KeyLen(p.cipher)
  {
    var full := if p.hkdf then c.hkdf(sk, p.encInfo) else Some(sk);
    var mac := if !p.hkdf then Some(sk) else if p.integrity.HmacSha256? then c.hkdf(sk, p.macInfo) else Some([]);
    if full.None? || mac.None? then None
    else
      var n := KeyLen(p.cipher);
      if n < 32 && p.shortKey.SeparateInfo? then
        var sep := c.hkdf(sk, if p.shortKeyInfo.Some? then p.shortKeyInfo.value else "");
        if sep.None? then None else Some(Keys(sep.value[..n], mac.value))
      else Some(Keys(full.value[..n], mac.value))
  }

  function IvLen(p: Profile): (n: nat)
    ensures n >= 8
  {
    if IsGcm(p.cipher) then GCM_NONCE_LEN else BlockSize(p.cipher)
  }

  predicate UsesIv(p: Profile) {
    IsGcm(p.cipher) || IsCbc(p.cipher)
  }

  /** A vector that is not sent: zero, or the crypto period number in its first or last bytes. */
  function FixedIv(p: Profile, outer: nat): (v: Bytes)
    ensures |v| == IvLen(p)
  {
    var n := IvLen(p);
    var hi := if p.cpSide.Back? then n - 2 else 0;
    seq(n, i requires 0 <= i < n =>
      if !p.iv.CpNumberIv? then 0 else if i == hi then outer / 256 % 256 else if i == hi + 1 then outer % 256 else 0)
  }

  function Assoc(p: Profile, outer: nat, fallback: nat): (a: Bytes)
    ensures |a| <= 4
  {
    (if p.bindEcmId then Be16(if p.ecmId.Some? then p.ecmId.value else fallback) else [])
    + (if p.bindCpNumber then Be16(outer) else [])
  }

  function Be32(v: nat): (b: Bytes)
    ensures |b| == 4
  {
    [v / 16777216 % 256, v / 65536 % 256, v / 256 % 256, v % 256]
  }

  function Reverse4(b: Bytes): (r: Bytes)
    requires |b| == 4
    ensures |r| == 4
  {
    [b[3], b[2], b[1], b[0]]
  }

  /** `compute_tag`. */
  function Tag(c: Crypto, p: Profile, mac: Bytes, data: Bytes, assoc: Bytes): (t: Option<Bytes>)
    requires Sized(c) && !p.integrity.NoIntegrity? && CipherOk(p)
    ensures t.Some? ==> |t.value| == TagLen(p)
  {
    if |data| + |assoc| > WIRE_MAX + 8 then None
    else if p.integrity.Crc32? then
      var b := Be32(c.crc(p.castagnoli, data + assoc));
      Some(if p.bigEndian then b else Reverse4(b))
    else
      var full := c.hmac(mac, data + assoc);
      if full.None? then None
      else Some(if p.keepLeft then full.value[..TagLen(p)] else full.value[HMAC_LEN - TagLen(p)..])
  }

  // ----- An accepted profile locates everything it uses -----

  /** The located components lie in the message and are those the profile says. */
  ghost predicate LocatedOk(p: Profile, lay: Layout, wire: Bytes, s: Located) {
    && (WireIv(p) ==> s.iv.Some? && s.iv.value + lay.iv <= |wire|)
    && (lay.ct > 0 ==> s.ct.Some? && s.ct.value + lay.ct <= |wire|)
    && (IsGcm(p.cipher) ==> s.gcm.Some? && s.gcm.value + lay.gcm <= |wire|)
    && (WireTag(p) ==> s.itag.Some? && s.itag.value + lay.itag <= |wire|)
  }

  /** The part of a located component set by the tokens so far. */
  ghost predicate SetIn(lay: Layout, wire: Bytes, s: Located, ts: seq<Token>) {
    && (Count(ts, Iv) > 0 && lay.iv > 0 ==> s.iv.Some? && s.iv.value + lay.iv <= |wire|)
    && (Count(ts, Ciphertext) > 0 && lay.ct > 0 ==> s.ct.Some? && s.ct.value + lay.ct <= |wire|)
    && (Count(ts, GcmTag) > 0 && lay.gcm > 0 ==> s.gcm.Some? && s.gcm.value + lay.gcm <= |wire|)
    && (Count(ts, IntegrityTag) > 0 && lay.itag > 0 ==> s.itag.Some? && s.itag.value + lay.itag <= |wire|)
  }

  lemma {:induction false} LocateSets(p: Profile, lay: Layout, wire: Bytes, ts: seq<Token>)
    requires LocateUpTo(p, lay, wire, ts).Some?
    ensures SetIn(lay, wire, LocateUpTo(p, lay, wire, ts).value, ts)
  {
    if ts != [] {
      LocateSets(p, lay, wire, ts[..|ts| - 1]);
    }
  }

  lemma LocateOk(p: Profile, o: Orders, cwLen: nat, wire: Bytes)
    requires Accepted(p, o) && LayoutOf(p, o.fields, o.wires, cwLen).Some?
    requires Locate(p, LayoutOf(p, o.fields, o.wires, cwLen).value, o.wires, wire).Some?
    ensures LocatedOk(p, LayoutOf(p, o.fields, o.wires, cwLen).value, wire,
                      Locate(p, LayoutOf(p, o.fields, o.wires, cwLen).value, o.wires, wire).value)
  {
    LocateSets(p, LayoutOf(p, o.fields, o.wires, cwLen).value, wire, o.wires);
    hide LocateUpTo, FieldsLen, HeadersLen, Count, FieldsOk, HeadersOk;
  }

  lemma {:induction false} FieldsHold(p: Profile, ts: seq<Token>, t: Token, cwLen: nat)
    requires Count(ts, t) > 0
    ensures FieldsLen(p, ts, cwLen) >= FieldLen(p, t, cwLen)
  {
    hide FieldLen;
    if ts[|ts| - 1] != t {
      FieldsHold(p, ts[..|ts| - 1], t, cwLen);
    }
  }

  lemma {:induction false} UnitHolds(group: seq<Token>, cwLen: nat)
    requires Count(group, Cw) > 0
    ensures UnitLen(group, cwLen) >= cwLen
  {
    if group[|group| - 1] != Cw {
      UnitHolds(group[..|group| - 1], cwLen);
    }
  }

  /** A control word is in the plaintext, so neither it nor the ciphertext is empty. */
  lemma PlainHoldsCw(p: Profile, o: Orders, cwLen: nat)
    requires Accepted(p, o) && LayoutOf(p, o.fields, o.wires, cwLen).Some?
    ensures LayoutOf(p, o.fields, o.wires, cwLen).value.plain >= cwLen
    ensures LayoutOf(p, o.fields, o.wires, cwLen).value.ct >= LayoutOf(p, o.fields, o.wires, cwLen).value.plain
  {
    hide FieldsLen, HeadersLen, WiresOk, HeadersOk, CipherOk, Padded;
    if p.cwCount > 1 {
      FieldsHold(p, o.fields, CwGroup, cwLen);
      UnitHolds(p.cwGroup, cwLen);
      assert UnitLen(p.cwGroup, cwLen) * p.cwCount >= UnitLen(p.cwGroup, cwLen);
    } else {
      FieldsHold(p, o.fields, Cw, cwLen);
    }
  }

  lemma {:induction false} FieldsHoldLast(p: Profile, ts: seq<Token>, cwLen: nat)
    requires ts != []
    ensures FieldsLen(p, ts, cwLen) == FieldsLen(p, ts[..|ts| - 1], cwLen) + FieldLen(p, ts[|ts| - 1], cwLen)
  {
  }

  // ----- Decoding -----

  function Slice(b: Bytes, off: nat, n: nat): (r: Bytes)
    requires off + n <= |b|
    ensures |r| == n
  {
    b[off..off + n]
  }

  /** `ecm_profile_decrypt_cw` for an accepted profile. `init` is what the caller's array held. */
  function Decrypt(c: Crypto, p: Profile, o: Orders, cwLen: nat, sk: Bytes, wire: Bytes, outer: nat, fallback: nat,
                   init: seq<Combo>): Option<seq<Combo>>
    requires Accepted(p, o) && Sized(c) && |sk| == 32 && cwLen > 0
    requires |init| > 0 && p.cwCount <= |init|
  {
    var l := LayoutOf(p, o.fields, o.wires, cwLen);
    if l.None? || l.value.wire != |wire| || l.value.plain > WIRE_MAX || l.value.ct > WIRE_MAX then None
    else
      var lay := l.value;
      var loc := Locate(p, lay, o.wires, wire);
      if loc.None? then None
      else
        LocateOk(p, o, cwLen, wire);
        PlainHoldsCw(p, o, cwLen);
        Open(c, p, o, cwLen, sk, wire, outer, fallback, init, lay, loc.value)
  }

  function Unseal(c: Crypto, p: Profile, k: Keys, iv: Option<Bytes>, assoc: Bytes, ct: Bytes, gcm: Bytes): Option<Bytes>
    requires IsGcm(p.cipher) ==> iv.Some?
  {
    if IsGcm(p.cipher) then c.gcmDec(if |k.enc| == 16 then 128 else 256, k.enc, iv.value, assoc, ct, gcm)
    else c.blockDec(p.cipher, k.enc, if IsCbc(p.cipher) then iv else None, ct)
  }

  function Open(c: Crypto, p: Profile, o: Orders, cwLen: nat, sk: Bytes, wire: Bytes, outer: nat, fallback: nat,
                init: seq<Combo>, lay: Layout, loc: Located): Option<seq<Combo>>
    requires Accepted(p, o) && Sized(c) && |sk| == 32 && |init| > 0 && p.cwCount <= |init|
    requires LayoutOf(p, o.fields, o.wires, cwLen) == Some(lay) && LocatedOk(p, lay, wire, loc)
             && 0 < lay.plain <= lay.ct
  {
    var keys := DeriveKeys(c, p, sk);
    if keys.None? then None
    else
      var k := keys.value;
      var assoc := Assoc(p, outer, fallback);
      var iv := if !UsesIv(p) then None
                else if p.iv.RandomIv? then Some(Slice(wire, loc.iv.value, IvLen(p)))
                else Some(FixedIv(p, outer));
      var ct := Slice(wire, loc.ct.value, lay.ct);
      if WireTag(p) && Tag(c, p, k.mac, ct, assoc) != Some(Slice(wire, loc.itag.value, lay.itag)) then None
      else
        var gcm := if IsGcm(p.cipher) then Slice(wire, loc.gcm.value, lay.gcm) else [];
        var pt := Unseal(c, p, k, iv, assoc, ct, gcm);
        if pt.None? then None
        else if MacThenEncrypt(p) && !InnerTagOk(c, p, o, cwLen, k, lay, pt.value, assoc) then None
        else
          var f := FieldsUpTo(p, pt.value, cwLen, outer, init, o.fields);
          if f.count > 0 then Some(f.combos[..f.count]) else None
  }

  /** The tag is the last field. */
  predicate InnerTagOk(c: Crypto, p: Profile, o: Orders, cwLen: nat, k: Keys, lay: Layout, pt: Bytes, assoc: Bytes)
    requires Accepted(p, o) && Sized(c) && LayoutOf(p, o.fields, o.wires, cwLen) == Some(lay) && lay.plain <= |pt|
             && MacThenEncrypt(p)
  {
    FieldsHoldLast(p, o.fields, cwLen);
    Tag(c, p, k.mac, pt[..lay.plain - TagLen(p)], assoc) == Some(Slice(pt, lay.plain - TagLen(p), TagLen(p)))
  }
}
