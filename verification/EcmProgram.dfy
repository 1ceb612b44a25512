/**
 * The loops of src/dipidescramble/ecm_profile/validate.c, wire.c and crypto.c, proved against
 * the functions of EcmProfile and EcmDecode.
 */
module EcmProgram {
  import opened Wrappers
  import opened EcmProfile
  import opened EcmDecode

  lemma Snoc(ts: seq<Token>, i: nat)
    requires i < |ts|
    ensures ts[..i + 1][..i] == ts[..i] && ts[..i + 1][i] == ts[i] && |ts[..i + 1]| == i + 1
  {
  }

  /** `count_kind`, for the kinds that are a single token. */
  method CountKind(ts: seq<Token>, t: Token) returns (n: nat)
    ensures n == Count(ts, t)
  {
    n := 0;
    var i := 0;
    while i < |ts|
      invariant 0 <= i <= |ts| && n == Count(ts[..i], t)
    {
      Snoc(ts, i);
      if ts[i] == t {
        n := n + 1;
      }
      i := i + 1;
    }
    assert ts[..i] == ts;
  }

  /** `validate_cw_group`. */
  method CheckGroup(group: seq<Token>) returns (ok: bool)
    ensures ok <==> GroupOk(group)
  {
    var hasCw, hasCp := false, false;
    var i := 0;
    while i < |group|
      invariant 0 <= i <= |group|
      invariant forall j :: 0 <= j < i ==> group[j].Cw? || group[j].CpNumber?
      invariant Count(group[..i], Cw) == (if hasCw then 1 else 0)
      invariant Count(group[..i], CpNumber) == (if hasCp then 1 else 0)
    {
      Snoc(group, i);
      if group[i].Cw? {
        if hasCw {
          CountGrows(group, i + 1, Cw);
          return false;
        }
        hasCw := true;
      } else if group[i].CpNumber? {
        if hasCp {
          CountGrows(group, i + 1, CpNumber);
          return false;
        }
        hasCp := true;
      } else {
        return false;
      }
      i := i + 1;
    }
    assert group[..i] == group;
    return hasCw;
  }

  lemma {:induction false} CountGrows(ts: seq<Token>, k: nat, t: Token)
    requires k <= |ts|
    ensures Count(ts[..k], t) <= Count(ts, t)
    decreases |ts|
  {
    if k < |ts| {
      CountGrows(ts[..|ts| - 1], k, t);
      assert ts[..|ts| - 1][..k] == ts[..k];
    } else {
      assert ts[..k] == ts;
    }
  }

  /** Header names: none reserved, none twice. */
  method CheckHeaders(p: Profile) returns (ok: bool)
    ensures ok <==> HeadersOk(p)
  {
    hide Reserved;
    var i := 0;
    while i < |p.headers|
      invariant 0 <= i <= |p.headers|
      invariant forall k :: 0 <= k < i ==> !Reserved(p.headers[k].id)
      invariant forall k, l :: 0 <= k < i && k < l < |p.headers| ==> p.headers[k].id != p.headers[l].id
    {
      if Reserved(p.headers[i].id) {
        return false;
      }
      var j := i + 1;
      while j < |p.headers|
        invariant i < j <= |p.headers|
        invariant forall l :: i < l < j ==> p.headers[i].id != p.headers[l].id
      {
        if p.headers[i].id == p.headers[j].id {
          return false;
        }
        j := j + 1;
      }
      i := i + 1;
    }
    return true;
  }

  /** The checks on a field order. */
  method CheckFields(p: Profile, ts: seq<Token>) returns (ok: bool)
    ensures ok <==> FieldsOk(p, ts)
  {
    hide FieldToken, Count;
    var ecmIds := CountKind(ts, EcmId);
    var cps := CountKind(ts, CpNumber);
    var cws := CountKind(ts, Cw);
    var groups := CountKind(ts, CwGroup);
    var tags := CountKind(ts, IntegrityTag);
    if ecmIds != (if p.includeEcmId then 1 else 0) {
      return false;
    }
    if p.cwCount > 1 {
      if cws != 0 || groups != 1 || cps > 1 || (cps == 1 && !p.includeCpNumber) {
        return false;
      }
    } else if groups != 0 || cws != 1 || cps != (if p.includeCpNumber then 1 else 0) {
      return false;
    }
    if MacThenEncrypt(p) {
      if tags != 1 || ts == [] || !ts[|ts| - 1].IntegrityTag? {
        return false;
      }
    } else if tags != 0 {
      return false;
    }
    var i := 0;
    while i < |ts|
      invariant 0 <= i <= |ts| && forall j :: 0 <= j < i ==> FieldToken(p, ts[j])
    {
      if !FieldToken(p, ts[i]) {
        return false;
      }
      i := i + 1;
    }
    return true;
  }

  /** The checks on a wire order. */
  method CheckWires(p: Profile, ts: seq<Token>) returns (ok: bool)
    ensures ok <==> WiresOk(p, ts)
  {
    hide WireToken, Count;
    var ivs := CountKind(ts, Iv);
    var cts := CountKind(ts, Ciphertext);
    var gcms := CountKind(ts, GcmTag);
    var tags := CountKind(ts, IntegrityTag);
    if ivs != (if WireIv(p) then 1 else 0) || cts != 1 || gcms != (if IsGcm(p.cipher) then 1 else 0)
      || tags != (if WireTag(p) then 1 else 0) {
      return false;
    }
    var i := 0;
    while i < |ts|
      invariant 0 <= i <= |ts| && forall j :: 0 <= j < i ==> WireToken(p, ts[j])
    {
      if !WireToken(p, ts[i]) {
        return false;
      }
      i := i + 1;
    }
    return true;
  }

  /** `ecm_profile_validate`, the default orders filled in. */
  method ValidateProfile(p: Profile) returns (o: Option<Orders>)
    ensures o == Validate(p)
  {
    hide FieldsOk, WiresOk, HeadersOk, GroupOk, CipherOk;
    if !CipherOk(p) {
      return None;
    }
    var headersOk := CheckHeaders(p);
    if !headersOk || ((MacThenEncrypt(p) || p.cwCount > 1) && p.fieldOrder.None?) {
      return None;
    }
    var fields := if p.fieldOrder.Some? then p.fieldOrder else DefaultFields(p);
    if fields.None? {
      return None;
    }
    if p.cwCount > 1 {
      var groupOk := CheckGroup(p.cwGroup);
      if p.cwGroup == [] || !groupOk {
        return None;
      }
    } else if p.cwGroup != [] {
      return None;
    }
    var fieldsOk := CheckFields(p, fields.value);
    if !fieldsOk {
      return None;
    }
    var wires := if p.wireOrder.Some? then p.wireOrder.value else DefaultWires(p);
    var wiresOk := CheckWires(p, wires);
    if !wiresOk {
      return None;
    }
    return Some(Orders(fields.value, wires));
  }

  /** The default orders need no check: they are always right. */
  lemma DefaultsAccepted(p: Profile)
    requires CipherOk(p) && HeadersOk(p) && !MacThenEncrypt(p) && p.cwCount <= 1 && p.cwGroup == []
    ensures DefaultFields(p).Some? <==> |p.headers| <= 1
    ensures |p.headers| <= 1 ==> FieldsOk(p, DefaultFields(p).value)
    ensures WiresOk(p, DefaultWires(p))
  {
    hide Count, FieldsOk;
    if |p.headers| <= 1 {
      DefaultFieldsOk(p, if |p.headers| == 1 then [Header(p.headers[0].id)] else []);
    }
    var iv: seq<Token> := if WireIv(p) then [Iv] else [];
    var gcm: seq<Token> := if IsGcm(p.cipher) then [GcmTag] else [];
    var tag: seq<Token> := if WireTag(p) then [IntegrityTag] else [];
    assert DefaultWires(p) == iv + [Ciphertext] + gcm + tag;
    CountFour(iv, [Ciphertext], gcm, tag);
  }

  lemma DefaultFieldsOk(p: Profile, hs: seq<Token>)
    requires !MacThenEncrypt(p) && p.cwCount <= 1
    requires |p.headers| <= 1 && hs == if |p.headers| == 1 then [Header(p.headers[0].id)] else []
    ensures FieldsOk(p, DefaultFields(p).value)
  {
    hide Count;
    var ecm: seq<Token> := if p.includeEcmId then [EcmId] else [];
    var cp: seq<Token> := if p.includeCpNumber then [CpNumber] else [];
    assert DefaultFields(p).value == hs + ecm + cp + [Cw];
    CountFour(hs, ecm, cp, [Cw]);
  }

  function One(ts: seq<Token>, t: Token): nat {
    if |ts| == 1 && ts[0] == t then 1 else 0
  }

  lemma CountFour(a: seq<Token>, b: seq<Token>, c: seq<Token>, d: seq<Token>)
    requires |a| <= 1 && |b| <= 1 && |c| <= 1 && |d| <= 1
    ensures forall t :: Count(a + b + c + d, t) == One(a, t) + One(b, t) + One(c, t) + One(d, t)
  {
    forall t ensures Count(a + b + c + d, t) == One(a, t) + One(b, t) + One(c, t) + One(d, t) {
      CountCat(a + b + c, d, t);
      CountCat(a + b, c, t);
      CountCat(a, b, t);
      CountSmall(a, t);
      CountSmall(b, t);
      CountSmall(c, t);
      CountSmall(d, t);
    }
  }

  lemma CountSmall(ts: seq<Token>, t: Token)
    requires |ts| <= 1
    ensures Count(ts, t) == One(ts, t)
  {
    if |ts| == 1 {
      assert ts[..0] == [];
      assert Count(ts[..0], t) == 0;
    }
  }

  lemma {:induction false} CountCat(a: seq<Token>, b: seq<Token>, t: Token)
    ensures Count(a + b, t) == Count(a, t) + Count(b, t)
    decreases |b|
  {
    if b == [] {
      assert a + b == a;
    } else {
      assert (a + b)[..|a + b| - 1] == a + b[..|b| - 1];
      CountCat(a, b[..|b| - 1], t);
    }
  }

  // ----- Layout -----

  /** `cw_group_unit_len`. */
  method GroupUnitLen(group: seq<Token>, cwLen: nat) returns (n: nat)
    ensures n == UnitLen(group, cwLen)
  {
    n := 0;
    var i := 0;
    while i < |group|
      invariant 0 <= i <= |group| && n == UnitLen(group[..i], cwLen)
    {
      Snoc(group, i);
      if group[i].Cw? {
        n := n + cwLen;
      } else if group[i].CpNumber? {
        n := n + 2;
      }
      i := i + 1;
    }
    assert group[..i] == group;
  }

  /** `ecm_profile_layout`. */
  method ComputeLayout(p: Profile, fields: seq<Token>, wires: seq<Token>, cwLen: nat) returns (l: Option<Layout>)
    ensures l == LayoutOf(p, fields, wires, cwLen)
  {
    var plain, i := 0, 0;
    while i < |fields|
      invariant 0 <= i <= |fields| && plain == FieldsLen(p, fields[..i], cwLen)
    {
      Snoc(fields, i);
      match fields[i] {
        case Header(id) => plain := plain + HeaderLen(p, id);
        case EcmId => plain := plain + 2;
        case CpNumber => plain := plain + 2;
        case Cw => plain := plain + cwLen;
        case CwGroup =>
          var unit := GroupUnitLen(p.cwGroup, cwLen);
          plain := plain + unit * p.cwCount;
        case IntegrityTag => plain := plain + TagLen(p);
        case _ =>
      }
      i := i + 1;
    }
    assert fields[..i] == fields;
    var markers, k := 0, 0;
    while k < |wires|
      invariant 0 <= k <= |wires| && markers == HeadersLen(p, wires[..k])
    {
      Snoc(wires, k);
      if wires[k].Header? {
        markers := markers + HeaderLen(p, wires[k].id);
      }
      k := k + 1;
    }
    assert wires[..k] == wires;
    hide FieldsLen, HeadersLen, Padded;
    var ct := if IsGcm(p.cipher) then Some(plain) else Padded(p, plain);
    if ct.None? {
      return None;
    }
    var iv := if IsGcm(p.cipher) then GCM_NONCE_LEN else if IsCbc(p.cipher) && p.iv.RandomIv? then BlockSize(p.cipher)
      else 0;
    var gcm := if IsGcm(p.cipher) then GCM_TAG_LEN else 0;
    var itag := if p.order.AfterEncrypt? then TagLen(p) else 0;
    return Some(Layout(plain, iv, ct.value, gcm, itag, iv + ct.value + gcm + itag + markers));
  }

  // ----- Locating and extracting -----

  /** `locate_wire_components`. */
  method LocateComponents(p: Profile, lay: Layout, wires: seq<Token>, wire: Bytes) returns (r: Option<Located>)
    ensures r == Locate(p, lay, wires, wire)
  {
    hide FindHeader, LocateUpTo;
    LocateStarts(p, lay, wire);
    var s := Nowhere;
    var i := 0;
    while i < |wires|
      invariant 0 <= i <= |wires| && s.off <= |wire|
      invariant LocateUpTo(p, lay, wire, wires[..i]) == Some(s)
    {
      LocateNext(p, lay, wire, wires, i);
      var t := wires[i];
      if t.Header? {
        var h := FindHeader(p.headers, t.id);
        if h.None? || s.off + |h.value.data| > |wire| || wire[s.off..s.off + |h.value.data|] != h.value.data {
          LocateStops(p, lay, wire, wires, i + 1);
          return None;
        }
        s := s.(off := s.off + |h.value.data|);
      } else if !WireComponent(t) {
        LocateStops(p, lay, wire, wires, i + 1);
        return None;
      } else {
        var len := ComponentLen(lay, t);
        if len != 0 {
          if s.off + len > |wire| {
            LocateStops(p, lay, wire, wires, i + 1);
            return None;
          }
          s := SetAt(s, t).(off := s.off + len);
        }
      }
      i := i + 1;
    }
    assert wires[..i] == wires;
    return if s.off == |wire| then Some(s) else None;
  }

  lemma LocateStarts(p: Profile, lay: Layout, wire: Bytes)
    ensures LocateUpTo(p, lay, wire, []) == Some(Nowhere)
  {
  }

  lemma LocateNext(p: Profile, lay: Layout, wire: Bytes, ts: seq<Token>, i: nat)
    requires i < |ts| && LocateUpTo(p, lay, wire, ts[..i]).Some?
    ensures LocateUpTo(p, lay, wire, ts[..i + 1])
            == LocateStep(p, lay, wire, LocateUpTo(p, lay, wire, ts[..i]).value, ts[i])
  {
    hide LocateStep;
    Snoc(ts, i);
  }

  lemma {:induction false} LocateStops(p: Profile, lay: Layout, wire: Bytes, ts: seq<Token>, k: nat)
    requires k <= |ts| && LocateUpTo(p, lay, wire, ts[..k]).None?
    ensures LocateUpTo(p, lay, wire, ts).None?
    decreases |ts| - k
  {
    if k < |ts| {
      Snoc(ts, k);
      LocateStops(p, lay, wire, ts, k + 1);
    } else {
      assert ts[..k] == ts;
    }
  }

  /** `extract_cw_group_combo`. */
  method ExtractUnit(p: Profile, pt: Bytes, cwLen: nat, init: Combo, off: nat, fallback: nat)
    returns (c: Combo, off': nat)
    requires off + UnitLen(p.cwGroup, cwLen) <= |pt|
    ensures c == Unit(p, pt, cwLen, init, off, fallback) && off' == off + UnitLen(p.cwGroup, cwLen)
  {
    hide Read16, UnitUpTo, UnitLen;
    UnitStarts(pt, cwLen, init, off);
    var g := p.cwGroup;
    var hasCp := false;
    c, off' := init, off;
    var j := 0;
    while j < |g|
      invariant 0 <= j <= |g| && off' == off + UnitLen(g[..j], cwLen) && off' <= |pt|
      invariant hasCp <==> CpNumber in g[..j]
      invariant c == UnitUpTo(pt, cwLen, init, off, g[..j])
    {
      UnitNext(pt, cwLen, init, off, g, j);
      if g[j].CpNumber? {
        hasCp := true;
        c := c.(cp := Read16(pt, off'));
        off' := off' + 2;
      } else if g[j].Cw? {
        c := c.(cw := pt[off'..off' + cwLen]);
        off' := off' + cwLen;
      }
      j := j + 1;
    }
    assert g[..j] == g;
    if !hasCp {
      c := c.(cp := fallback);
    }
  }

  lemma UnitStarts(pt: Bytes, cwLen: nat, init: Combo, off: nat)
    requires off <= |pt|
    ensures UnitLen([], cwLen) == 0 && UnitUpTo(pt, cwLen, init, off, []) == init
  {
  }

  lemma UnitNext(pt: Bytes, cwLen: nat, init: Combo, off: nat, g: seq<Token>, j: nat)
    requires j < |g| && off + UnitLen(g, cwLen) <= |pt|
    ensures UnitLen(g[..j + 1], cwLen) == UnitLen(g[..j], cwLen) + UnitTokenLen(g[j], cwLen)
    ensures off + UnitLen(g[..j + 1], cwLen) <= |pt|
    ensures CpNumber in g[..j + 1] <==> CpNumber in g[..j] || g[j] == CpNumber
    ensures UnitUpTo(pt, cwLen, init, off, g[..j + 1])
         == UnitStep(pt, cwLen, UnitUpTo(pt, cwLen, init, off, g[..j]), off + UnitLen(g[..j], cwLen), g[j])
  {
    hide UnitStep;
    Snoc(g, j);
    UnitFits(g, j + 1, cwLen);
    assert g[..j + 1] == g[..j] + [g[j]];
  }

  lemma {:induction false} UnitFits(g: seq<Token>, k: nat, cwLen: nat)
    requires k <= |g|
    ensures UnitLen(g[..k], cwLen) <= UnitLen(g, cwLen)
    decreases |g| - k
  {
    if k < |g| {
      Snoc(g, k);
      UnitFits(g, k + 1, cwLen);
    } else {
      assert g[..k] == g;
    }
  }

  lemma {:induction false} FieldsFit(p: Profile, ts: seq<Token>, k: nat, cwLen: nat)
    requires k <= |ts|
    ensures FieldsLen(p, ts[..k], cwLen) <= FieldsLen(p, ts, cwLen)
    decreases |ts| - k
  {
    if k < |ts| {
      Snoc(ts, k);
      FieldsFit(p, ts, k + 1, cwLen);
    } else {
      assert ts[..k] == ts;
    }
  }

  /** The inner loop over the words of a group. */
  method ExtractGroup(p: Profile, pt: Bytes, cwLen: nat, outer: nat, combos: array<Combo>, off: nat) returns (off': nat)
    requires p.cwCount <= combos.Length && off + UnitLen(p.cwGroup, cwLen) * p.cwCount <= |pt|
    modifies combos
    ensures off' == off + UnitLen(p.cwGroup, cwLen) * p.cwCount
    ensures combos[..] == GroupUpTo(p, pt, cwLen, outer, old(combos[..]), off, p.cwCount)
  {
    hide Unit, UnitLen;
    ghost var unit := UnitLen(p.cwGroup, cwLen);
    ghost var init := combos[..];
    off' := off;
    var c := 0;
    while c < p.cwCount
      invariant 0 <= c <= p.cwCount && off' == off + unit * c && off + unit * c <= |pt|
      invariant combos[..] == GroupUpTo(p, pt, cwLen, outer, init, off, c)
    {
      MulStep(unit, c, p.cwCount);
      ghost var was := combos[..];
      var combo, next := ExtractUnit(p, pt, cwLen, combos[c], off', (outer + c) % 65536);
      combos[c] := combo;
      assert combos[..] == was[c := combo];
      off' := next;
      c := c + 1;
    }
  }

  lemma MulStep(unit: nat, c: nat, n: nat)
    requires c < n
    ensures unit * (c + 1) == unit * c + unit && unit * (c + 1) <= unit * n
  {
    assert unit * n == unit * (c + 1) + unit * (n - c - 1);
  }

  /** The field loop of `ecm_profile_decrypt_cw`, ending exactly behind the last field. */
  method ExtractFields(p: Profile, pt: Bytes, cwLen: nat, outer: nat, combos: array<Combo>, fields: seq<Token>)
    returns (count: nat, off: nat)
    requires combos.Length > 0 && p.cwCount <= combos.Length && FieldsLen(p, fields, cwLen) <= |pt|
    modifies combos
    ensures off == FieldsLen(p, fields, cwLen)
    ensures Fields(off, combos[..], count) == FieldsUpTo(p, pt, cwLen, outer, old(combos[..]), fields)
  {
    hide Read16, GroupUpTo, UnitLen, HeaderLen, TagLen;
    ghost var init := combos[..];
    count, off := 0, 0;
    combos[0] := combos[0].(cp := outer);
    assert combos[..] == init[0 := init[0].(cp := outer)];
    var i := 0;
    while i < |fields|
      invariant 0 <= i <= |fields| && FieldsLen(p, fields[..i], cwLen) <= |pt|
      invariant Fields(off, combos[..], count) == FieldsUpTo(p, pt, cwLen, outer, init, fields[..i])
    {
      Snoc(fields, i);
      FieldsFit(p, fields, i + 1, cwLen);
      ghost var s := Fields(off, combos[..], count);
      var t := fields[i];
      assert off + FieldLen(p, t, cwLen) <= |pt|;
      match t {
        case Header(id) => off := off + HeaderLen(p, id);
        case EcmId => off := off + 2;
        case CpNumber =>
          combos[0] := combos[0].(cp := Read16(pt, off));
          off := off + 2;
        case Cw =>
          combos[0] := combos[0].(cw := pt[off..off + cwLen]);
          off := off + cwLen;
          count := 1;
        case CwGroup =>
          off := ExtractGroup(p, pt, cwLen, outer, combos, off);
          count := p.cwCount;
        case IntegrityTag => off := off + TagLen(p);
        case _ =>
      }
      assert Fields(off, combos[..], count) == FieldStep(p, pt, cwLen, outer, s, t);
      i := i + 1;
    }
    assert fields[..i] == fields;
  }

  /** `compute_tag`, with `serialize_crc32`. */
  method ComputeTag(c: Crypto, p: Profile, mac: Bytes, data: Bytes, assoc: Bytes) returns (t: Option<Bytes>)
    requires Sized(c) && !p.integrity.NoIntegrity? && CipherOk(p)
    ensures t == Tag(c, p, mac, data, assoc)
  {
    var buf := data + assoc;
    if |buf| > 520 {
      return None;
    }
    if p.integrity.Crc32? {
      var v := c.crc(p.castagnoli, buf);
      var b0: byte, b1: byte, b2: byte, b3: byte := v / 16777216 % 256, v / 65536 % 256, v / 256 % 256, v % 256;
      return Some(if p.bigEndian then [b0, b1, b2, b3] else [b3, b2, b1, b0]);
    }
    var want := if p.truncateTag != 0 then p.truncateTag else 32;
    var full := c.hmac(mac, buf);
    if full.None? {
      return None;
    }
    return Some(if p.keepLeft then full.value[..want] else full.value[32 - want..]);
  }

  /** The keys, derived or as they are. */
  method MakeKeys(c: Crypto, p: Profile, sk: Bytes) returns (k: Option<Keys>)
    requires |sk| == 32 && Sized(c)
    ensures k == DeriveKeys(c, p, sk)
  {
    var fullKey, macKey := sk, sk;
    if p.hkdf {
      var full := c.hkdf(sk, p.encInfo);
      if full.None? {
        return None;
      }
      fullKey, macKey := full.value, [];
      if p.integrity.HmacSha256? {
        var mac := c.hkdf(sk, p.macInfo);
        if mac.None? {
          return None;
        }
        macKey := mac.value;
      }
    }
    var n := KeyLen(p.cipher);
    if n < 32 && p.shortKey.SeparateInfo? {
      var sep := c.hkdf(sk, if p.shortKeyInfo.Some? then p.shortKeyInfo.value else "");
      if sep.None? {
        return None;
      }
      return Some(Keys(sep.value[..n], macKey));
    }
    return Some(Keys(fullKey[..n], macKey));
  }

  /** A vector that is not sent: zeroed, then the period number written into it. */
  method MakeIv(p: Profile, outer: nat) returns (iv: Bytes)
    ensures iv == FixedIv(p, outer)
  {
    var n := if IsGcm(p.cipher) then 12 else BlockSize(p.cipher);
    iv := seq(n, _ => 0);
    if p.iv.CpNumberIv? {
      var hi := if p.cpSide.Back? then n - 2 else 0;
      iv := iv[hi := outer / 256 % 256][hi + 1 := outer % 256];
    }
  }

  /** What the tag covers besides the data. */
  method BoundData(p: Profile, outer: nat, fallback: nat) returns (assoc: Bytes)
    ensures assoc == Assoc(p, outer, fallback)
  {
    assoc := [];
    if p.bindEcmId {
      var id := if p.ecmId.Some? then p.ecmId.value else fallback;
      assoc := assoc + [id / 256 % 256] + [id % 256];
    }
    if p.bindCpNumber {
      assoc := assoc + [outer / 256 % 256] + [outer % 256];
    }
  }

  /** The tag at the end of the plaintext against the fields before it. */
  method CheckInner(c: Crypto, p: Profile, o: Orders, cwLen: nat, k: Keys, lay: Layout, pt: Bytes, assoc: Bytes)
    returns (ok: bool)
    requires Accepted(p, o) && CipherOk(p) && Sized(c) && LayoutOf(p, o.fields, o.wires, cwLen) == Some(lay)
             && lay.plain <= |pt| && MacThenEncrypt(p)
    ensures ok <==> InnerTagOk(c, p, o, cwLen, k, lay, pt, assoc)
  {
    hide Accepted, LayoutOf, Tag, CipherOk;
    FieldsHoldTag(p, o, cwLen, lay);
    var at := lay.plain - TagLen(p);
    var tag := ComputeTag(c, p, k.mac, pt[..at], assoc);
    ok := tag == Some(pt[at..lay.plain]);
  }

  /** `ecm_profile_decrypt_cw`: the combinations in the caller's array, or a failure. */
  method DecryptCw(c: Crypto, p: Profile, o: Orders, cwLen: nat, sk: Bytes, wire: Bytes, outer: nat, fallback: nat,
                   combos: array<Combo>)
    returns (count: Option<nat>)
    requires Accepted(p, o) && Sized(c) && |sk| == 32 && cwLen > 0 && combos.Length > 0 && p.cwCount <= combos.Length
    modifies combos
    ensures count.None? <==> Decrypt(c, p, o, cwLen, sk, wire, outer, fallback, old(combos[..])).None?
    ensures count.Some? ==> 0 < count.value <= combos.Length
    ensures count.Some? ==>
            Decrypt(c, p, o, cwLen, sk, wire, outer, fallback, old(combos[..])) == Some(combos[..count.value])
  {
    hide Accepted, Tag, DeriveKeys, FieldsUpTo, LayoutOf, Locate, FixedIv, Unseal, FieldsLen, InnerTagOk, Assoc,
         CipherOk;
    var l := ComputeLayout(p, o.fields, o.wires, cwLen);
    if l.None? || l.value.wire != |wire| || l.value.plain > WIRE_MAX || l.value.ct > WIRE_MAX {
      return None;
    }
    var lay := l.value;
    var located := LocateComponents(p, lay, o.wires, wire);
    if located.None? {
      return None;
    }
    var loc := located.value;
    LocateOk(p, o, cwLen, wire);
    PlainHoldsCw(p, o, cwLen);
    AcceptedCipher(p, o, cwLen);
    var keys := MakeKeys(c, p, sk);
    if keys.None? {
      return None;
    }
    var k := keys.value;
    var iv := None;
    if UsesIv(p) {
      var fixed := MakeIv(p, outer);
      iv := Some(if p.iv.RandomIv? then Slice(wire, loc.iv.value, IvLen(p)) else fixed);
    }
    var assoc := BoundData(p, outer, fallback);
    var ct := Slice(wire, loc.ct.value, lay.ct);
    if WireTag(p) {
      var tag := ComputeTag(c, p, k.mac, ct, assoc);
      if tag != Some(Slice(wire, loc.itag.value, lay.itag)) {
        return None;
      }
    }
    var gcm := if IsGcm(p.cipher) then Slice(wire, loc.gcm.value, lay.gcm) else [];
    var pt := Unseal(c, p, k, iv, assoc, ct, gcm);
    if pt.None? {
      return None;
    }
    assert |pt.value| == lay.ct by { UnsealLength(c, p, k, iv, assoc, ct, gcm); }
    if MacThenEncrypt(p) {
      var ok := CheckInner(c, p, o, cwLen, k, lay, pt.value, assoc);
      if !ok {
        return None;
      }
    }
    var n, off := ExtractFields(p, pt.value, cwLen, outer, combos, o.fields);
    return if n > 0 then Some(n) else None;
  }

  lemma FieldsHoldTag(p: Profile, o: Orders, cwLen: nat, lay: Layout)
    requires Accepted(p, o) && LayoutOf(p, o.fields, o.wires, cwLen) == Some(lay) && MacThenEncrypt(p)
    ensures lay.plain >= TagLen(p)
  {
    hide FieldsLen, WiresOk, HeadersOk, CipherOk;
    FieldsHoldLast(p, o.fields, cwLen);
  }

  lemma UnsealLength(c: Crypto, p: Profile, k: Keys, iv: Option<Bytes>, assoc: Bytes, ct: Bytes, gcm: Bytes)
    requires Sized(c) && (IsGcm(p.cipher) ==> iv.Some?)
    ensures var pt := Unseal(c, p, k, iv, assoc, ct, gcm); pt.Some? ==> |pt.value| == |ct|
  {
  }

  lemma AcceptedCipher(p: Profile, o: Orders, cwLen: nat)
    requires Accepted(p, o) && LayoutOf(p, o.fields, o.wires, cwLen).Some?
    ensures CipherOk(p)
    ensures var lay := LayoutOf(p, o.fields, o.wires, cwLen).value;
            && lay.plain == FieldsLen(p, o.fields, cwLen)
            && (WireIv(p) ==> lay.iv == IvLen(p))
            && (IsGcm(p.cipher) ==> lay.ct == lay.plain)
  {
    hide FieldsLen, FieldsOk, WiresOk, HeadersOk;
  }
}
