/**
 * Configurable layout of entitlement control messages
 * (src/dipidescramble/ecm_profile/common.c, wire.c, validate.c).
 */
module EcmProfile {
  import opened Wrappers

  type byte = b: nat | b < 256
  type Bytes = seq<byte>

  // ----- Profiles -----

  datatype Cipher = Aes256Ecb | Aes128Ecb | Aes128Cbc | Aes256Cbc | Aes128Gcm | Aes256Gcm
                  | Ede3Ecb | Ede3Cbc | EdeEcb | EdeCbc

  datatype IvSource = NoIv | ZeroIv | RandomIv | CpNumberIv
  datatype Padding = PadNone | PadZero | PadPkcs7
  datatype Integrity = NoIntegrity | Crc32 | HmacSha256
  datatype Order = AfterEncrypt | BeforeEncrypt
  datatype ShortKey = Truncate | SeparateInfo
  datatype Side = Front | Back

  datatype Token = EcmId | CpNumber | Cw | CwGroup | IntegrityTag | Iv | Ciphertext | GcmTag | Header(id: string)

  datatype HeaderDef = HeaderDef(id: string, data: Bytes)

  datatype Profile = Profile(
    cipher: Cipher,
    iv: IvSource,
    padding: Padding,
    hkdf: bool,
    encInfo: string,
    macInfo: string,
    shortKey: ShortKey,
    shortKeyInfo: Option<string>,
    cpSide: Side,
    integrity: Integrity,
    order: Order,
    truncateTag: nat,
    keepLeft: bool,
    bindEcmId: bool,
    bindCpNumber: bool,
    castagnoli: bool,
    bigEndian: bool,
    headers: seq<HeaderDef>,
    includeCpNumber: bool,
    includeEcmId: bool,
    fieldOrder: Option<seq<Token>>,
    wireOrder: Option<seq<Token>>,
    cwGroup: seq<Token>,
    cwCount: nat,
    ecmId: Option<nat>
  )

  const GCM_NONCE_LEN := 12
  const GCM_TAG_LEN := 16
  const HMAC_LEN := 32

  predicate IsEcb(c: Cipher) { c.Aes256Ecb? || c.Aes128Ecb? || c.Ede3Ecb? || c.EdeEcb? }
  predicate IsCbc(c: Cipher) { c.Aes128Cbc? || c.Aes256Cbc? || c.Ede3Cbc? || c.EdeCbc? }
  predicate IsGcm(c: Cipher) { c.Aes128Gcm? || c.Aes256Gcm? }
  predicate Is3des(c: Cipher) { c.Ede3Ecb? || c.Ede3Cbc? || c.EdeEcb? || c.EdeCbc? }

  function BlockSize(c: Cipher): (n: nat)
    ensures n > 0
  {
    if Is3des(c) then 8 else 16
  }

  function KeyLen(c: Cipher): nat {
    match c
    case Aes256Ecb | Aes256Cbc | Aes256Gcm => 32
    case Aes128Ecb | Aes128Cbc | Aes128Gcm => 16
    case EdeEcb | EdeCbc => 16
    case Ede3Ecb | Ede3Cbc => 24
  }

  predicate Reserved(id: string) {
    id in {"ecm_id", "cp_number", "cw", "cw_group", "integrity_tag", "iv", "ciphertext", "gcm_tag"}
  }

  /** `find_header`: the first header of that name. */
  function FindHeader(hs: seq<HeaderDef>, id: string): Option<HeaderDef> {
    if hs == [] then None
    else if hs[0].id == id then Some(hs[0])
    else FindHeader(hs[1..], id)
  }

  function HeaderLen(p: Profile, id: string): nat {
    var h := FindHeader(p.headers, id);
    if h.Some? then |h.value.data| else 0
  }

  function TagLen(p: Profile): nat {
    match p.integrity
    case NoIntegrity => 0
    case Crc32 => 4
    case HmacSha256 => if p.truncateTag != 0 then p.truncateTag else HMAC_LEN
  }

  // ----- Lengths -----

  datatype Layout = Layout(plain: nat, iv: nat, ct: nat, gcm: nat, itag: nat, wire: nat)

  function UnitTokenLen(t: Token, cwLen: nat): nat {
    if t.Cw? then cwLen else if t.CpNumber? then 2 else 0
  }

  /** One control word of a group with what goes with it. */
  function UnitLen(group: seq<Token>, cwLen: nat): nat {
    if group == [] then 0 else UnitLen(group[..|group| - 1], cwLen) + UnitTokenLen(group[|group| - 1], cwLen)
  }

  function FieldLen(p: Profile, t: Token, cwLen: nat): nat {
    match t
    case Header(id) => HeaderLen(p, id)
    case EcmId => 2
    case CpNumber => 2
    case Cw => cwLen
    case CwGroup => UnitLen(p.cwGroup, cwLen) * p.cwCount
    case IntegrityTag => TagLen(p)
    case _ => 0
  }

  function FieldsLen(p: Profile, ts: seq<Token>, cwLen: nat): nat {
    if ts == [] then 0 else FieldsLen(p, ts[..|ts| - 1], cwLen) + FieldLen(p, ts[|ts| - 1], cwLen)
  }

  function HeadersLen(p: Profile, ts: seq<Token>): nat {
    if ts == [] then 0
    else HeadersLen(p, ts[..|ts| - 1]) + (if ts[|ts| - 1].Header? then HeaderLen(p, ts[|ts| - 1].id) else 0)
  }

  /** Bytes after padding: the fewest blocks the padding can do with. None when an unpadded
      plaintext does not fill its blocks. */
  function Padded(p: Profile, plain: nat): (ct: Option<nat>)
    ensures ct.None? <==> p.padding.PadNone? && plain % BlockSize(p.cipher) != 0
    ensures ct.Some? ==>
              match p.padding
              case PadNone => ct.value == plain
              case PadZero => if plain == 0 then ct.value == BlockSize(p.cipher)
                else ct.value < plain + BlockSize(p.cipher)
              case PadPkcs7 => plain < ct.value <= plain + BlockSize(p.cipher)
    ensures ct.Some? ==> plain <= ct.value && ct.value % BlockSize(p.cipher) == 0
    ensures ct.Some? && plain > 0 ==> ct.value > 0
  {
    var block := BlockSize(p.cipher);
    match p.padding
    case PadNone => if plain % block != 0 then None else Some(plain)
    case PadZero =>
      var n := RoundUp(plain, block);
      Some(if n == 0 then block else n)
    case PadPkcs7 => Some(RoundUp(plain + 1, block))
  }

  /** The next multiple of a block size. */
  function RoundUp(n: nat, block: nat): (r: nat)
    requires block == 8 || block == 16
    ensures n <= r < n + block && r % block == 0
  {
    if block == 8 then ((n + 7) / 8) * 8 else ((n + 15) / 16) * 16
  }

  /** `ecm_profile_layout` for given field and wire orders. */
  function LayoutOf(p: Profile, fields: seq<Token>, wires: seq<Token>, cwLen: nat): Option<Layout> {
    var plain := FieldsLen(p, fields, cwLen);
    var ct := if IsGcm(p.cipher) then Some(plain) else Padded(p, plain);
    if ct.None? then None
    else
      var iv := if IsGcm(p.cipher) then GCM_NONCE_LEN
        else if IsCbc(p.cipher) && p.iv.RandomIv? then BlockSize(p.cipher) else 0;
      var gcm := if IsGcm(p.cipher) then GCM_TAG_LEN else 0;
      var itag := if p.order.AfterEncrypt? then TagLen(p) else 0;
      Some(Layout(plain, iv, ct.value, gcm, itag, iv + ct.value + gcm + itag + HeadersLen(p, wires)))
  }

  // ----- Validation -----

  function Count(ts: seq<Token>, t: Token): nat {
    if ts == [] then 0 else Count(ts[..|ts| - 1], t) + (if ts[|ts| - 1] == t then 1 else 0)
  }

  predicate MacThenEncrypt(p: Profile) {
    p.order.BeforeEncrypt? && !p.integrity.NoIntegrity?
  }

  predicate WireTag(p: Profile) {
    !p.integrity.NoIntegrity? && p.order.AfterEncrypt?
  }

  predicate WireIv(p: Profile) {
    IsGcm(p.cipher) || (IsCbc(p.cipher) && p.iv.RandomIv?)
  }

  predicate CipherOk(p: Profile) {
    && (IsEcb(p.cipher) ==> p.iv.NoIv?)
    && (IsCbc(p.cipher) || IsGcm(p.cipher) ==> !p.iv.NoIv?)
    && (IsGcm(p.cipher) ==> p.padding.PadNone?)
    && (p.truncateTag != 0 ==> (p.truncateTag == 4 || p.truncateTag == 8) && p.integrity.HmacSha256?)
    && !(p.shortKeyInfo.Some? && p.shortKey.Truncate?)
    && (p.shortKey.SeparateInfo? ==> p.hkdf)
  }

  predicate HeadersOk(p: Profile) {
    && (forall i :: 0 <= i < |p.headers| ==> !Reserved(p.headers[i].id))
    && (forall i, j :: 0 <= i < j < |p.headers| ==> p.headers[i].id != p.headers[j].id)
  }

  predicate GroupOk(group: seq<Token>) {
    && (forall i :: 0 <= i < |group| ==> group[i].Cw? || group[i].CpNumber?)
    && Count(group, Cw) == 1 && Count(group, CpNumber) <= 1
  }

  predicate FieldToken(p: Profile, t: Token) {
    && !t.Iv? && !t.Ciphertext? && !t.GcmTag?
    && (t.Header? ==> FindHeader(p.headers, t.id).Some?)
  }

  predicate FieldsOk(p: Profile, ts: seq<Token>) {
    && Count(ts, EcmId) == (if p.includeEcmId then 1 else 0)
    && (if p.cwCount > 1 then
          && Count(ts, Cw) == 0 && Count(ts, CwGroup) == 1
          && Count(ts, CpNumber) <= (if p.includeCpNumber then 1 else 0)
        else
          && Count(ts, CwGroup) == 0 && Count(ts, Cw) == 1
          && Count(ts, CpNumber) == (if p.includeCpNumber then 1 else 0))
    && (if MacThenEncrypt(p) then Count(ts, IntegrityTag) == 1 && ts != [] && ts[|ts| - 1].IntegrityTag?
        else Count(ts, IntegrityTag) == 0)
    && forall i :: 0 <= i < |ts| ==> FieldToken(p, ts[i])
  }

  predicate WireToken(p: Profile, t: Token) {
    && !t.EcmId? && !t.CpNumber? && !t.Cw? && !t.CwGroup?
    && (t.Header? ==> FindHeader(p.headers, t.id).Some?)
  }

  predicate WiresOk(p: Profile, ts: seq<Token>) {
    && Count(ts, Iv) == (if WireIv(p) then 1 else 0)
    && Count(ts, Ciphertext) == 1
    && Count(ts, GcmTag) == (if IsGcm(p.cipher) then 1 else 0)
    && Count(ts, IntegrityTag) == (if WireTag(p) then 1 else 0)
    && forall i :: 0 <= i < |ts| ==> WireToken(p, ts[i])
  }

  function DefaultFields(p: Profile): Option<seq<Token>> {
    if |p.headers| > 1 then None
    else Some((if |p.headers| == 1 then [Header(p.headers[0].id)] else [])
              + (if p.includeEcmId then [EcmId] else [])
              + (if p.includeCpNumber then [CpNumber] else [])
              + [Cw])
  }

  function DefaultWires(p: Profile): seq<Token> {
    (if WireIv(p) then [Iv] else []) + [Ciphertext]
    + (if IsGcm(p.cipher) then [GcmTag] else []) + (if WireTag(p) then [IntegrityTag] else [])
  }

  /** Both orders of an accepted profile, the defaults filled in. */
  datatype Orders = Orders(fields: seq<Token>, wires: seq<Token>)

  /** `ecm_profile_validate`. */
  function Validate(p: Profile): Option<Orders> {
    if !CipherOk(p) || !HeadersOk(p) then None
    else if (MacThenEncrypt(p) || p.cwCount > 1) && p.fieldOrder.None? then None
    else
      var fields := if p.fieldOrder.Some? then p.fieldOrder else DefaultFields(p);
      if fields.None? then None
      else if (if p.cwCount > 1 then p.cwGroup == [] || !GroupOk(p.cwGroup) else p.cwGroup != []) then None
      else if !FieldsOk(p, fields.value) then None
      else
        var wires := if p.wireOrder.Some? then p.wireOrder.value else DefaultWires(p);
        if !WiresOk(p, wires) then None else Some(Orders(fields.value, wires))
  }

  predicate Accepted(p: Profile, o: Orders) {
    Validate(p) == Some(o)
  }
}
