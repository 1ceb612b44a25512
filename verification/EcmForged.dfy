/**
 * Messages with a wrong tag, and what the tags, vectors and bound data of a message are made of
 * (src/dipidescramble/ecm_profile/crypto.c).
 *
 * A message that is the encoder's but for its tags is decoded if and only if the tag its profile
 * checks is the right one.
 */
module EcmForged {
  import opened Wrappers
  import opened EcmProfile
  import opened EcmDecode
  import opened EcmRoundTrip

  /** The encoder's message with any tags in place of its own. */
  function Forge(c: Crypto, p: Profile, o: Orders, k: Keys, outer: nat, fallback: nat, m: Message, inner: Bytes,
                 itag: Bytes): Bytes
    requires |m.cws| >= 1 && |m.cws| >= p.cwCount && |m.cps| >= p.cwCount
  {
    var iv := SentIv(p, m, outer);
    var body := Seal(c, p, k, iv, Assoc(p, outer, fallback), PlainOf(p, m, o.fields, inner), m.pad);
    WireOf(p, Parts(if WireIv(p) then iv else [], body.0, body.1, itag), o.wires)
  }

  /** The tags that cover what such a message holds. */
  ghost predicate TagsRight(c: Crypto, p: Profile, o: Orders, k: Keys, outer: nat, fallback: nat, m: Message,
                            inner: Bytes, itag: Bytes)
    requires Sized(c) && CipherOk(p) && |m.cws| >= 1 && |m.cws| >= p.cwCount && |m.cps| >= p.cwCount
    requires MacThenEncrypt(p) ==> o.fields != []
  {
    var assoc := Assoc(p, outer, fallback);
    && (MacThenEncrypt(p) ==> Tag(c, p, k.mac, PlainOf(p, m, o.fields[..|o.fields| - 1], []), assoc) == Some(inner))
    && (WireTag(p) ==>
          Tag(c, p, k.mac, Seal(c, p, k, SentIv(p, m, outer), assoc, PlainOf(p, m, o.fields, inner), m.pad).0, assoc)
          == Some(itag))
  }

  /** The inner tag is compared with the tag of the plaintext before it. */
  lemma InnerTagIff(c: Crypto, p: Profile, o: Orders, cwLen: nat, m: Message, k: Keys, lay: Layout, pt: Bytes,
                    assoc: Bytes, tag: Bytes)
    requires Accepted(p, o) && Sized(c) && LayoutOf(p, o.fields, o.wires, cwLen) == Some(lay) && lay.plain <= |pt|
    requires MessageOk(p, m, cwLen) && MacThenEncrypt(p) && |tag| == TagLen(p)
    requires HasAt(pt, 0, PlainOf(p, m, o.fields, tag))
    ensures CipherOk(p) && o.fields != []
    ensures InnerTagOk(c, p, o, cwLen, k, lay, pt, assoc)
       <==> Tag(c, p, k.mac, PlainOf(p, m, o.fields[..|o.fields| - 1], []), assoc) == Some(tag)
  {
    hide *;
    MessageSizes(p, m, cwLen);
    TagLast(p, o);
    var front := o.fields[..|o.fields| - 1];
    var data := PlainOf(p, m, front, tag);
    TagUnused(p, m, front, tag, []);
    FieldsHoldLast(p, o.fields, cwLen);
    PlainIsFields(p, o, cwLen, lay);
    PlainSplits(p, o, m, tag);
    PlainLen(p, m, front, tag, cwLen);
    HasParts(pt, 0, data, tag);
    SliceHas(pt, 0, data);
    SliceHas(pt, lay.plain - TagLen(p), tag);
    InnerTagEquals(c, p, o, cwLen, k, lay, pt, assoc, data, tag);
  }

  lemma PlainSplits(p: Profile, o: Orders, m: Message, tag: Bytes)
    requires |m.cws| >= 1 && |m.cws| >= p.cwCount && |m.cps| >= p.cwCount
    requires o.fields != [] && o.fields[|o.fields| - 1] == IntegrityTag
    ensures PlainOf(p, m, o.fields, tag) == PlainOf(p, m, o.fields[..|o.fields| - 1], tag) + tag
  {
  }

  lemma InnerTagEquals(c: Crypto, p: Profile, o: Orders, cwLen: nat, k: Keys, lay: Layout, pt: Bytes, assoc: Bytes,
                       data: Bytes, tag: Bytes)
    requires Accepted(p, o) && Sized(c) && LayoutOf(p, o.fields, o.wires, cwLen) == Some(lay) && lay.plain <= |pt|
             && MacThenEncrypt(p) && CipherOk(p)
    requires |tag| == TagLen(p) && |data| + TagLen(p) == lay.plain && Slice(pt, 0, |data|) == data
             && Slice(pt, |data|, |tag|) == tag
    ensures InnerTagOk(c, p, o, cwLen, k, lay, pt, assoc) <==> Tag(c, p, k.mac, data, assoc) == Some(tag)
  {
    hide Accepted, LayoutOf, Tag;
    assert pt[..|data|] == data;
  }

  lemma OpensIff(c: Crypto, p: Profile, o: Orders, cwLen: nat, sk: Bytes, wire: Bytes, outer: nat, fallback: nat,
                 m: Message, init: seq<Combo>, lay: Layout, loc: Located, k: Keys, inner: Bytes, plain: Bytes, x: Parts)
    requires Accepted(p, o) && Lawful(c) && |sk| == 32 && MessageOk(p, m, cwLen) && |init| > 0 && p.cwCount <= |init|
    requires LayoutOf(p, o.fields, o.wires, cwLen) == Some(lay) && 0 < lay.plain <= lay.ct
             && Arrived(p, lay, x, wire, loc)
    requires DeriveKeys(c, p, sk) == Some(k) && |inner| == TagLen(p)
    requires CipherOk(p) && (MacThenEncrypt(p) ==> o.fields != [])
    requires var iv := SentIv(p, m, outer);
             && plain == PlainOf(p, m, o.fields, inner) && |plain| == lay.plain
             && (x.ct, x.gcm) == Seal(c, p, k, iv, Assoc(p, outer, fallback), plain, m.pad)
             && (WireIv(p) ==> x.iv == iv)
    requires IsGcm(p.cipher) || |m.pad| == lay.ct - lay.plain
    ensures Open(c, p, o, cwLen, sk, wire, outer, fallback, init, lay, loc).Some?
       <==> TagsRight(c, p, o, k, outer, fallback, m, inner, x.itag)
  {
    var assoc, iv := Assoc(p, outer, fallback), SentIv(p, m, outer);
    hide FieldsLen, HeadersLen, FieldsOk, WiresOk, HeadersOk, HasAt, Tag, DeriveKeys, FieldsUpTo, PlainOf, FixedIv,
         ExpectedAll, InnerTagOk, Padded, Count, Seal, Unseal;
    if WireIv(p) { SliceHas(wire, loc.iv.value, x.iv); }
    SliceHas(wire, loc.ct.value, x.ct);
    if IsGcm(p.cipher) { SliceHas(wire, loc.gcm.value, x.gcm); }
    if WireTag(p) { SliceHas(wire, loc.itag.value, x.itag); }
    Unseals(c, p, k, iv, assoc, plain, m.pad, lay.ct);
    var pt := if IsGcm(p.cipher) then plain else plain + m.pad;
    StartsWith(pt, plain);
    if MacThenEncrypt(p) {
      InnerTagIff(c, p, o, cwLen, m, k, lay, pt, assoc, inner);
    }
    ExtractsAll(p, o, m, pt, cwLen, outer, init, inner);
  }

  /**
   * The encoder's message with any tags of the right length, inside the ciphertext and on the wire, is
   * decoded if and only if the tag the profile checks covers what the message holds.
   */
  lemma ForgedIff(c: Crypto, p: Profile, o: Orders, cwLen: nat, sk: Bytes, outer: nat, fallback: nat, m: Message,
                  init: seq<Combo>, inner: Bytes, itag: Bytes)
    requires Accepted(p, o) && Lawful(c) && |sk| == 32 && cwLen > 0 && MessageOk(p, m, cwLen)
    requires |init| > 0 && p.cwCount <= |init|
    requires var l := LayoutOf(p, o.fields, o.wires, cwLen);
             && l.Some? && l.value.plain <= WIRE_MAX && l.value.ct <= WIRE_MAX && |itag| == l.value.itag
             && (IsGcm(p.cipher) || |m.pad| == l.value.ct - l.value.plain)
    requires DeriveKeys(c, p, sk).Some? && |inner| == TagLen(p)
    ensures CipherOk(p) && (MacThenEncrypt(p) ==> o.fields != [])
    ensures var k := DeriveKeys(c, p, sk).value;
            Decrypt(c, p, o, cwLen, sk, Forge(c, p, o, k, outer, fallback, m, inner, itag), outer, fallback, init).Some?
            <==> TagsRight(c, p, o, k, outer, fallback, m, inner, itag)
  {
    hide FieldsLen, HeadersLen, FieldsOk, WiresOk, HeadersOk, Tag, DeriveKeys, FieldsUpTo, PlainOf, FixedIv,
         Padded, Count, Locate, WireOf, Open, Accepted, TagsRight;
    WiresAccepted(p, o);
    if MacThenEncrypt(p) { TagLast(p, o); }
    var lay := LayoutOf(p, o.fields, o.wires, cwLen).value;
    var k := DeriveKeys(c, p, sk).value;
    var assoc := Assoc(p, outer, fallback);
    var iv := SentIv(p, m, outer);
    var plain := PlainOf(p, m, o.fields, inner);
    PlainLen(p, m, o.fields, inner, cwLen);
    PlainHoldsCw(p, o, cwLen);
    Unseals(c, p, k, iv, assoc, plain, m.pad, lay.ct);
    var body := Seal(c, p, k, iv, assoc, plain, m.pad);
    var x := Parts(if WireIv(p) then iv else [], body.0, body.1, itag);
    Arrives(p, o, cwLen, lay, x);
    var wire := WireOf(p, x, o.wires);
    OpensIff(c, p, o, cwLen, sk, wire, outer, fallback, m, init, lay, Locate(p, lay, o.wires, wire).value, k, inner,
             plain, x);
  }

  /** So whoever changes the tag on the wire, and nothing else, is found out. */
  lemma OtherTagRejected(c: Crypto, p: Profile, o: Orders, cwLen: nat, sk: Bytes, outer: nat, fallback: nat, m: Message,
                         init: seq<Combo>, inner: Bytes, itag: Bytes, other: Bytes)
    requires Accepted(p, o) && Lawful(c) && |sk| == 32 && cwLen > 0 && MessageOk(p, m, cwLen) && WireTag(p)
    requires |init| > 0 && p.cwCount <= |init|
    requires var l := LayoutOf(p, o.fields, o.wires, cwLen);
             && l.Some? && l.value.plain <= WIRE_MAX && l.value.ct <= WIRE_MAX
             && |itag| == |other| == l.value.itag && itag != other
             && (IsGcm(p.cipher) || |m.pad| == l.value.ct - l.value.plain)
    requires DeriveKeys(c, p, sk).Some? && |inner| == TagLen(p)
    requires var k := DeriveKeys(c, p, sk).value;
             Decrypt(c, p, o, cwLen, sk, Forge(c, p, o, k, outer, fallback, m, inner, itag), outer, fallback,
                     init).Some?
    ensures var k := DeriveKeys(c, p, sk).value;
            Decrypt(c, p, o, cwLen, sk, Forge(c, p, o, k, outer, fallback, m, inner, other), outer, fallback,
                    init).None?
  {
    hide Decrypt, Forge, LayoutOf, DeriveKeys, Accepted, PlainOf, Seal, Tag;
    ForgedIff(c, p, o, cwLen, sk, outer, fallback, m, init, inner, itag);
    ForgedIff(c, p, o, cwLen, sk, outer, fallback, m, init, inner, other);
  }

  /** The encoder's own message has the right tags. */
  lemma EncodeIsForge(c: Crypto, p: Profile, o: Orders, cwLen: nat, sk: Bytes, outer: nat, fallback: nat, m: Message)
    requires Accepted(p, o) && Sized(c) && |sk| == 32 && MessageOk(p, m, cwLen)
    requires Encode(c, p, o, cwLen, sk, outer, fallback, m).Some?
    ensures CipherOk(p) && (MacThenEncrypt(p) ==> o.fields != [])
    ensures exists inner, itag ::
              && |inner| == TagLen(p)
              && Encode(c, p, o, cwLen, sk, outer, fallback, m).value
                 == Forge(c, p, o, DeriveKeys(c, p, sk).value, outer, fallback, m, inner, itag)
              && TagsRight(c, p, o, DeriveKeys(c, p, sk).value, outer, fallback, m, inner, itag)
  {
    hide FieldsLen, HeadersLen, FieldsOk, WiresOk, HeadersOk, Tag, DeriveKeys, PlainOf, FixedIv, Padded, Count, WireOf,
         Accepted, Seal;
    WiresAccepted(p, o);
    if MacThenEncrypt(p) { TagLast(p, o); }
    var k, assoc := DeriveKeys(c, p, sk).value, Assoc(p, outer, fallback);
    var inner := InnerTag(c, p, o, m, k.mac, assoc).value;
    var body := Seal(c, p, k, SentIv(p, m, outer), assoc, PlainOf(p, m, o.fields, inner), m.pad);
    var itag := OuterTag(c, p, k.mac, body.0, assoc).value;
    assert Encode(c, p, o, cwLen, sk, outer, fallback, m).value
        == Forge(c, p, o, k, outer, fallback, m, inner, itag);
    assert TagsRight(c, p, o, k, outer, fallback, m, inner, itag);
  }

  // ----- How long messages are -----

  lemma OneMode(c: Cipher)
    ensures (if IsEcb(c) then 1 else 0) + (if IsCbc(c) then 1 else 0) + (if IsGcm(c) then 1 else 0) == 1
    ensures Is3des(c) ==> !IsGcm(c)
  {
  }

  /**
   * The bytes of a message by cipher. The Galois modes send a nonce of 12 bytes, a ciphertext as long as the
   * plaintext and a tag of 16; the chained modes send a vector of one block when it is random; the
   * others none. A block has 8 bytes for the triple ciphers and 16 for the rest.
   */
  lemma MessageLength(p: Profile, o: Orders, cwLen: nat)
    requires Accepted(p, o) && cwLen > 0 && LayoutOf(p, o.fields, o.wires, cwLen).Some?
    ensures var lay := LayoutOf(p, o.fields, o.wires, cwLen).value;
            var random := p.iv.RandomIv?;
            var (vector, tag, block) :=
              match p.cipher
              case Aes128Gcm | Aes256Gcm => (12, 16, 1)
              case Aes128Cbc | Aes256Cbc => (if random then 16 else 0, 0, 16)
              case Ede3Cbc | EdeCbc => (if random then 8 else 0, 0, 8)
              case Aes128Ecb | Aes256Ecb => (0, 0, 16)
              case Ede3Ecb | EdeEcb => (0, 0, 8);
            && lay.plain <= lay.ct <= lay.plain + block - (if p.padding.PadPkcs7? then 0 else 1)
            && lay.ct % block == 0
            && (p.padding.PadPkcs7? ==> lay.plain < lay.ct)
            && lay.wire == vector + lay.ct + tag + (if WireTag(p) then TagLen(p) else 0) + HeadersLen(p, o.wires)
  {
    hide FieldsLen, HeadersLen, FieldsOk, HeadersOk, WiresOk;
    AcceptedMode(p, o);
    PlainHoldsCw(p, o, cwLen);
    hide Accepted;
    assert p.padding.PadNone? || p.padding.PadZero? || p.padding.PadPkcs7?;
  }

  lemma AcceptedMode(p: Profile, o: Orders)
    requires Accepted(p, o)
    ensures CipherOk(p)
  {
    hide FieldsOk, HeadersOk, WiresOk;
  }
}
