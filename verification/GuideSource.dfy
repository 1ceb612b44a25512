/**
 * What the XMLTV reader hands to the announcer (src/dipibcg/announce/doc.c,
 * src/lib/tva/tva_xml/crid.c, src/lib/helper/uriparse.c).
 *
 * A programme's CRID carries the percent-encoded id of its channel, and later channels of the
 * same id are dropped. So containers of different channels never share a fragment key, whatever
 * the ids and the start times hold.
 */
module GuideSource {
  import opened Wrappers
  import opened Fragments
  import opened Guide
  import opened GuideReuse
  import opened GuideBuilds
  import opened GuideKeys

  // ----- Percent encoding of a path segment -----

  const ID_LEN := 256

  /** An id as the document holds it: bytes in a buffer of ID_LEN. */
  type IdBytes = s: string | |s| < ID_LEN && forall i :: 0 <= i < |s| ==> s[i] < 256 as char witness ""

  predicate Unreserved(c: char) {
    'A' <= c <= 'Z' || 'a' <= c <= 'z' || '0' <= c <= '9' || c == '-' || c == '.' || c == '_' || c == '~'
  }

  function HexDigit(n: nat): char
    requires n < 16
  {
    "0123456789ABCDEF"[n]
  }

  function High(c: char): (n: nat)
    ensures n < 16
  {
    c as int / 16 % 16
  }

  function Low(c: char): (n: nat)
    ensures n < 16
  {
    c as int % 16
  }

  function Escaped(c: char): (e: string)
    ensures 1 <= |e| <= 3 && '/' !in e
  {
    if Unreserved(c) then [c] else ['%', HexDigit(High(c)), HexDigit(Low(c))]
  }

  function PctEncode(s: string): string {
    if s == [] then [] else Escaped(s[0]) + PctEncode(s[1..])
  }

  lemma {:induction false} PctEncodeLength(s: string)
    ensures |s| <= |PctEncode(s)| <= 3 * |s| && '/' !in PctEncode(s)
  {
    if s != [] {
      PctEncodeLength(s[1..]);
    }
  }

  lemma {:induction false} PctEncodeAppend(s: string, c: char)
    ensures PctEncode(s + [c]) == PctEncode(s) + Escaped(c)
  {
    hide Escaped;
    if s == [] {
      assert s + [c] == [c] && [c][1..] == [];
      assert PctEncode([c]) == Escaped(c) + PctEncode([]);
    } else {
      PctEncodeAppend(s[1..], c);
      assert (s + [c])[1..] == s[1..] + [c];
      var e := Escaped(s[0]);
      assert PctEncode(s + [c]) == e + PctEncode(s[1..] + [c]);
      assert e + (PctEncode(s[1..]) + Escaped(c)) == (e + PctEncode(s[1..])) + Escaped(c);
    }
  }

  lemma {:induction false} PctEncodePrefix(s: string, k: nat)
    requires k <= |s|
    ensures PctEncode(s[..k]) <= PctEncode(s)
  {
    if k > 0 {
      PctEncodePrefix(s[1..], k - 1);
      assert s[..k][1..] == s[1..][..k - 1];
    }
  }

  lemma HexDigitsTell(m: nat, n: nat)
    requires m < 16 && n < 16 && HexDigit(m) == HexDigit(n)
    ensures m == n
  {
  }

  lemma EscapedTells(c: char, d: char)
    requires c < 256 as char && d < 256 as char
    requires Escaped(c) <= Escaped(d) || Escaped(d) <= Escaped(c)
    ensures c == d
  {
    hide High, Low, HexDigit;
    assert Escaped(c)[0] == Escaped(d)[0];
    if !Unreserved(c) {
      assert Escaped(c)[1] == Escaped(d)[1] && Escaped(c)[2] == Escaped(d)[2];
      HexDigitsTell(High(c), High(d));
      HexDigitsTell(Low(c), Low(d));
      HalvesTell(c, d);
    }
  }

  lemma HalvesTell(c: char, d: char)
    requires c < 256 as char && d < 256 as char && High(c) == High(d) && Low(c) == Low(d)
    ensures c == d
  {
    assert c as int == 16 * High(c) + Low(c) && d as int == 16 * High(d) + Low(d);
  }

  lemma BothPrefixes(e: string, f: string, k: string)
    requires e <= k && f <= k
    ensures e <= f || f <= e
  {
  }

  /** Different ids have different encodings. */
  lemma {:induction false} PctEncodeInjective(a: IdBytes, b: IdBytes)
    requires PctEncode(a) == PctEncode(b)
    ensures a == b
    decreases |a|
  {
    PctEncodeLength(a);
    PctEncodeLength(b);
    if a != [] && b != [] {
      var e, f := Escaped(a[0]), Escaped(b[0]);
      BothPrefixes(e, f, PctEncode(a));
      EscapedTells(a[0], b[0]);
      assert PctEncode(a)[|e|..] == PctEncode(a[1..]) && PctEncode(b)[|e|..] == PctEncode(b[1..]);
      PctEncodeInjective(a[1..], b[1..]);
      assert a == [a[0]] + a[1..] && b == [b[0]] + b[1..];
    }
  }

  /** The encoder writes a prefix of the encoding that fits its buffer, all of it for every id. */
  method PctEncodeSeg(s: string, outcap: nat) returns (out: string)
    requires outcap > 0
    ensures out <= PctEncode(s) && |out| < outcap
    ensures 3 * |s| < outcap ==> out == PctEncode(s)
  {
    out := "";
    var i := 0;
    assert s[..0] == [];
    while i < |s| && |out| + 1 < outcap
      invariant 0 <= i <= |s| && |out| < outcap && out == PctEncode(s[..i])
    {
      PctEncodeLength(s[..i]);
      PctEncodePrefix(s, i);
      PctEncodeAppend(s[..i], s[i]);
      assert s[..i] + [s[i]] == s[..i + 1];
      if Unreserved(s[i]) {
        out := out + [s[i]];
      } else {
        if |out| + 4 > outcap {
          return;
        }
        out := out + ['%', HexDigit(High(s[i])), HexDigit(Low(s[i]))];
      }
      i := i + 1;
    }
    PctEncodePrefix(s, i);
    PctEncodeLength(s[..i]);
    if i == |s| {
      assert s[..i] == s;
    }
  }

  // ----- CRIDs -----

  const CRID_PREFIX := "crid://dipixmltv.invalid/"
  const CRID_BUF := 3 * ID_LEN + 64
  const TIME_LEN := 32

  /** A start time without its separators. */
  function Compact(s: string): string {
    if s == [] then []
    else (if s[0] == '-' || s[0] == ':' || s[0] == 'T' then [] else [s[0]]) + Compact(s[1..])
  }

  function Cut(s: string, n: nat): (r: string)
    ensures |r| <= n
  {
    if |s| <= n then s else s[..n]
  }

  /** The time in UTC if it can be read, and otherwise at most 14 characters of what it holds. */
  function Stamp(utc: string -> Option<string>, start: string): (r: string)
    ensures |r| < TIME_LEN
  {
    match utc(start)
    case Some(t) => Cut(t, TIME_LEN - 1)
    case None => Cut(Compact(start), 14)
  }

  function BuildCrid(utc: string -> Option<string>, id: IdBytes, start: string): string {
    CRID_PREFIX + PctEncode(id) + "/" + Stamp(utc, start)
  }

  /** A CRID fits its buffer, and its key fits the fragment table. */
  lemma CridFits(utc: string -> Option<string>, id: IdBytes, start: string)
    ensures |BuildCrid(utc, id, start)| < CRID_BUF && |"P:" + BuildCrid(utc, id, start)| <= BASE_MAX
  {
    PctEncodeLength(id);
  }

  /** Whatever begins with a CRID tells the channel the CRID is of. */
  lemma CridTellsChannel(utc: string -> Option<string>, a: IdBytes, b: IdBytes, s: string, t: string, k: string)
    requires BuildCrid(utc, a, s) <= k && BuildCrid(utc, b, t) <= k
    ensures a == b
  {
    PctEncodeLength(a);
    PctEncodeLength(b);
    var n := |CRID_PREFIX|;
    CridHolds(utc, a, s, k);
    CridHolds(utc, b, t, k);
    hide PctEncode, BuildCrid;
    SlashTells(PctEncode(a), PctEncode(b), k[n..]);
    PctEncodeInjective(a, b);
  }

  /** A CRID is its prefix, the encoded id, a slash and no slash before that. */
  lemma CridHolds(utc: string -> Option<string>, id: IdBytes, start: string, k: string)
    requires BuildCrid(utc, id, start) <= k
    ensures var n, e := |CRID_PREFIX|, PctEncode(id);
            n + |e| < |k| && k[n..][..|e|] == e && k[n..][|e|] == '/'
  {
    hide PctEncode;
    var n, e, c := |CRID_PREFIX|, PctEncode(id), BuildCrid(utc, id, start);
    assert c[n..n + |e|] == e && c[n + |e|] == '/';
    assert k[..|c|] == c;
  }

  lemma SlashTells(x: string, y: string, k: string)
    requires '/' !in x && '/' !in y && |x| < |k| && |y| < |k|
    requires k[..|x|] == x && k[|x|] == '/' && k[..|y|] == y && k[|y|] == '/'
    ensures x == y
  {
    assert forall i :: 0 <= i < |y| ==> k[i] == y[i] && y[i] in y;
    assert forall i :: 0 <= i < |x| ==> k[i] == x[i] && x[i] in x;
  }

  // ----- The reader -----

  datatype RawChannel = RawChannel(id: IdBytes, announced: bool)
  datatype RawProgramme = RawProgramme(channel: IdBytes, start: string, title: Option<string>)

  /** The two input files: what was read, and which channels the mapping announces. */
  datatype Source = Source(channels: seq<RawChannel>, programmes: seq<RawProgramme>)

  predicate Has(cs: seq<RawChannel>, id: IdBytes) {
    exists i :: 0 <= i < |cs| && cs[i].id == id
  }

  /** Later channels of an id are dropped. */
  function FirstOnly(cs: seq<RawChannel>): seq<RawChannel> {
    if cs == [] then []
    else
      var front, last := cs[..|cs| - 1], cs[|cs| - 1];
      FirstOnly(front) + if Has(front, last.id) then [] else [last]
  }

  lemma {:induction false} FirstOnlyHas(cs: seq<RawChannel>, id: IdBytes)
    ensures Has(FirstOnly(cs), id) <==> Has(cs, id)
  {
    if cs != [] {
      var front, last := cs[..|cs| - 1], cs[|cs| - 1];
      FirstOnlyHas(front, id);
      FirstOnlyHas(front, last.id);
      HasAppend(front, last, id);
      HasAppend(FirstOnly(front), last, id);
      assert cs == front + [last];
    }
  }

  lemma HasAppend(cs: seq<RawChannel>, c: RawChannel, id: IdBytes)
    ensures Has(cs + [c], id) <==> Has(cs, id) || c.id == id
    ensures Has(cs + [], id) <==> Has(cs, id)
  {
    assert (cs + [c])[|cs|] == c;
    assert cs + [] == cs;
    if i :| 0 <= i < |cs| && cs[i].id == id {
      assert (cs + [c])[i].id == id;
    }
  }

  /** What is left has pairwise different ids. */
  lemma {:induction false} FirstOnlyDiffer(cs: seq<RawChannel>, i: nat, j: nat)
    requires i < j < |FirstOnly(cs)|
    ensures FirstOnly(cs)[i].id != FirstOnly(cs)[j].id
  {
    var front, last := cs[..|cs| - 1], cs[|cs| - 1];
    if j < |FirstOnly(front)| {
      FirstOnlyDiffer(front, i, j);
    } else {
      FirstOnlyHas(front, last.id);
      assert FirstOnly(cs)[i] == FirstOnly(front)[i];
    }
  }

  lemma FirstOnlyNext(cs: seq<RawChannel>, i: nat)
    requires i < |cs|
    ensures FirstOnly(cs[..i + 1]) == FirstOnly(cs[..i]) + if Has(cs[..i], cs[i].id) then [] else [cs[i]]
    ensures forall id :: Has(cs[..i + 1], id) <==> Has(cs[..i], id) || cs[i].id == id
  {
    assert cs[..i + 1][..i] == cs[..i] && cs[..i + 1] == cs[..i] + [cs[i]];
    forall id ensures Has(cs[..i + 1], id) <==> Has(cs[..i], id) || cs[i].id == id {
      HasAppend(cs[..i], cs[i], id);
    }
  }

  /** `drop_dup_channels`: the kept channels move to the front of the array. */
  method DropDupChannels(d: array<RawChannel>) returns (w: nat)
    modifies d
    ensures w <= d.Length && d[..w] == FirstOnly(old(d[..]))
  {
    hide FirstOnly, Has;
    ghost var cs := d[..];
    var seen: set<IdBytes> := {};
    w := 0;
    var i := 0;
    NoChannels(cs);
    while i < d.Length
      invariant 0 <= w <= i <= d.Length == |cs|
      invariant forall k :: i <= k < d.Length ==> d[k] == cs[k]
      invariant d[..w] == FirstOnly(cs[..i])
      invariant forall id :: id in seen <==> Has(cs[..i], id)
    {
      var c := d[i];
      FirstOnlyNext(cs, i);
      if c.id !in seen {
        seen := seen + {c.id};
        d[w] := c;
        w := w + 1;
        assert d[..w] == d[..w - 1] + [c];
      }
      i := i + 1;
    }
    assert cs[..i] == cs;
  }

  lemma NoChannels(cs: seq<RawChannel>)
    ensures FirstOnly(cs[..0]) == [] && forall id :: !Has(cs[..0], id)
  {
  }

  /** The document the announcer gets. */
  function Deliver(utc: string -> Option<string>, src: Source): Doc {
    var cs := FirstOnly(src.channels);
    Doc(seq(|cs|, i requires 0 <= i < |cs| => Channel(cs[i].id, cs[i].announced)),
        seq(|src.programmes|, j requires 0 <= j < |src.programmes| =>
              var p := src.programmes[j]; Programme(BuildCrid(utc, p.channel, p.start), p.title)))
  }

  /** The selected programmes of one channel, in order. */
  function OfChannel(src: Source, id: IdBytes, sel: seq<nat>): (r: seq<nat>)
    ensures forall i :: 0 <= i < |r| ==> r[i] < |src.programmes| && src.programmes[r[i]].channel == id
  {
    if sel == [] then []
    else
      (if sel[0] < |src.programmes| && src.programmes[sel[0]].channel == id then [sel[0]] else [])
      + OfChannel(src, id, sel[1..])
  }

  /** A selection of programmes, channel by channel. */
  function Split(src: Source, sel: seq<nat>): Selection {
    var cs := FirstOnly(src.channels);
    seq(|cs|, c requires 0 <= c < |cs| => OfChannel(src, cs[c].id, sel))
  }

  lemma DeliveredCrid(utc: string -> Option<string>, src: Source, sel: seq<nat>, c: nat, i: nat)
    requires c < |Split(src, sel)| && i < |Split(src, sel)[c]|
    ensures var j := Split(src, sel)[c][i];
            && c < |FirstOnly(src.channels)| && j < |src.programmes|
            && Crid(Deliver(utc, src), j) == BuildCrid(utc, FirstOnly(src.channels)[c].id, src.programmes[j].start)
            && Id(Deliver(utc, src), c) == FirstOnly(src.channels)[c].id
  {
    hide BuildCrid, FirstOnly;
  }

  /** The key of a programme begins with its CRID. */
  lemma KeyHoldsCrid(doc: Doc, sel: seq<nat>, i: nat)
    requires i < |sel|
    ensures var k := Key(doc, Programs(sel), i); |k| >= 2 && Crid(doc, sel[i]) <= k[2..]
  {
    hide FreshKey, Keys;
    var k, b := Key(doc, Programs(sel), i), Base(doc, Program(sel[i]));
    assert b == "P:" + Crid(doc, sel[i]) && k[..|b|] == b;
    assert b[2..] == Crid(doc, sel[i]);
    assert k[2..][..|b| - 2] == k[..|b|][2..];
  }

  /** Every document the reader delivers, with every selection, is distinct. */
  lemma DeliveredIsDistinct(utc: string -> Option<string>, src: Source, sel: seq<nat>)
    ensures DistinctDocument(Deliver(utc, src), Split(src, sel))
  {
    var doc, sels, cs := Deliver(utc, src), Split(src, sel), FirstOnly(src.channels);
    forall c, d | 0 <= c < d < |sels|
      ensures Id(doc, c) != Id(doc, d) && ProgramKeys(doc, sels[c]) !! ProgramKeys(doc, sels[d])
    {
      FirstOnlyDiffer(src.channels, c, d);
      assert Id(doc, c) == cs[c].id && Id(doc, d) == cs[d].id;
      hide Deliver, Split, FirstOnly, ProgramKeys, BuildCrid;
      forall k | k in ProgramKeys(doc, sels[c]) && k in ProgramKeys(doc, sels[d]) ensures false {
        KeysShared(utc, src, sel, c, d, k);
      }
    }
  }

  lemma KeysShared(utc: string -> Option<string>, src: Source, sel: seq<nat>, c: nat, d: nat, k: string)
    requires c < |Split(src, sel)| && d < |Split(src, sel)|
    requires k in ProgramKeys(Deliver(utc, src), Split(src, sel)[c])
    requires k in ProgramKeys(Deliver(utc, src), Split(src, sel)[d])
    ensures c < |FirstOnly(src.channels)| && d < |FirstOnly(src.channels)|
    ensures FirstOnly(src.channels)[c].id == FirstOnly(src.channels)[d].id
  {
    hide Deliver, Split, FirstOnly, Keys, Key, BuildCrid, OfChannel;
    var doc, sels := Deliver(utc, src), Split(src, sel);
    var i := KeyHolder(doc, Programs(sels[c]), |sels[c]|, k);
    var j := KeyHolder(doc, Programs(sels[d]), |sels[d]|, k);
    KeyHoldsCrid(doc, sels[c], i);
    KeyHoldsCrid(doc, sels[d], j);
    DeliveredCrid(utc, src, sel, c, i);
    DeliveredCrid(utc, src, sel, d, j);
    CridTellsChannel(utc, FirstOnly(src.channels)[c].id, FirstOnly(src.channels)[d].id,
                     src.programmes[sels[c][i]].start, src.programmes[sels[d][j]].start, k[2..]);
  }

  /** So no build of a delivered document has a key in two containers. */
  lemma DeliveredDistinct(env: Env, utc: string -> Option<string>, src: Source, sel: seq<nat>)
    ensures Distinct(env, Deliver(utc, src), Split(src, sel))
  {
    var doc, sels := Deliver(utc, src), Split(src, sel);
    hide Deliver, Split, Plan, DistinctKeys, DistinctDocument, ByChannel, BoundsOk;
    var b := Plan(env, doc, sels);
    if b.Some? && PerChannel(b.value, |sels|) {
      PlanByChannel(env, doc, sels);
      DistinctKeysIff(doc, sels, b.value);
      DeliveredIsDistinct(utc, src, sel);
    }
  }
}
