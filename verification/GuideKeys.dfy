/**
 * When the containers of a build share no fragment key, read off the document.
 */
module GuideKeys {
  import opened Wrappers
  import opened Fragments
  import opened Guide
  import opened GuideReuse
  import opened GuideBuilds

  lemma {:induction false} KeysOfFront(doc: Doc, front: seq<Ref>, more: seq<Ref>, n: nat)
    requires n <= |front|
    ensures Keys(doc, front + more, n) == Keys(doc, front, n)
  {
    hide FreshKey, Base;
    if n > 0 {
      KeysOfFront(doc, front, more, n - 1);
    }
  }

  /** The first fragment of its kind in a container has its base as key. */
  lemma FirstOfKind(doc: Doc, refs: seq<Ref>, i: nat)
    requires i < |refs| && forall j :: 0 <= j < i ==> Letter(refs[j]) != Letter(refs[i])
    ensures Key(doc, refs, i) == Base(doc, refs[i])
  {
    var b := Base(doc, refs[i]);
    BaseTells(doc, refs[i], refs[i]);
    if b in Keys(doc, refs, i) {
      var j := KeyHolder(doc, refs, i, b);
      KeyLetter(doc, refs, j);
    }
  }

  /** The keys of a channel's selected programmes. */
  ghost function ProgramKeys(doc: Doc, sel: seq<nat>): set<string> {
    Keys(doc, Programs(sel), |sel|)
  }

  ghost function OtherKeys(doc: Doc, c: nat, sel: seq<nat>): set<string> {
    (if sel == [] then {} else {Base(doc, Schedule(c, sel))}) + {Base(doc, Service(c))}
  }

  lemma KeysOfChannel(doc: Doc, c: nat, sel: seq<nat>)
    ensures ChannelKeys(doc, c, sel) == if Announced(doc, c) then ProgramKeys(doc, sel) + OtherKeys(doc, c, sel) else {}
  {
    ChannelRefsAgree(doc, c, sel);
    hide Refs, Key, Base;
    if Announced(doc, c) {
      var refs, n := ChannelRefs(doc, c, sel), |sel|;
      var tail := (if sel != [] then [Schedule(c, sel)] else []) + [Service(c)];
      assert refs == Programs(sel) + tail;
      KeysOfFront(doc, Programs(sel), tail, n);
      if sel != [] {
        FirstOfKind(doc, refs, n);
        FirstOfKind(doc, refs, n + 1);
        assert Keys(doc, refs, n + 1) == Keys(doc, refs, n) + {Key(doc, refs, n)};
      } else {
        FirstOfKind(doc, refs, n);
      }
    }
  }

  /** Announced channels differ in their ids and share no programme key. */
  ghost predicate DistinctDocument(doc: Doc, sels: Selection) {
    forall c, d :: 0 <= c < d < |sels| && Announced(doc, c) && Announced(doc, d)
      ==> Id(doc, c) != Id(doc, d) && ProgramKeys(doc, sels[c]) !! ProgramKeys(doc, sels[d])
  }

  /** Ids differ, and so do the CRIDs of different channels, none of which holds a '#'. */
  ghost predicate PlainDocument(doc: Doc, sels: Selection) {
    && (forall c, d :: 0 <= c < d < |sels| && Announced(doc, c) && Announced(doc, d) ==> Id(doc, c) != Id(doc, d))
    && (forall c, i :: 0 <= c < |sels| && 0 <= i < |sels[c]| ==> '#' !in Crid(doc, sels[c][i]))
    && (forall c, d, i, j :: 0 <= c < d < |sels| && 0 <= i < |sels[c]| && 0 <= j < |sels[d]|
          ==> Crid(doc, sels[c][i]) != Crid(doc, sels[d][j]))
  }

  /** A key tells its base when the base holds no '#'. */
  lemma KeyTellsBase(a: set<string>, b: set<string>, x: string, y: string)
    requires '#' !in x && '#' !in y && FreshKey(a, x, 1) == FreshKey(b, y, 1)
    ensures x == y
  {
    hide FreshKey;
    var k := FreshKey(a, x, 1);
    NoLonger(k, x, y);
    NoLonger(k, y, x);
  }

  lemma NoLonger(k: string, x: string, y: string)
    requires |y| <= |k| && k[..|y|] == y && '#' !in y && (|k| > |x| ==> k[|x|] == '#')
    ensures |y| <= |x|
  {
    assert forall i :: 0 <= i < |y| ==> y[i] == k[i];
  }

  /** So programmes of one channel may share a CRID, as those with the same start do. */
  lemma PlainIsDistinct(doc: Doc, sels: Selection)
    requires PlainDocument(doc, sels)
    ensures DistinctDocument(doc, sels)
  {
    forall c, d, k | 0 <= c < d < |sels| && k in ProgramKeys(doc, sels[c]) ensures k !in ProgramKeys(doc, sels[d]) {
      if k in ProgramKeys(doc, sels[d]) {
        var i := KeyHolder(doc, Programs(sels[c]), |sels[c]|, k);
        var j := KeyHolder(doc, Programs(sels[d]), |sels[d]|, k);
        BaseTells(doc, Program(sels[c][i]), Program(sels[d][j]));
        PlainBase(doc, sels[c][i]);
        PlainBase(doc, sels[d][j]);
        KeyTellsBase(Keys(doc, Programs(sels[c]), i), Keys(doc, Programs(sels[d]), j),
                     Base(doc, Program(sels[c][i])), Base(doc, Program(sels[d][j])));
      }
    }
  }

  lemma PlainBase(doc: Doc, j: nat)
    requires '#' !in Crid(doc, j)
    ensures '#' !in Base(doc, Program(j))
  {
  }

  lemma ProgramLetters(doc: Doc, sel: seq<nat>, k: string)
    requires k in ProgramKeys(doc, sel)
    ensures |k| >= 1 && k[0] == 'P'
  {
    hide Keys, Key;
    var i := KeyHolder(doc, Programs(sel), |sel|, k);
    KeyLetter(doc, Programs(sel), i);
  }

  lemma ChannelsApartIff(doc: Doc, c: nat, d: nat, a: seq<nat>, b: seq<nat>)
    requires Announced(doc, c) && Announced(doc, d)
    ensures ChannelKeys(doc, c, a) !! ChannelKeys(doc, d, b)
       <==> Id(doc, c) != Id(doc, d) && ProgramKeys(doc, a) !! ProgramKeys(doc, b)
  {
    hide ChannelKeys, ProgramKeys, Base;
    KeysOfChannel(doc, c, a);
    KeysOfChannel(doc, d, b);
    BaseTells(doc, Service(c), Service(d));
    BaseTells(doc, Schedule(c, a), Schedule(d, b));
    BaseTells(doc, Schedule(c, a), Service(d));
    BaseTells(doc, Service(c), Schedule(d, b));
    BaseTells(doc, Service(d), Schedule(d, b));
    BaseTells(doc, Schedule(d, b), Schedule(d, b));
    forall k | k in ProgramKeys(doc, a) ensures k !in OtherKeys(doc, d, b) {
      ProgramLetters(doc, a, k);
    }
    forall k | k in ProgramKeys(doc, b) ensures k !in OtherKeys(doc, c, a) {
      ProgramLetters(doc, b, k);
    }
    assert Base(doc, Service(c)) in OtherKeys(doc, c, a) && Base(doc, Service(d)) in OtherKeys(doc, d, b);
  }

  /** With one container per channel, containers share no key if and only if the document is distinct. */
  lemma DistinctKeysIff(doc: Doc, sels: Selection, b: seq<nat>)
    requires BoundsOk(b, |sels|) && ByChannel(b, |sels|)
    ensures DistinctKeys(doc, sels, b) <==> DistinctDocument(doc, sels)
  {
    hide GroupKeys, ProgramKeys, BoundsOk, ChannelKeys;
    forall g: nat, h: nat | g < h < |sels|
      ensures GroupKeys(doc, sels, b, g) !! GroupKeys(doc, sels, b, h)
         <==> (Announced(doc, g) && Announced(doc, h) ==>
               Id(doc, g) != Id(doc, h) && ProgramKeys(doc, sels[g]) !! ProgramKeys(doc, sels[h]))
    {
      ByChannelRefs(doc, sels, b, g);
      ByChannelRefs(doc, sels, b, h);
      KeysOfChannel(doc, g, sels[g]);
      KeysOfChannel(doc, h, sels[h]);
      if Announced(doc, g) && Announced(doc, h) {
        ChannelsApartIff(doc, g, h, sels[g], sels[h]);
      }
    }
  }
}
