/**
 * Exactly when copying a published container is the same as encoding its channel again, whatever
 * builds have failed in between: the fragment table must still hold every fragment of the channel
 * with the content it encodes to and with the identifier and version the container lists.
 */
module GuideKept {
  import opened Wrappers
  import opened Fragments
  import opened Guide
  import opened GuideReuse
  import opened GuideBuilds

  // ----- What the table holds of a channel -----

  ghost predicate InTable(t: Table, doc: Doc, refs: seq<Ref>) {
    forall i :: 0 <= i < |refs| ==> Key(doc, refs, i) in t.frags
  }

  ghost function NowRefs(t: Table, doc: Doc, refs: seq<Ref>, offs: seq<Offset>): seq<FragRef>
    requires |offs| == |refs| && InTable(t, doc, refs)
  {
    seq(|refs|, i requires 0 <= i < |refs| => RefAt(t, Key(doc, refs, i), refs[i], offs[i]))
  }

  /** The references the published container lists. */
  ghost function Listed(env: Env, u: Unit, ver: Version): (slots: seq<Slot>)
    requires exists slots :: Lists(env, u, ver, slots)
    ensures Lists(env, u, ver, slots)
  {
    var slots :| Lists(env, u, ver, slots);
    slots
  }

  /** Content, identifier and version of every fragment of a channel are those of its container. */
  ghost predicate Held(env: Env, t: Table, doc: Doc, c: nat, sel: seq<nat>, ver: Version) {
    var refs, u := Refs(doc, c, [sel]), Encode(env, doc, c, [sel]);
    && u.Some? && (exists slots :: Lists(env, u.value, ver, slots))
    && InTable(t, doc, refs)
    && Recorded(t, doc, refs, u.value)
    && Slots(SortById(NowRefs(t, doc, refs, u.value.offs))) == Listed(env, u.value, ver)
  }

  /** A container tells which references it lists. */
  ghost predicate OneContainer(env: Env) {
    forall au, strs, s, s' :: env.container(au, strs, s).Some?
      && env.container(au, strs, s) == env.container(au, strs, s')
      ==> s == s'
  }

  lemma NowRefsAre(t: Table, doc: Doc, refs: seq<Ref>, offs: seq<Offset>)
    requires |offs| == |refs| && InTable(t, doc, refs)
    ensures RefsAre(t, doc, refs, offs, NowRefs(t, doc, refs, offs), |refs|)
  {
    hide Key, RefAt;
  }

  lemma RecordedInTable(t: Table, doc: Doc, refs: seq<Ref>, u: Unit)
    requires UnitOk(u, |refs|) && Recorded(t, doc, refs, u)
    ensures InTable(t, doc, refs)
  {
    hide Key, Base, Piece, UnitOk;
    forall i | 0 <= i < |refs| ensures Key(doc, refs, i) in t.frags {
      assert RecordedAt(t, doc, refs, u, i);
    }
  }

  /** The invariant behind reuse says no more and no less. */
  lemma ChannelOkIffHeld(env: Env, t: Table, doc: Doc, c: nat, sel: seq<nat>, ver: Version, seg: Bytes)
    requires Made(env, doc, c, sel, ver, seg) && OneContainer(env)
    ensures ChannelOk(env, t, doc, c, sel, ver, seg) <==> Held(env, t, doc, c, sel, ver)
  {
    var refs, u := Refs(doc, c, [sel]), Encode(env, doc, c, [sel]).value;
    hide Refs, Encode, Fits, Key, Keys, SortById, Slots, RefsAre, NowRefs, RecordedAt, UnitOk;
    UnitLength(u, |refs|);
    if Recorded(t, doc, refs, u) {
      RecordedInTable(t, doc, refs, u);
      var now := NowRefs(t, doc, refs, u.offs);
      NowRefsAre(t, doc, refs, u.offs);
      assert Lists(env, u, ver, Listed(env, u, ver));
      forall out | RefsAre(t, doc, refs, u.offs, out, |refs|) ensures out == now {
        RefsUnique(t, doc, refs, u.offs, out, now, |refs|);
      }
    }
  }

  lemma UnitLength(u: Unit, n: nat)
    requires UnitOk(u, n)
    ensures |u.offs| == n
  {
  }

  // ----- When reuse equals encoding -----

  /** Marking gives no content, and keeps what the table knows. */
  lemma {:induction false} TouchOnlyMarks(t: Table, doc: Doc, refs: seq<Ref>, n: nat)
    requires n <= |refs|
    ensures var t' := Walk(t, doc, refs, None, n).table;
            && (forall k :: k in t.frags ==> k in t'.frags)
            && (forall k :: k in t'.frags ==>
                  t'.frags[k].ver == if k in t.frags then t.frags[k].ver else Unset)
  {
    hide Base, FreeKey;
    if n > 0 {
      TouchOnlyMarks(t, doc, refs, n - 1);
    }
  }

  /** A walk changes no identifier. */
  lemma {:induction false} WalkKeepsIds(t: Table, doc: Doc, refs: seq<Ref>, unit: Option<Unit>, n: nat)
    requires n <= |refs| && (unit.Some? ==> UnitOk(unit.value, |refs|))
    ensures var t' := Walk(t, doc, refs, unit, n).table;
            forall k :: k in t.frags ==> k in t'.frags && t'.frags[k].id == t.frags[k].id
  {
    hide Base, FreeKey, Piece, UnitOk, SetVersion;
    if n > 0 {
      WalkKeepsIds(t, doc, refs, unit, n - 1);
      MarkedPresent(Walk(t, doc, refs, unit, n - 1).table, Base(doc, refs[n - 1]));
    }
  }

  /** The two ways to make channel c's container left the same version and the same contents. */
  ghost predicate Alike(a: Work, b: Work, doc: Doc, c: nat, sel: seq<nat>) {
    && c < |a.out.vers| && c < |b.out.vers| && a.out.vers[c] == b.out.vers[c]
    && forall k :: k in ChannelKeys(doc, c, sel) ==>
         (k in a.table.frags <==> k in b.table.frags)
         && (k in a.table.frags ==> a.table.frags[k].ver == b.table.frags[k].ver)
  }

  /** Encoded contents that marking alone leaves too were recorded before. */
  lemma RecordedBefore(t: Table, a: Table, b: Table, doc: Doc, refs: seq<Ref>, u: Unit, out: seq<FragRef>)
    requires UnitOk(u, |refs|) && Assigned(a, doc, refs, u, out, |refs|)
    requires forall k :: k in b.frags ==> b.frags[k].ver == if k in t.frags then t.frags[k].ver else Unset
    requires forall k :: k in t.frags ==> k in a.frags && a.frags[k].id == t.frags[k].id
    requires forall k :: k in Keys(doc, refs, |refs|) && k in a.frags ==>
             k in b.frags && a.frags[k].ver == b.frags[k].ver
    ensures Recorded(t, doc, refs, u) && RefsAre(t, doc, refs, u.offs, out, |refs|)
  {
    hide Base, Piece, Key, Keys, UnitOk;
    forall i | 0 <= i < |refs|
      ensures RecordedAt(t, doc, refs, u, i)
      ensures Key(doc, refs, i) in t.frags && out[i] == RefAt(t, Key(doc, refs, i), refs[i], u.offs[i])
    {
      KeyIn(doc, refs, i);
      assert RecordedAt(a, doc, refs, u, i);
    }
    UnitLength(u, |refs|);
  }

  lemma EncodeParts(env: Env, w: Work, doc: Doc, c: nat, sel: seq<nat>)
    requires c < |w.out.vers| && EncodeGroup(env, w, doc, c, c, [sel]).ok
    ensures var refs, u := Refs(doc, c, [sel]), Encode(env, doc, c, [sel]);
            var a := Walk(w.table, doc, refs, u, |refs|);
            var o := EncodeGroup(env, w, doc, c, c, [sel]).work;
            && u.Some? && Fits(u.value) && a.ok && o.table == a.table
            && env.container(u.value.au, u.value.strs, Slots(SortById(a.refs))).Some?
            && o.out.vers[c]
               == SetVersion(w.out.vers[c], env.container(u.value.au, u.value.strs, Slots(SortById(a.refs))).value, 256)
  {
    hide Refs, Encode, Fits, Walk, Entries, SortById, Slots, SetVersion;
  }

  lemma ReuseParts(env: Env, w: Work, prev: Out, doc: Doc, c: nat, sel: seq<nat>)
    requires c < |w.out.vers| && c < |prev.seg| && ReuseGroup(env, w, prev, doc, c, sel).ok
    ensures var refs := Refs(doc, c, [sel]);
            var o := ReuseGroup(env, w, prev, doc, c, sel).work;
            o.table == Walk(w.table, doc, refs, None, |refs|).table && o.out.vers == w.out.vers
  {
    ChannelRefsAgree(doc, c, sel);
    hide Refs, ChannelRefs, Walk, Entries;
  }

  /** If both ways succeed and leave the same, the channel was recorded. */
  lemma AlikeIsKept(env: Env, w: Work, prev: Out, doc: Doc, c: nat, sel: seq<nat>)
    requires c < |w.out.vers| && c < |prev.seg| && Made(env, doc, c, sel, w.out.vers[c], prev.seg[c])
    requires Unmarked(w.table, ChannelKeys(doc, c, sel))
    requires EncodeGroup(env, w, doc, c, c, [sel]).ok && ReuseGroup(env, w, prev, doc, c, sel).ok
    requires Alike(EncodeGroup(env, w, doc, c, c, [sel]).work, ReuseGroup(env, w, prev, doc, c, sel).work, doc, c, sel)
    ensures ChannelOk(env, w.table, doc, c, sel, w.out.vers[c], prev.seg[c])
  {
    var refs, u := Refs(doc, c, [sel]), Encode(env, doc, c, [sel]).value;
    EncodeParts(env, w, doc, c, sel);
    ReuseParts(env, w, prev, doc, c, sel);
    hide Refs, Encode, Fits, Walk, EncodeGroup, ReuseGroup, Keys, Unmarked, SortById, Slots, Assigned, RefsAre, UnitOk,
         RecordedAt;
    WalkAssigns(w.table, doc, refs, u, |refs|);
    TouchOnlyMarks(w.table, doc, refs, |refs|);
    WalkKeepsIds(w.table, doc, refs, Some(u), |refs|);
    var a := Walk(w.table, doc, refs, Some(u), |refs|);
    RecordedBefore(w.table, a.table, Walk(w.table, doc, refs, None, |refs|).table, doc, refs, u, a.refs);
    forall out | RefsAre(w.table, doc, refs, u.offs, out, |refs|) ensures out == a.refs {
      RefsUnique(w.table, doc, refs, u.offs, out, a.refs, |refs|);
    }
  }

  lemma SameIsAlike(a: Work, doc: Doc, c: nat, sel: seq<nat>)
    requires c < |a.out.vers|
    ensures Alike(a, a, doc, c, sel)
  {
  }

  /** Touching recorded fragments succeeds. */
  lemma KeptReuses(env: Env, w: Work, prev: Out, doc: Doc, c: nat, sel: seq<nat>)
    requires c < |w.out.vers| && c < |prev.seg|
    requires Unmarked(w.table, ChannelKeys(doc, c, sel))
    requires ChannelOk(env, w.table, doc, c, sel, w.out.vers[c], prev.seg[c])
    ensures ReuseGroup(env, w, prev, doc, c, sel).ok
  {
    var refs, u := Refs(doc, c, [sel]), Encode(env, doc, c, [sel]).value;
    ChannelRefsAgree(doc, c, sel);
    hide Refs, ChannelRefs, Keys, Unmarked, Recorded, Encode, Fits, Walk, Entries, UnitOk;
    WalkTouches(w.table, doc, refs, u, |refs|);
  }

  /**
   * Copying a channel's container succeeds and is the same as encoding the channel again if and
   * only if the table still holds the channel's fragments as the container lists them.
   */
  lemma ReuseIffHeld(env: Env, w: Work, prev: Out, doc: Doc, c: nat, sel: seq<nat>)
    requires c < |w.out.vers| && c < |prev.seg| && Made(env, doc, c, sel, w.out.vers[c], prev.seg[c])
    requires Unmarked(w.table, ChannelKeys(doc, c, sel)) && OneContainer(env)
    ensures ReuseGroup(env, w, prev, doc, c, sel).ok
            && ReuseGroup(env, w, prev, doc, c, sel) == EncodeGroup(env, w, doc, c, c, [sel])
       <==> Held(env, w.table, doc, c, sel, w.out.vers[c])
  {
    hide Made, OneContainer, Held, ChannelOk, Unmarked, Keys, Refs, EncodeGroup, ReuseGroup, Alike;
    ChannelOkIffHeld(env, w.table, doc, c, sel, w.out.vers[c], prev.seg[c]);
    var r := ReuseGroup(env, w, prev, doc, c, sel);
    if r.ok && r == EncodeGroup(env, w, doc, c, c, [sel]) {
      SameIsAlike(r.work, doc, c, sel);
      AlikeIsKept(env, w, prev, doc, c, sel);
    }
    if ChannelOk(env, w.table, doc, c, sel, w.out.vers[c], prev.seg[c]) {
      SameKeys(doc, c, sel, w.table);
      ReuseIsEncode(env, w, prev, doc, c, sel);
      KeptReuses(env, w, prev, doc, c, sel);
    }
  }

  // ----- Whole builds -----

  /** The fragments and the version of channel c are the same in both. */
  ghost predicate Untouched(a: Work, b: Work, doc: Doc, c: nat, sel: seq<nat>) {
    && c < |a.out.vers| && c < |b.out.vers| && a.out.vers[c] == b.out.vers[c]
    && forall k :: k in ChannelKeys(doc, c, sel) ==>
         (k in a.table.frags <==> k in b.table.frags)
         && (k in a.table.frags ==> a.table.frags[k] == b.table.frags[k])
  }

  lemma UntouchedSteps(a: Work, b: Work, d: Work, doc: Doc, c: nat, sel: seq<nat>)
    requires Untouched(a, b, doc, c, sel) && Untouched(b, d, doc, c, sel)
    ensures Untouched(a, d, doc, c, sel)
  {
    hide ChannelKeys;
  }

  lemma OutsideUntouched(a: Work, b: Work, doc: Doc, c: nat, sel: seq<nat>, g: nat, keys: set<string>)
    requires OutFrame(a.out, b.out, g) && SameOutside(a.table, b.table, keys) && c != g && c < |a.out.vers|
    requires keys !! ChannelKeys(doc, c, sel)
    ensures Untouched(a, b, doc, c, sel)
  {
    hide ChannelKeys;
  }

  lemma StaysUntouched(a: Work, doc: Doc, c: nat, sel: seq<nat>)
    requires c < |a.out.vers|
    ensures Untouched(a, a, doc, c, sel)
  {
  }

  /** Other containers leave channel c alone. */
  lemma OtherGroup(env: Env, w: Work, prev: Out, doc: Doc, sels: Selection, b: seq<nat>, reuse: bool, c: nat, g: nat)
    requires BoundsOk(b, |sels|) && ByChannel(b, |sels|) && g < |sels| && c < |sels| && c != g && |sels| <= |w.out.vers|
    requires DistinctKeys(doc, sels, b) && Unmarked(w.table, GroupKeys(doc, sels, b, g))
    ensures Untouched(w, Group(env, w, prev, doc, sels, b, reuse, g).work, doc, c, sels[c])
  {
    assert GroupKeys(doc, sels, b, g) !! GroupKeys(doc, sels, b, c);
    assert |b| == |sels| + 1;
    hide DistinctKeys, BoundsOk, ByChannel, Group, OutFrame, SameOutside, Unmarked, GroupKeys, ChannelKeys, TableOk;
    ByChannelRefs(doc, sels, b, c);
    GroupFrame(env, w, prev, doc, sels, b, reuse, g);
    OutsideUntouched(w, Group(env, w, prev, doc, sels, b, reuse, g).work, doc, c, sels[c], g,
                     GroupKeys(doc, sels, b, g));
  }

  /** The setting of a build with one container per channel. */
  ghost predicate Setting(env: Env, w0: Work, prev: Out, doc: Doc, sels: Selection, b: seq<nat>) {
    && BoundsOk(b, |sels|) && ByChannel(b, |sels|) && |sels| <= |w0.out.vers|
    && DistinctKeys(doc, sels, b) && NothingEmitted(w0.table)
    && w0.out.sels == Some(sels) && w0.out.seg == []
    && MadeOk(env, doc, w0.out.srcGen, prev)
    && forall h :: 0 <= h < |prev.vers| && h < |w0.out.vers| ==> w0.out.vers[h] == prev.vers[h]
  }

  lemma SettingParts(env: Env, w0: Work, prev: Out, doc: Doc, sels: Selection, b: seq<nat>)
    requires Setting(env, w0, prev, doc, sels, b)
    ensures BoundsOk(b, |sels|) && ByChannel(b, |sels|) && |b| == |sels| + 1 && |b| - 1 <= |w0.out.vers|
    ensures DistinctKeys(doc, sels, b) && NothingEmitted(w0.table) && PerChannel(b, |sels|)
    ensures forall h :: 0 <= h < |prev.vers| && h < |w0.out.vers| ==> w0.out.vers[h] == prev.vers[h]
    ensures w0.out.sels == Some(sels)
  {
  }

  /** What holds before container g. */
  lemma BeforeGroup(env: Env, w0: Work, prev: Out, doc: Doc, sels: Selection, b: seq<nat>, reuse: bool, g: nat)
    requires Setting(env, w0, prev, doc, sels, b) && g < |sels|
    ensures BoundsOk(b, |sels|) && g + 1 < |b| && |b| - 1 <= |w0.out.vers|
    ensures var w := Groups(env, w0, prev, doc, sels, b, reuse, g).work;
            && |w.out.vers| == |w0.out.vers| && Unmarked(w.table, GroupKeys(doc, sels, b, g))
            && Progress(w0, w, KeysBefore(doc, sels, b, g), g)
  {
    hide *;
    SettingParts(env, w0, prev, doc, sels, b);
    GroupsProgress(env, w0, prev, doc, sels, b, reuse, g);
    GroupProgress(env, w0, Groups(env, w0, prev, doc, sels, b, reuse, g).work, prev, doc, sels, b, reuse, g);
  }

  lemma {:induction false} GroupsLeave(env: Env, w0: Work, prev: Out, doc: Doc, sels: Selection, b: seq<nat>,
                                       reuse: bool, c: nat, k: nat)
    requires Setting(env, w0, prev, doc, sels, b) && c < k <= |sels|
    ensures BoundsOk(b, |sels|) && k < |b| && |b| - 1 <= |w0.out.vers|
    ensures Untouched(Groups(env, w0, prev, doc, sels, b, reuse, c + 1).work,
                      Groups(env, w0, prev, doc, sels, b, reuse, k).work, doc, c, sels[c])
    decreases k
  {
    hide *;
    SettingParts(env, w0, prev, doc, sels, b);
    var w := Groups(env, w0, prev, doc, sels, b, reuse, c + 1).work;
    if k == c + 1 {
      StaysUntouched(w, doc, c, sels[c]);
    } else {
      GroupsLeave(env, w0, prev, doc, sels, b, reuse, c, k - 1);
      GroupsUnfold(env, w0, prev, doc, sels, b, reuse, k);
      var x := Groups(env, w0, prev, doc, sels, b, reuse, k - 1).work;
      BeforeGroup(env, w0, prev, doc, sels, b, reuse, k - 1);
      if Groups(env, w0, prev, doc, sels, b, reuse, k - 1).ok {
        OtherGroup(env, x, prev, doc, sels, b, reuse, c, k - 1);
        UntouchedSteps(w, x, Groups(env, w0, prev, doc, sels, b, reuse, k).work, doc, c, sels[c]);
      }
    }
  }

  lemma {:induction false} GroupsOkEarlier(env: Env, w0: Work, prev: Out, doc: Doc, sels: Selection, b: seq<nat>,
                                           reuse: bool, m: nat, k: nat)
    requires BoundsOk(b, |sels|) && m <= k < |b| && |b| - 1 <= |w0.out.vers|
    requires Groups(env, w0, prev, doc, sels, b, reuse, k).ok
    ensures Groups(env, w0, prev, doc, sels, b, reuse, m).ok
    decreases k
  {
    hide *;
    if m < k {
      GroupsUnfold(env, w0, prev, doc, sels, b, reuse, k);
      GroupsOkEarlier(env, w0, prev, doc, sels, b, reuse, m, k - 1);
    }
  }

  /** A reused channel, as the build finds it. */
  lemma ReusedSetting(env: Env, w0: Work, w: Work, prev: Out, doc: Doc, sels: Selection, b: seq<nat>, g: nat)
    requires Setting(env, w0, prev, doc, sels, b) && BoundsOk(b, |sels|) && g < |b|
    requires Progress(w0, w, KeysBefore(doc, sels, b, g), g) && Reused(prev, sels, w0.out.srcGen, g)
    ensures Same(prev, w.out, g) && g < |sels| && g < |w.out.vers| && g < |prev.seg| && g < |prev.vers|
    ensures w.out.vers[g] == prev.vers[g] && Made(env, doc, g, sels[g], prev.vers[g], prev.seg[g])
  {
    hide Made, SameOutside, TableOk, KeysBefore, DistinctKeys, NothingEmitted, BoundsOk, ByChannel;
  }

  /** The first channel that is not recorded any more gets another container. */
  lemma LostDiffers(env: Env, w0: Work, w: Work, prev: Out, doc: Doc, sels: Selection, b: seq<nat>, g: nat)
    requires Setting(env, w0, prev, doc, sels, b) && g < |sels| && |w.out.vers| == |w0.out.vers| && |b| == |sels| + 1
    requires BoundsOk(b, |sels|) && Progress(w0, w, KeysBefore(doc, sels, b, g), g)
    requires !KeptAt(env, w0.table, doc, sels, w0.out.srcGen, prev, g)
    requires Group(env, w, prev, doc, sels, b, false, g).ok && Group(env, w, prev, doc, sels, b, true, g).ok
    ensures !Alike(Group(env, w, prev, doc, sels, b, false, g).work, Group(env, w, prev, doc, sels, b, true, g).work,
                   doc, g, sels[g])
  {
    ReusedSetting(env, w0, w, prev, doc, sels, b, g);
    SettingParts(env, w0, prev, doc, sels, b);
    KeysApart(doc, sels, b, g, g);
    ByChannelRefs(doc, sels, b, g);
    GroupUnmarked(w0, w, KeysBefore(doc, sels, b, g), g, GroupKeys(doc, sels, b, g));
    SameKeys(doc, g, sels[g], w.table);
    TwoWays(env, w, prev, doc, sels, b, g);
    hide Setting, Made, Alike, EncodeGroup, ReuseGroup, Group, KeysBefore, GroupKeys, ChannelKeys, ChannelOk, Unmarked,
         DistinctKeys, BoundsOk, ByChannel;
    if Alike(EncodeGroup(env, w, doc, g, g, [sels[g]]).work, ReuseGroup(env, w, prev, doc, g, sels[g]).work, doc, g,
             sels[g]) {
      AlikeIsKept(env, w, prev, doc, g, sels[g]);
      KeptBack(env, w0, w, prev, doc, sels, b, g);
    }
  }

  lemma TwoWays(env: Env, w: Work, prev: Out, doc: Doc, sels: Selection, b: seq<nat>, g: nat)
    requires BoundsOk(b, |sels|) && ByChannel(b, |sels|) && g < |sels| && |sels| <= |w.out.vers| && Same(prev, w.out, g)
    ensures |b| == |sels| + 1
    ensures Group(env, w, prev, doc, sels, b, false, g) == EncodeGroup(env, w, doc, g, g, [sels[g]])
    ensures Group(env, w, prev, doc, sels, b, true, g) == ReuseGroup(env, w, prev, doc, g, sels[g])
  {
    hide EncodeGroup, ReuseGroup, BoundsOk;
    assert sels[b[g]..b[g + 1]] == [sels[g]];
  }

  /** What is recorded before container g was recorded when the build began. */
  lemma KeptBack(env: Env, w0: Work, w: Work, prev: Out, doc: Doc, sels: Selection, b: seq<nat>, g: nat)
    requires Setting(env, w0, prev, doc, sels, b) && g < |sels| && g + 1 < |b| && BoundsOk(b, |sels|)
    requires Progress(w0, w, KeysBefore(doc, sels, b, g), g)
    requires g < |prev.vers| && g < |prev.seg| && ChannelOk(env, w.table, doc, g, sels[g], prev.vers[g], prev.seg[g])
    ensures KeptAt(env, w0.table, doc, sels, w0.out.srcGen, prev, g)
  {
    SettingParts(env, w0, prev, doc, sels, b);
    KeysApart(doc, sels, b, g, g);
    ByChannelRefs(doc, sels, b, g);
    hide Setting, KeysBefore, GroupKeys, ChannelKeys, ChannelOk, DistinctKeys, BoundsOk, ByChannel, SameContent;
    OutsideBack(w0.table, w.table, KeysBefore(doc, sels, b, g), ChannelKeys(doc, g, sels[g]));
    ChannelFrame(env, w.table, w0.table, doc, g, sels[g], prev.vers[g], prev.seg[g]);
  }

  lemma OutsideBack(t: Table, t': Table, a: set<string>, keys: set<string>)
    requires SameOutside(t, t', a) && a !! keys
    ensures SameContent(t', t, keys)
  {
  }

  lemma {:induction false} FirstLost(env: Env, t: Table, doc: Doc, sels: Selection, srcGen: nat, prev: Out, g: nat)
      returns (f: nat)
    requires !KeptAt(env, t, doc, sels, srcGen, prev, g)
    ensures !KeptAt(env, t, doc, sels, srcGen, prev, f)
    ensures forall h: nat :: h < f ==> KeptAt(env, t, doc, sels, srcGen, prev, h)
    decreases g
  {
    hide KeptAt;
    if h: nat :| h < g && !KeptAt(env, t, doc, sels, srcGen, prev, h) {
      f := FirstLost(env, t, doc, sels, srcGen, prev, h);
    } else {
      f := g;
    }
  }

  lemma AlikeBack(a: Work, a': Work, b: Work, b': Work, doc: Doc, c: nat, sel: seq<nat>)
    requires Untouched(a, a', doc, c, sel) && Untouched(b, b', doc, c, sel) && Alike(a', b', doc, c, sel)
    ensures Alike(a, b, doc, c, sel)
  {
    hide ChannelKeys;
  }

  lemma LostStep(env: Env, w0: Work, prev: Out, doc: Doc, sels: Selection, b: seq<nat>, g: nat)
    requires Setting(env, w0, prev, doc, sels, b) && g < |sels|
    requires !KeptAt(env, w0.table, doc, sels, w0.out.srcGen, prev, g)
    requires forall h: nat :: h < g ==> KeptAt(env, w0.table, doc, sels, w0.out.srcGen, prev, h)
    ensures BoundsOk(b, |sels|) && |b| == |sels| + 1 && |b| - 1 <= |w0.out.vers|
    ensures var x, y := Groups(env, w0, prev, doc, sels, b, false, g + 1),
            Groups(env, w0, prev, doc, sels, b, true, g + 1);
            x.ok && y.ok ==> !Alike(x.work, y.work, doc, g, sels[g])
  {
    hide *;
    SettingParts(env, w0, prev, doc, sels, b);
    GroupsEqual(env, w0, prev, doc, sels, b, g);
    GroupsUnfold(env, w0, prev, doc, sels, b, false, g + 1);
    GroupsUnfold(env, w0, prev, doc, sels, b, true, g + 1);
    BeforeGroup(env, w0, prev, doc, sels, b, false, g);
    var x, y := Groups(env, w0, prev, doc, sels, b, false, g + 1), Groups(env, w0, prev, doc, sels, b, true, g + 1);
    if x.ok && y.ok {
      LostDiffers(env, w0, Groups(env, w0, prev, doc, sels, b, false, g).work, prev, doc, sels, b, g);
    }
  }

  /** Once a channel is lost, the containers of the two builds stay different. */
  lemma LostStays(env: Env, w0: Work, prev: Out, doc: Doc, sels: Selection, b: seq<nat>, g: nat)
    requires Setting(env, w0, prev, doc, sels, b) && g < |sels|
    requires !KeptAt(env, w0.table, doc, sels, w0.out.srcGen, prev, g)
    requires forall h: nat :: h < g ==> KeptAt(env, w0.table, doc, sels, w0.out.srcGen, prev, h)
    ensures BoundsOk(b, |sels|) && |b| == |sels| + 1 && |b| - 1 <= |w0.out.vers|
    ensures var x, y := Groups(env, w0, prev, doc, sels, b, false, |sels|),
            Groups(env, w0, prev, doc, sels, b, true, |sels|);
            x.ok && y.ok ==> !Alike(x.work, y.work, doc, g, sels[g])
  {
    hide *;
    LostStep(env, w0, prev, doc, sels, b, g);
    var x, y := Groups(env, w0, prev, doc, sels, b, false, |sels|), Groups(env, w0, prev, doc, sels, b, true, |sels|);
    if x.ok && y.ok {
      GroupsOkEarlier(env, w0, prev, doc, sels, b, false, g + 1, |sels|);
      GroupsOkEarlier(env, w0, prev, doc, sels, b, true, g + 1, |sels|);
      GroupsLeave(env, w0, prev, doc, sels, b, false, g, |sels|);
      GroupsLeave(env, w0, prev, doc, sels, b, true, g, |sels|);
      if Alike(x.work, y.work, doc, g, sels[g]) {
        AlikeBack(Groups(env, w0, prev, doc, sels, b, false, g + 1).work, x.work,
                  Groups(env, w0, prev, doc, sels, b, true, g + 1).work, y.work, doc, g, sels[g]);
      }
    }
  }

  lemma LostIsReused(env: Env, t: Table, doc: Doc, sels: Selection, srcGen: nat, prev: Out, g: nat)
    requires !KeptAt(env, t, doc, sels, srcGen, prev, g)
    ensures Reused(prev, sels, srcGen, g) && g < |sels|
  {
  }

  /** The published result shows the fragments and the version of channel c. */
  ghost predicate Shows(w: Work, ctx: Ctx, doc: Doc, c: nat, sel: seq<nat>) {
    && ctx.out.vers == w.out.vers
    && forall k :: k in ChannelKeys(doc, c, sel) ==>
         k in w.table.frags && k in ctx.table.frags && ctx.table.frags[k].ver == w.table.frags[k].ver
  }

  lemma FinishShows(env: Env, w: Work, prev: Out, doc: Doc, first: nat, c: nat, sel: seq<nat>)
    requires MainOk(env, w.table, doc, prev) && w.out.mainVer == prev.mainVer && !Emitted(w.table, "M:")
    requires w.out.mainSeg.None? && TableOk(w.table)
    requires ChannelEmitted(w.table, doc, c, sel) && Finish(env, w, prev, doc, first, false).ok
    ensures Shows(w, Finish(env, w, prev, doc, first, false).ctx, doc, c, sel)
  {
    var m := MainGroup(env, w, prev, doc, false).work;
    var keys := ChannelKeys(doc, c, sel);
    hide TableOk, MainOk, MainGroup, ChannelKeys, SameOutside, AllEmitted, SameContent, Prune, Emitted;
    MainStays(env, w, prev, doc);
    FinishStays(env, w, prev, doc, first);
    ContentOutside(w.table, m.table, {"M:"}, keys);
    EmittedOutside(w.table, m.table, {"M:"}, keys);
    PruneKeeps(m.table, keys);
    ContentSteps(w.table, m.table, Prune(m.table), keys);
    assert Finish(env, w, prev, doc, first, false).ctx.table == Prune(m.table);
    ShowsContent(w.table, Prune(m.table), keys);
  }

  lemma ShowsContent(t: Table, t': Table, keys: set<string>)
    requires AllEmitted(t, keys) && SameContent(t, t', keys)
    ensures forall k :: k in keys ==> k in t.frags && k in t'.frags && t'.frags[k].ver == t.frags[k].ver
  {
  }

  lemma ShowAlike(a: Work, b: Work, ctx: Ctx, doc: Doc, c: nat, sel: seq<nat>)
    requires Shows(a, ctx, doc, c, sel) && Shows(b, ctx, doc, c, sel) && c < |a.out.vers|
    ensures Alike(a, b, doc, c, sel)
  {
    hide ChannelKeys;
  }

  lemma BuildSetting(env: Env, ctx: Ctx, doc: Doc, srcGen: nat, sels: Selection, b: seq<nat>)
    requires Live(env, ctx, doc, srcGen) && Distinct(env, doc, sels)
    requires Plan(env, doc, sels) == Some(b) && PerChannel(b, |sels|)
    ensures Setting(env, Begin(ctx, sels, b, srcGen), ctx.out, doc, sels, b)
    ensures var w0 := Begin(ctx, sels, b, srcGen); w0.out.srcGen == srcGen && w0.table.frags == ctx.table.frags
  {
    hide Live, Distinct, DistinctKeys, Plan, Begin, MadeOk, TableOk, BoundsOk, NothingEmitted;
    LiveParts(env, ctx, doc, srcGen);
    PlanByChannel(env, doc, sels);
    PlanDistinct(env, doc, sels, b);
    BoundsLength(b, |sels|);
    BeginOk(ctx, sels, b, srcGen);
  }

  /** All channels of a build whose containers succeeded are emitted. */
  lemma BuildEmits(env: Env, w0: Work, prev: Out, doc: Doc, sels: Selection, b: seq<nat>, reuse: bool, c: nat)
    requires Setting(env, w0, prev, doc, sels, b) && c < |sels|
    ensures BoundsOk(b, |sels|) && |b| == |sels| + 1 && |b| - 1 <= |w0.out.vers|
    ensures var s := Groups(env, w0, prev, doc, sels, b, reuse, |sels|);
            s.ok ==> ChannelEmitted(s.work.table, doc, c, sels[c])
  {
    hide *;
    SettingParts(env, w0, prev, doc, sels, b);
    if Groups(env, w0, prev, doc, sels, b, reuse, |sels|).ok {
      GroupsEmit(env, w0, prev, doc, sels, b, reuse, |sels|);
      AllChannelsEmitted(Groups(env, w0, prev, doc, sels, b, reuse, |sels|).work.table, doc, sels, b);
      EmittedChannel(Groups(env, w0, prev, doc, sels, b, reuse, |sels|).work.table, doc, sels, c);
    }
  }

  lemma EmittedChannel(t: Table, doc: Doc, sels: Selection, c: nat)
    requires ChannelsEmitted(t, doc, sels) && c < |sels|
    ensures ChannelEmitted(t, doc, c, sels[c])
  {
  }

  /** One of the two builds, if it succeeds, shows what its containers left of channel c. */
  lemma BuildShows(env: Env, ctx: Ctx, doc: Doc, srcGen: nat, sels: Selection, b: seq<nat>, reuse: bool, c: nat)
    requires Live(env, ctx, doc, srcGen) && Distinct(env, doc, sels)
    requires Plan(env, doc, sels) == Some(b) && PerChannel(b, |sels|) && c < |sels|
    requires Build(env, ctx, doc, srcGen, sels, reuse).ok
    ensures BoundsOk(b, |sels|) && |b| == |sels| + 1 && |b| - 1 <= |Begin(ctx, sels, b, srcGen).out.vers|
    ensures var s := Groups(env, Begin(ctx, sels, b, srcGen), ctx.out, doc, sels, b, reuse, |sels|);
            && s.ok && c < |s.work.out.vers|
            && Shows(s.work, Build(env, ctx, doc, srcGen, sels, reuse).ctx, doc, c, sels[c])
  {
    hide *;
    BoundsLength(b, |sels|);
    var w0 := Begin(ctx, sels, b, srcGen);
    BuildSetting(env, ctx, doc, srcGen, sels, b);
    SettingParts(env, w0, ctx.out, doc, sels, b);
    BuildUnfold(env, ctx, doc, srcGen, sels, reuse);
    BuildGroupsAre(env, ctx, doc, srcGen, sels, b, reuse);
    BuildGroupsDo(env, ctx, doc, srcGen, sels, b, reuse);
    BuildEmits(env, w0, ctx.out, doc, sels, b, reuse, c);
    var w := Groups(env, w0, ctx.out, doc, sels, b, reuse, |sels|).work;
    if reuse {
      FinishEqual(env, w, ctx.out, doc, |b|);
    }
    FinishShows(env, w, ctx.out, doc, |b|, c, sels[c]);
  }

  /**
   * A build that would succeed by encoding everything gives the same with reuse if and only if every
   * channel it would reuse is still recorded.
   */
  lemma BuildEqualIffKept(env: Env, ctx: Ctx, doc: Doc, srcGen: nat, sels: Selection)
    requires Live(env, ctx, doc, srcGen) && Distinct(env, doc, sels)
    requires Build(env, ctx, doc, srcGen, sels, false).ok
    ensures Build(env, ctx, doc, srcGen, sels, true) == Build(env, ctx, doc, srcGen, sels, false)
       <==> ReuseKept(env, ctx, doc, srcGen, sels)
  {
    hide Live, Distinct, Plan, Build, Kept, PerChannel;
    if ReuseKept(env, ctx, doc, srcGen, sels) {
      BuildEqual(env, ctx, doc, srcGen, sels);
    } else if Build(env, ctx, doc, srcGen, sels, true) == Build(env, ctx, doc, srcGen, sels, false) {
      LostBuild(env, ctx, doc, srcGen, sels, Plan(env, doc, sels).value);
    }
  }

  lemma LostBuild(env: Env, ctx: Ctx, doc: Doc, srcGen: nat, sels: Selection, b: seq<nat>)
    requires Live(env, ctx, doc, srcGen) && Distinct(env, doc, sels)
    requires Plan(env, doc, sels) == Some(b) && PerChannel(b, |sels|)
    requires !Kept(env, ctx.table, doc, sels, srcGen, ctx.out)
    requires Build(env, ctx, doc, srcGen, sels, false).ok
    ensures Build(env, ctx, doc, srcGen, sels, true) != Build(env, ctx, doc, srcGen, sels, false)
  {
    var w0 := Begin(ctx, sels, b, srcGen);
    BuildSetting(env, ctx, doc, srcGen, sels, b);
    var l: nat :| !KeptAt(env, ctx.table, doc, sels, srcGen, ctx.out, l);
    hide *;
    var g := FirstLost(env, ctx.table, doc, sels, srcGen, ctx.out, l);
    forall h: nat
      ensures KeptAt(env, ctx.table, doc, sels, srcGen, ctx.out, h)
         <==> KeptAt(env, w0.table, doc, sels, srcGen, ctx.out, h)
    {
      KeptAnyGen(env, ctx.table, w0.table, doc, sels, srcGen, ctx.out, h);
    }
    LostIsReused(env, ctx.table, doc, sels, srcGen, ctx.out, g);
    LostStays(env, w0, ctx.out, doc, sels, b, g);
    if Build(env, ctx, doc, srcGen, sels, true) == Build(env, ctx, doc, srcGen, sels, false) {
      BuildShows(env, ctx, doc, srcGen, sels, b, false, g);
      BuildShows(env, ctx, doc, srcGen, sels, b, true, g);
      ShowAlike(Groups(env, w0, ctx.out, doc, sels, b, false, |sels|).work,
                Groups(env, w0, ctx.out, doc, sels, b, true, |sels|).work,
                Build(env, ctx, doc, srcGen, sels, false).ctx, doc, g, sels[g]);
    }
  }

  /** What is recorded when the build begins is recorded before container g. */
  lemma KeptOn(env: Env, w0: Work, w: Work, prev: Out, doc: Doc, sels: Selection, b: seq<nat>, g: nat)
    requires Setting(env, w0, prev, doc, sels, b) && g < |sels| && g + 1 < |b| && BoundsOk(b, |sels|)
    requires Progress(w0, w, KeysBefore(doc, sels, b, g), g)
    requires g < |prev.vers| && g < |prev.seg| && ChannelOk(env, w0.table, doc, g, sels[g], prev.vers[g], prev.seg[g])
    ensures ChannelOk(env, w.table, doc, g, sels[g], prev.vers[g], prev.seg[g])
  {
    SettingParts(env, w0, prev, doc, sels, b);
    KeysApart(doc, sels, b, g, g);
    ByChannelRefs(doc, sels, b, g);
    hide Setting, KeysBefore, GroupKeys, ChannelKeys, ChannelOk, DistinctKeys, BoundsOk, ByChannel, SameContent;
    ContentOutside(w0.table, w.table, KeysBefore(doc, sels, b, g), ChannelKeys(doc, g, sels[g]));
    ChannelFrame(env, w0.table, w.table, doc, g, sels[g], prev.vers[g], prev.seg[g]);
  }

  /**
   * Within any build, once its turn comes: copying the container of channel g equals encoding it if
   * and only if the table held the channel's fragments as published when the build began.
   */
  lemma GroupEqualIffHeld(env: Env, w0: Work, prev: Out, doc: Doc, sels: Selection, b: seq<nat>, reuse: bool, g: nat)
    requires Setting(env, w0, prev, doc, sels, b) && Reused(prev, sels, w0.out.srcGen, g) && OneContainer(env)
    ensures BoundsOk(b, |sels|) && g + 1 < |b| && |b| - 1 <= |w0.out.vers| && g < |prev.vers|
    ensures var w := Groups(env, w0, prev, doc, sels, b, reuse, g).work;
            |b| - 1 <= |w.out.vers|
            && (Group(env, w, prev, doc, sels, b, true, g).ok
                && Group(env, w, prev, doc, sels, b, true, g) == Group(env, w, prev, doc, sels, b, false, g)
                <==> Held(env, w0.table, doc, g, sels[g], prev.vers[g]))
  {
    SettingParts(env, w0, prev, doc, sels, b);
    ReusedSizes(prev, sels, w0.out.srcGen, g);
    BeforeGroup(env, w0, prev, doc, sels, b, reuse, g);
    hide Groups, Group, Setting, Reused, OneContainer, Progress, KeysBefore, GroupKeys, ChannelKeys, Held, Made,
         ChannelOk,
         EncodeGroup, ReuseGroup, Unmarked, DistinctKeys, BoundsOk, ByChannel, Same;
    var w := Groups(env, w0, prev, doc, sels, b, reuse, g).work;
    ReusedSetting(env, w0, w, prev, doc, sels, b, g);
    ByChannelRefs(doc, sels, b, g);
    TwoWays(env, w, prev, doc, sels, b, g);
    ReuseIffHeld(env, w, prev, doc, g, sels[g]);
    ChannelOkIffHeld(env, w.table, doc, g, sels[g], prev.vers[g], prev.seg[g]);
    ChannelOkIffHeld(env, w0.table, doc, g, sels[g], prev.vers[g], prev.seg[g]);
    if ChannelOk(env, w0.table, doc, g, sels[g], prev.vers[g], prev.seg[g]) {
      KeptOn(env, w0, w, prev, doc, sels, b, g);
    }
    if ChannelOk(env, w.table, doc, g, sels[g], prev.vers[g], prev.seg[g]) {
      KeptBack(env, w0, w, prev, doc, sels, b, g);
      KeptMeans(env, w0.table, doc, sels, w0.out.srcGen, prev, g);
    }
  }

  lemma KeptMeans(env: Env, t: Table, doc: Doc, sels: Selection, srcGen: nat, prev: Out, g: nat)
    requires Reused(prev, sels, srcGen, g) && KeptAt(env, t, doc, sels, srcGen, prev, g)
    ensures g < |sels| && g < |prev.vers| && g < |prev.seg|
            && ChannelOk(env, t, doc, g, sels[g], prev.vers[g], prev.seg[g])
  {
  }

  /** Every channel a build would reuse is still held as published. */
  ghost predicate AllHeld(env: Env, ctx: Ctx, doc: Doc, srcGen: nat, sels: Selection) {
    forall g: nat :: Reused(ctx.out, sels, srcGen, g) ==>
      g < |ctx.out.vers| && Held(env, ctx.table, doc, g, sels[g], ctx.out.vers[g])
  }

  lemma KeptIffHeld(env: Env, ctx: Ctx, doc: Doc, srcGen: nat, sels: Selection)
    requires Live(env, ctx, doc, srcGen) && OneContainer(env)
    ensures Kept(env, ctx.table, doc, sels, srcGen, ctx.out) <==> AllHeld(env, ctx, doc, srcGen, sels)
  {
    hide ChannelOk, Held, OneContainer, MainOk, TableOk;
    var o := ctx.out;
    forall g: nat | Reused(o, sels, srcGen, g)
      ensures g < |o.vers|
              && (KeptAt(env, ctx.table, doc, sels, srcGen, o, g) <==> Held(env, ctx.table, doc, g, sels[g], o.vers[g]))
    {
      assert Made(env, doc, g, o.sels.value[g], o.vers[g], o.seg[g]);
      hide Made;
      ChannelOkIffHeld(env, ctx.table, doc, g, sels[g], o.vers[g], o.seg[g]);
    }
    forall g: nat ensures KeptAt(env, ctx.table, doc, sels, srcGen, o, g) || Reused(o, sels, srcGen, g) {}
  }

  // ----- What a failed build does to a channel -----

  /** Encoding a recorded channel once more, whatever comes of it, changes none of its contents. */
  lemma EncodeKeeps(env: Env, w: Work, doc: Doc, c: nat, sel: seq<nat>, ver: Version, seg: Bytes)
    requires c < |w.out.vers| && Unmarked(w.table, ChannelKeys(doc, c, sel))
    requires ChannelOk(env, w.table, doc, c, sel, ver, seg)
    ensures SameContent(w.table, EncodeGroup(env, w, doc, c, c, [sel]).work.table, ChannelKeys(doc, c, sel))
  {
    var refs, u := Refs(doc, c, [sel]), Encode(env, doc, c, [sel]);
    hide Refs, Keys, Unmarked, Encode, Fits, Walk, PutContainer, SameContent, Recorded, RefsAre, UnitOk;
    WalkTouches(w.table, doc, refs, u.value, |refs|);
    PutFrame(env, w, doc, c, u.value, Walk(w.table, doc, refs, u, |refs|));
  }

  /** A recorded channel stays recorded under every prefix of the containers of a build that selects the same for it. */
  lemma {:induction false} GroupsKeepChannel(env: Env, w0: Work, prev: Out, doc: Doc, sels: Selection, b: seq<nat>,
                                             c: nat, ver: Version, seg: Bytes, k: nat)
    requires Setting(env, w0, prev, doc, sels, b) && c < |sels| && k <= |sels|
    requires ChannelOk(env, w0.table, doc, c, sels[c], ver, seg)
    ensures BoundsOk(b, |sels|) && k < |b| && |b| - 1 <= |w0.out.vers|
    ensures ChannelOk(env, Groups(env, w0, prev, doc, sels, b, false, k).work.table, doc, c, sels[c], ver, seg)
    decreases k
  {
    hide *;
    SettingParts(env, w0, prev, doc, sels, b);
    GroupsUnfold(env, w0, prev, doc, sels, b, false, k);
    if k > 0 {
      GroupsKeepChannel(env, w0, prev, doc, sels, b, c, ver, seg, k - 1);
      BeforeGroup(env, w0, prev, doc, sels, b, false, k - 1);
      GroupKeepsChannel(env, Groups(env, w0, prev, doc, sels, b, false, k - 1).work, prev, doc, sels, b, c, ver, seg,
                        k - 1);
    }
  }

  lemma GroupKeepsChannel(env: Env, w: Work, prev: Out, doc: Doc, sels: Selection, b: seq<nat>,
                          c: nat, ver: Version, seg: Bytes, g: nat)
    requires BoundsOk(b, |sels|) && ByChannel(b, |sels|) && g < |sels| && c < |sels| && |b| - 1 <= |w.out.vers|
    requires DistinctKeys(doc, sels, b) && Unmarked(w.table, GroupKeys(doc, sels, b, g))
    requires ChannelOk(env, w.table, doc, c, sels[c], ver, seg)
    ensures ChannelOk(env, Group(env, w, prev, doc, sels, b, false, g).work.table, doc, c, sels[c], ver, seg)
  {
    assert |b| == |sels| + 1;
    ByChannelRefs(doc, sels, b, g);
    PlainIsEncode(env, w, prev, doc, sels, b, g);
    hide DistinctKeys, BoundsOk, ByChannel, Group, Unmarked, GroupKeys, ChannelKeys, ChannelOk, EncodeGroup,
         SameContent,
         Untouched;
    var w2 := Group(env, w, prev, doc, sels, b, false, g).work;
    if c == g {
      EncodeKeeps(env, w, doc, c, sels[c], ver, seg);
    } else {
      OtherGroup(env, w, prev, doc, sels, b, false, c, g);
      UntouchedContent(w, w2, doc, c, sels[c]);
    }
    ChannelFrame(env, w.table, w2.table, doc, c, sels[c], ver, seg);
  }

  lemma PlainIsEncode(env: Env, w: Work, prev: Out, doc: Doc, sels: Selection, b: seq<nat>, g: nat)
    requires BoundsOk(b, |sels|) && ByChannel(b, |sels|) && g < |sels| && |b| - 1 <= |w.out.vers|
    ensures |b| == |sels| + 1
    ensures Group(env, w, prev, doc, sels, b, false, g) == EncodeGroup(env, w, doc, g, g, [sels[g]])
  {
    hide EncodeGroup, BoundsOk;
    assert sels[b[g]..b[g + 1]] == [sels[g]];
  }

  lemma UntouchedContent(a: Work, b: Work, doc: Doc, c: nat, sel: seq<nat>)
    requires Untouched(a, b, doc, c, sel)
    ensures SameContent(a.table, b.table, ChannelKeys(doc, c, sel))
  {
    hide ChannelKeys;
  }

  /** The end of a build keeps a recorded channel whose containers were all emitted. */
  lemma FinishKeepsChannel(env: Env, w: Work, prev: Out, doc: Doc, first: nat, c: nat, sel: seq<nat>, ver: Version,
                           seg: Bytes)
    requires MainOk(env, w.table, doc, prev) && w.out.mainVer == prev.mainVer && !Emitted(w.table, "M:")
    requires w.out.mainSeg.None? && TableOk(w.table) && ChannelEmitted(w.table, doc, c, sel)
    requires ChannelOk(env, w.table, doc, c, sel, ver, seg)
    ensures ChannelOk(env, Finish(env, w, prev, doc, first, false).ctx.table, doc, c, sel, ver, seg)
  {
    var m := MainGroup(env, w, prev, doc, false);
    var t := m.work.table;
    var keys := ChannelKeys(doc, c, sel);
    hide TableOk, MainOk, MainGroup, ChannelKeys, SameOutside, AllEmitted, SameContent, Prune, Emitted, ChannelOk;
    MainStays(env, w, prev, doc);
    ContentOutside(w.table, t, {"M:"}, keys);
    EmittedOutside(w.table, t, {"M:"}, keys);
    PruneKeeps(t, keys);
    ChannelFrame(env, w.table, t, doc, c, sel, ver, seg);
    ChannelFrame(env, t, Prune(t), doc, c, sel, ver, seg);
  }

  /**
   * A build that selects for a channel what is published for it leaves the channel recorded if it
   * was, also when the build fails, and whatever it selects for the other channels.
   */
  lemma BuildKeepsChannel(env: Env, ctx: Ctx, doc: Doc, srcGen: nat, sels: Selection, c: nat, ver: Version, seg: Bytes)
    requires Live(env, ctx, doc, srcGen) && Distinct(env, doc, sels) && c < |sels|
    requires Plan(env, doc, sels).Some? ==> PerChannel(Plan(env, doc, sels).value, |sels|)
    requires ChannelOk(env, ctx.table, doc, c, sels[c], ver, seg)
    ensures ChannelOk(env, Build(env, ctx, doc, srcGen, sels, false).ctx.table, doc, c, sels[c], ver, seg)
  {
    hide *;
    BuildUnfold(env, ctx, doc, srcGen, sels, false);
    var plan := Plan(env, doc, sels);
    if plan.Some? {
      var b := plan.value;
      BoundsLength(b, |sels|);
      var w0 := Begin(ctx, sels, b, srcGen);
      BuildSetting(env, ctx, doc, srcGen, sels, b);
      SettingParts(env, w0, ctx.out, doc, sels, b);
      BuildGroupsAre(env, ctx, doc, srcGen, sels, b, false);
      BuildGroupsDo(env, ctx, doc, srcGen, sels, b, false);
      ChannelAnyGen(env, ctx.table, w0.table, doc, c, sels[c], ver, seg);
      GroupsKeepChannel(env, w0, ctx.out, doc, sels, b, c, ver, seg, |sels|);
      var s := Groups(env, w0, ctx.out, doc, sels, b, false, |sels|);
      if s.ok {
        BuildEmits(env, w0, ctx.out, doc, sels, b, false, c);
        FinishKeepsChannel(env, s.work, ctx.out, doc, |b|, c, sels[c], ver, seg);
      }
    }
  }

  /** So a failed build that selected for every channel what is published does no harm at all. */
  lemma FailedKeepsAll(env: Env, ctx: Ctx, doc: Doc, srcGen: nat, sels: Selection)
    requires Inv(env, ctx, doc, srcGen) && Distinct(env, doc, sels)
    requires ctx.out.sels.Some? ==> ctx.out.sels.value == sels
    requires !Build(env, ctx, doc, srcGen, sels, false).ok
    ensures Inv(env, Build(env, ctx, doc, srcGen, sels, false).ctx, doc, srcGen)
  {
    hide MainOk, TableOk, Build, ChannelOk, Distinct, Made;
    BuildKeepsLive(env, ctx, doc, srcGen, sels, false);
    var o, t := ctx.out, Build(env, ctx, doc, srcGen, sels, false).ctx.table;
    if o.sels.Some? && o.srcGen == srcGen {
      FewChannels(env, doc, sels);
      hide Live, Plan;
      forall g | 0 <= g < |o.seg| ensures ChannelOk(env, t, doc, g, o.sels.value[g], o.vers[g], o.seg[g]) {
        BuildKeepsChannel(env, ctx, doc, srcGen, sels, g, o.vers[g], o.seg[g]);
      }
    }
  }

  lemma FewChannels(env: Env, doc: Doc, sels: Selection)
    requires 0 < |sels| <= MAX_SEGMENTS
    ensures Plan(env, doc, sels).Some? ==> PerChannel(Plan(env, doc, sels).value, |sels|)
  {
  }
}
