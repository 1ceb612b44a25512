/**
 * Whole builds: with or without the shortcut for unchanged channels, a build that starts with
 * the fragments of those channels recorded ends in the same state, and a successful build leaves
 * them recorded.
 */
module GuideBuilds {
  import opened Wrappers
  import opened Fragments
  import opened Guide
  import opened GuideReuse

  // ----- Keys of the containers of a build -----

  ghost function GroupRefs(doc: Doc, sels: Selection, b: seq<nat>, g: nat): seq<Ref>
    requires BoundsOk(b, |sels|) && g + 1 < |b|
  {
    Refs(doc, b[g], sels[b[g]..b[g + 1]])
  }

  ghost function GroupKeys(doc: Doc, sels: Selection, b: seq<nat>, g: nat): set<string>
    requires BoundsOk(b, |sels|) && g + 1 < |b|
  {
    Keys(doc, GroupRefs(doc, sels, b, g), |GroupRefs(doc, sels, b, g)|)
  }

  ghost function KeysBefore(doc: Doc, sels: Selection, b: seq<nat>, k: nat): set<string>
    requires BoundsOk(b, |sels|) && k < |b|
  {
    if k == 0 then {} else KeysBefore(doc, sels, b, k - 1) + GroupKeys(doc, sels, b, k - 1)
  }

  /** No two containers of a build have a key in common. Inside a container bases may repeat. */
  ghost predicate DistinctKeys(doc: Doc, sels: Selection, b: seq<nat>)
    requires BoundsOk(b, |sels|)
  {
    forall g: nat, h: nat :: g < h && h + 1 < |b| ==> GroupKeys(doc, sels, b, g) !! GroupKeys(doc, sels, b, h)
  }

  lemma {:induction false} KeysApart(doc: Doc, sels: Selection, b: seq<nat>, k: nat, h: nat)
    requires BoundsOk(b, |sels|) && k <= h && h + 1 < |b| && DistinctKeys(doc, sels, b)
    ensures KeysBefore(doc, sels, b, k) !! GroupKeys(doc, sels, b, h)
  {
    if k > 0 {
      hide GroupKeys;
      KeysApart(doc, sels, b, k - 1, h);
    }
  }

  lemma RefsNotMain(doc: Doc, from: nat, sels: Selection)
    ensures forall i :: 0 <= i < |Refs(doc, from, sels)| ==> !Refs(doc, from, sels)[i].Main?
  {
    hide ProgramRefs, ScheduleRefs, ServiceRefs;
    var refs := Refs(doc, from, sels);
    forall i | 0 <= i < |refs| ensures !refs[i].Main? {
      var p, q, r := ProgramRefs(doc, from, sels), ScheduleRefs(doc, from, sels), ServiceRefs(doc, from, sels);
      assert refs[i] in p || refs[i] in q || refs[i] in r;
    }
  }

  lemma {:induction false} NotMainKeys(doc: Doc, refs: seq<Ref>, n: nat)
    requires n <= |refs| && forall i :: 0 <= i < |refs| ==> !refs[i].Main?
    ensures "M:" !in Keys(doc, refs, n)
  {
    hide Key;
    if n > 0 {
      NotMainKeys(doc, refs, n - 1);
      KeyLetter(doc, refs, n - 1);
    }
  }

  lemma {:induction false} MainApart(doc: Doc, sels: Selection, b: seq<nat>, k: nat)
    requires BoundsOk(b, |sels|) && k < |b|
    ensures "M:" !in KeysBefore(doc, sels, b, k)
  {
    if k > 0 {
      MainApart(doc, sels, b, k - 1);
      RefsNotMain(doc, b[k - 1], sels[b[k - 1]..b[k]]);
      NotMainKeys(doc, GroupRefs(doc, sels, b, k - 1), |GroupRefs(doc, sels, b, k - 1)|);
    }
  }

  // ----- The containers one after the other -----

  ghost predicate NothingEmitted(t: Table) {
    forall k :: !Emitted(t, k)
  }

  /** What a build has changed after its first k containers. */
  ghost predicate Progress(w0: Work, w: Work, keys: set<string>, k: nat) {
    && SameOutside(w0.table, w.table, keys)
    && (TableOk(w0.table) ==> TableOk(w.table))
    && w.out.sels == w0.out.sels && w.out.srcGen == w0.out.srcGen && w.out.mainVer == w0.out.mainVer
       && w.out.mainSeg == w0.out.mainSeg
    && |w.out.vers| == |w0.out.vers| && (forall h :: k <= h < |w.out.vers| ==> w.out.vers[h] == w0.out.vers[h])
  }

  lemma ProgressNext(w0: Work, w: Work, w2: Work, a: set<string>, b: set<string>, g: nat)
    requires Progress(w0, w, a, g) && OutFrame(w.out, w2.out, g) && SameOutside(w.table, w2.table, b)
    requires TableOk(w.table) ==> TableOk(w2.table)
    ensures Progress(w0, w2, a + b, g + 1)
  {
    OutsideSteps(w0.table, w.table, w2.table, a, b);
    hide SameOutside, TableOk;
  }

  lemma GroupUnmarked(w0: Work, w: Work, a: set<string>, k: nat, keys: set<string>)
    requires Progress(w0, w, a, k) && NothingEmitted(w0.table) && a !! keys
    ensures Unmarked(w.table, keys)
  {
    OutsideSteps(w0.table, w.table, w.table, a, {});
  }

  lemma {:induction false} GroupsProgress(env: Env, w0: Work, prev: Out, doc: Doc, sels: Selection, b: seq<nat>,
                                          reuse: bool, k: nat)
    requires BoundsOk(b, |sels|) && k < |b| && |b| - 1 <= |w0.out.vers|
             && (PerChannel(b, |sels|) ==> ByChannel(b, |sels|))
    requires DistinctKeys(doc, sels, b) && NothingEmitted(w0.table)
    ensures Progress(w0, Groups(env, w0, prev, doc, sels, b, reuse, k).work, KeysBefore(doc, sels, b, k), k)
  {
    hide *;
    GroupsUnfold(env, w0, prev, doc, sels, b, reuse, k);
    if k == 0 {
      ProgressStart(w0);
      NoKeysBefore(doc, sels, b);
    } else {
      GroupsProgress(env, w0, prev, doc, sels, b, reuse, k - 1);
      GroupProgress(env, w0, Groups(env, w0, prev, doc, sels, b, reuse, k - 1).work, prev, doc, sels, b, reuse, k - 1);
    }
  }

  lemma NoKeysBefore(doc: Doc, sels: Selection, b: seq<nat>)
    requires BoundsOk(b, |sels|)
    ensures KeysBefore(doc, sels, b, 0) == {}
  {
  }

  lemma GroupsUnfold(env: Env, w: Work, prev: Out, doc: Doc, sels: Selection, b: seq<nat>, reuse: bool, k: nat)
    requires BoundsOk(b, |sels|) && k < |b| && |b| - 1 <= |w.out.vers|
    ensures k == 0 ==> Groups(env, w, prev, doc, sels, b, reuse, k) == Step(w, true)
    ensures k > 0 ==>
      var s := Groups(env, w, prev, doc, sels, b, reuse, k - 1);
      Groups(env, w, prev, doc, sels, b, reuse, k)
      == if s.ok then Group(env, s.work, prev, doc, sels, b, reuse, k - 1) else s
  {
    hide Group, BoundsOk;
  }

  lemma ProgressStart(w0: Work)
    ensures Progress(w0, w0, {}, 0)
  {
  }

  lemma GroupProgress(env: Env, w0: Work, w: Work, prev: Out, doc: Doc, sels: Selection, b: seq<nat>, reuse: bool,
                      g: nat)
    requires BoundsOk(b, |sels|) && g + 1 < |b| && |b| - 1 <= |w0.out.vers| && |w.out.vers| == |w0.out.vers|
    requires PerChannel(b, |sels|) ==> ByChannel(b, |sels|)
    requires DistinctKeys(doc, sels, b) && NothingEmitted(w0.table)
    requires Progress(w0, w, KeysBefore(doc, sels, b, g), g)
    ensures Progress(w0, Group(env, w, prev, doc, sels, b, reuse, g).work, KeysBefore(doc, sels, b, g + 1), g + 1)
    ensures Progress(w0, w, KeysBefore(doc, sels, b, g + 1), g + 1)
    ensures Unmarked(w.table, GroupKeys(doc, sels, b, g))
  {
    hide Group, GroupKeys, OutFrame, SameOutside, TableOk, Progress, NothingEmitted, DistinctKeys, BoundsOk, Unmarked,
         ByChannel;
    var keys, before := GroupKeys(doc, sels, b, g), KeysBefore(doc, sels, b, g);
    assert KeysBefore(doc, sels, b, g + 1) == before + keys;
    KeysApart(doc, sels, b, g, g);
    hide KeysBefore;
    GroupUnmarked(w0, w, before, g, keys);
    GroupFrame(env, w, prev, doc, sels, b, reuse, g);
    ProgressNext(w0, w, Group(env, w, prev, doc, sels, b, reuse, g).work, before, keys, g);
    ProgressIdle(w0, w, before, keys, g);
  }

  lemma ProgressIdle(w0: Work, w: Work, a: set<string>, b: set<string>, g: nat)
    requires Progress(w0, w, a, g)
    ensures Progress(w0, w, a + b, g + 1)
  {
    OutsideSteps(w0.table, w.table, w.table, a, b);
  }

  lemma GroupFrame(env: Env, w: Work, prev: Out, doc: Doc, sels: Selection, b: seq<nat>, reuse: bool, g: nat)
    requires BoundsOk(b, |sels|) && g + 1 < |b| && |b| - 1 <= |w.out.vers|
    requires PerChannel(b, |sels|) ==> ByChannel(b, |sels|)
    requires Unmarked(w.table, GroupKeys(doc, sels, b, g))
    ensures var o := Group(env, w, prev, doc, sels, b, reuse, g).work;
            && OutFrame(w.out, o.out, g)
            && SameOutside(w.table, o.table, GroupKeys(doc, sels, b, g))
            && (TableOk(w.table) ==> TableOk(o.table))
  {
    hide EncodeGroup, ReuseGroup, OutFrame, SameOutside, TableOk, Unmarked, Keys, Refs, ByChannel;
    if reuse && PerChannel(b, |sels|) && Same(prev, w.out, g) && g < |sels| {
      ByChannelRefs(doc, sels, b, g);
      ReuseFrame(env, w, prev, doc, g, sels[g]);
    } else {
      EncodeFrame(env, w, doc, g, b[g], sels[b[g]..b[g + 1]]);
    }
  }

  // ----- One container per channel -----

  ghost predicate ByChannel(b: seq<nat>, n: nat) {
    n > 0 && |b| == n + 1 && forall i :: 0 <= i <= n ==> b[i] == i
  }

  lemma PlanByChannel(env: Env, doc: Doc, sels: Selection)
    requires Plan(env, doc, sels).Some? && PerChannel(Plan(env, doc, sels).value, |sels|)
    ensures ByChannel(Plan(env, doc, sels).value, |sels|)
  {
  }

  ghost function ChannelKeys(doc: Doc, c: nat, sel: seq<nat>): set<string> {
    Keys(doc, Refs(doc, c, [sel]), |Refs(doc, c, [sel])|)
  }

  lemma ByChannelRefs(doc: Doc, sels: Selection, b: seq<nat>, g: nat)
    requires BoundsOk(b, |sels|) && ByChannel(b, |sels|) && g < |sels|
    ensures b[g] == g && sels[b[g]..b[g + 1]] == [sels[g]]
    ensures GroupRefs(doc, sels, b, g) == Refs(doc, g, [sels[g]])
    ensures GroupKeys(doc, sels, b, g) == ChannelKeys(doc, g, sels[g])
  {
    hide Refs, Keys;
    assert sels[g..g + 1] == [sels[g]];
  }

  ghost predicate ChannelsOk(env: Env, t: Table, doc: Doc, sels: Selection, vers: seq<Version>, segs: seq<Bytes>,
                             k: nat) {
    && k <= |sels| && k <= |vers| && k <= |segs|
    && forall g :: 0 <= g < k ==> ChannelOk(env, t, doc, g, sels[g], vers[g], segs[g])
  }

  lemma ChannelFrame(env: Env, t: Table, t': Table, doc: Doc, c: nat, sel: seq<nat>, ver: Version, seg: Bytes)
    requires ChannelOk(env, t, doc, c, sel, ver, seg) && SameContent(t, t', ChannelKeys(doc, c, sel))
    ensures ChannelOk(env, t', doc, c, sel, ver, seg)
  {
    hide Refs, Keys, Encode, Fits, UnitRecorded, SameContent;
    UnitFrame(env, t, t', doc, Refs(doc, c, [sel]), Encode(env, doc, c, [sel]).value, ver, seg);
  }

  lemma ContentOutside(t: Table, t': Table, a: set<string>, keys: set<string>)
    requires SameOutside(t, t', a) && a !! keys
    ensures SameContent(t, t', keys)
  {
  }

  /** After container g, the channels before it are still as recorded and so is g. */
  lemma ChannelsNext(env: Env, w: Work, prev: Out, doc: Doc, sels: Selection, b: seq<nat>, g: nat)
    requires BoundsOk(b, |sels|) && ByChannel(b, |sels|) && g < |sels| && |sels| <= |w.out.vers|
    requires DistinctKeys(doc, sels, b) && Unmarked(w.table, GroupKeys(doc, sels, b, g))
    requires |w.out.seg| == g && ChannelsOk(env, w.table, doc, sels, w.out.vers, w.out.seg, g)
    requires Group(env, w, prev, doc, sels, b, false, g).ok
    ensures var o := Group(env, w, prev, doc, sels, b, false, g).work;
            |o.out.seg| == g + 1 && ChannelsOk(env, o.table, doc, sels, o.out.vers, o.out.seg, g + 1)
  {
    var o := Group(env, w, prev, doc, sels, b, false, g).work;
    ByChannelRefs(doc, sels, b, g);
    GroupFrame(env, w, prev, doc, sels, b, false, g);
    hide EncodeGroup, SameOutside, SameContent, TableOk, Unmarked, Refs, Keys, UnitRecorded, Encode, Fits, GroupKeys,
         GroupRefs;
    EncodeRecords(env, w, doc, g, g, [sels[g]]);
    assert ChannelOk(env, o.table, doc, g, sels[g], o.out.vers[g], o.out.seg[g]);
    hide ChannelOk;
    forall h | 0 <= h < g ensures ChannelOk(env, o.table, doc, h, sels[h], o.out.vers[h], o.out.seg[h]) {
      EarlierChannel(env, w.table, o.table, doc, sels, b, h, g, w.out.vers[h], w.out.seg[h]);
      assert o.out.seg[h] == o.out.seg[..g][h];
    }
  }

  lemma EarlierChannel(env: Env, t: Table, t': Table, doc: Doc, sels: Selection, b: seq<nat>, h: nat, g: nat,
                       ver: Version, seg: Bytes)
    requires BoundsOk(b, |sels|) && ByChannel(b, |sels|) && h != g && h < |sels| && g < |sels|
             && DistinctKeys(doc, sels, b)
    requires ChannelOk(env, t, doc, h, sels[h], ver, seg) && SameOutside(t, t', GroupKeys(doc, sels, b, g))
    ensures ChannelOk(env, t', doc, h, sels[h], ver, seg)
  {
    ByChannelRefs(doc, sels, b, h);
    assert GroupKeys(doc, sels, b, g) !! GroupKeys(doc, sels, b, h);
    hide *;
    ContentOutside(t, t', GroupKeys(doc, sels, b, g), ChannelKeys(doc, h, sels[h]));
    ChannelFrame(env, t, t', doc, h, sels[h], ver, seg);
  }

  lemma {:induction false} GroupsChannels(env: Env, w0: Work, prev: Out, doc: Doc, sels: Selection, b: seq<nat>, k: nat)
    requires BoundsOk(b, |sels|) && ByChannel(b, |sels|) && k < |b| && |b| - 1 <= |w0.out.vers| && w0.out.seg == []
    requires DistinctKeys(doc, sels, b) && NothingEmitted(w0.table)
    requires Groups(env, w0, prev, doc, sels, b, false, k).ok
    ensures FirstOk(env, Groups(env, w0, prev, doc, sels, b, false, k).work, doc, sels, k)
  {
    hide *;
    GroupsUnfold(env, w0, prev, doc, sels, b, false, k);
    if k == 0 {
      NoChannels(env, w0, doc, sels);
    } else {
      GroupsChannels(env, w0, prev, doc, sels, b, k - 1);
      GroupsProgress(env, w0, prev, doc, sels, b, false, k - 1);
      ChannelsStep(env, w0, Groups(env, w0, prev, doc, sels, b, false, k - 1).work, prev, doc, sels, b, k - 1);
    }
  }

  /** The work's first k containers are those of the first k channels. */
  ghost predicate FirstOk(env: Env, w: Work, doc: Doc, sels: Selection, k: nat) {
    |w.out.seg| == k && ChannelsOk(env, w.table, doc, sels, w.out.vers, w.out.seg, k)
  }

  lemma NoChannels(env: Env, w: Work, doc: Doc, sels: Selection)
    requires w.out.seg == []
    ensures FirstOk(env, w, doc, sels, 0)
  {
  }

  lemma ChannelsStep(env: Env, w0: Work, w: Work, prev: Out, doc: Doc, sels: Selection, b: seq<nat>, g: nat)
    requires BoundsOk(b, |sels|) && ByChannel(b, |sels|) && g + 1 < |b| && |b| - 1 <= |w0.out.vers|
             && |w.out.vers| == |w0.out.vers|
    requires DistinctKeys(doc, sels, b) && NothingEmitted(w0.table)
    requires Progress(w0, w, KeysBefore(doc, sels, b, g), g) && FirstOk(env, w, doc, sels, g)
    requires Group(env, w, prev, doc, sels, b, false, g).ok
    ensures FirstOk(env, Group(env, w, prev, doc, sels, b, false, g).work, doc, sels, g + 1)
  {
    assert |b| == |sels| + 1;
    hide Group, Progress, KeysBefore, GroupKeys, DistinctKeys, BoundsOk, ByChannel, ChannelsOk, NothingEmitted;
    GroupProgress(env, w0, w, prev, doc, sels, b, false, g);
    ChannelsNext(env, w, prev, doc, sels, b, g);
  }

  /** All keys of the containers built so far count as emitted. */
  lemma {:induction false} GroupsEmit(env: Env, w0: Work, prev: Out, doc: Doc, sels: Selection, b: seq<nat>,
                                      reuse: bool, k: nat)
    requires BoundsOk(b, |sels|) && k < |b| && |b| - 1 <= |w0.out.vers|
             && (PerChannel(b, |sels|) ==> ByChannel(b, |sels|))
    requires DistinctKeys(doc, sels, b) && NothingEmitted(w0.table)
    requires Groups(env, w0, prev, doc, sels, b, reuse, k).ok
    ensures AllEmitted(Groups(env, w0, prev, doc, sels, b, reuse, k).work.table, KeysBefore(doc, sels, b, k))
  {
    hide *;
    GroupsUnfold(env, w0, prev, doc, sels, b, reuse, k);
    if k == 0 {
      NoKeysBefore(doc, sels, b);
      NoneEmitted(w0.table);
    } else {
      var w := Groups(env, w0, prev, doc, sels, b, reuse, k - 1).work;
      GroupsEmit(env, w0, prev, doc, sels, b, reuse, k - 1);
      GroupsProgress(env, w0, prev, doc, sels, b, reuse, k - 1);
      GroupProgress(env, w0, w, prev, doc, sels, b, reuse, k - 1);
      GroupEmits(env, w, prev, doc, sels, b, reuse, k - 1);
      GroupFrame(env, w, prev, doc, sels, b, reuse, k - 1);
      EmittedGrows(w.table, Group(env, w, prev, doc, sels, b, reuse, k - 1).work.table,
                   KeysBefore(doc, sels, b, k - 1), GroupKeys(doc, sels, b, k - 1));
      KeysBeforeNext(doc, sels, b, k);
    }
  }

  lemma KeysBeforeNext(doc: Doc, sels: Selection, b: seq<nat>, k: nat)
    requires BoundsOk(b, |sels|) && 0 < k < |b|
    ensures KeysBefore(doc, sels, b, k) == KeysBefore(doc, sels, b, k - 1) + GroupKeys(doc, sels, b, k - 1)
  {
  }

  lemma NoneEmitted(t: Table)
    ensures AllEmitted(t, {})
  {
  }

  /** A container that succeeds emits its keys. */
  lemma GroupEmits(env: Env, w: Work, prev: Out, doc: Doc, sels: Selection, b: seq<nat>, reuse: bool, g: nat)
    requires BoundsOk(b, |sels|) && g + 1 < |b| && |b| - 1 <= |w.out.vers|
    requires PerChannel(b, |sels|) ==> ByChannel(b, |sels|)
    requires Unmarked(w.table, GroupKeys(doc, sels, b, g)) && Group(env, w, prev, doc, sels, b, reuse, g).ok
    ensures AllEmitted(Group(env, w, prev, doc, sels, b, reuse, g).work.table, GroupKeys(doc, sels, b, g))
  {
    hide EncodeGroup, ReuseGroup, TableOk, Unmarked, Refs, Keys, UnitRecorded, Encode, Fits, AllEmitted, ByChannel;
    if reuse && PerChannel(b, |sels|) && Same(prev, w.out, g) && g < |sels| {
      ByChannelRefs(doc, sels, b, g);
      ReuseEmits(env, w, prev, doc, g, sels[g]);
    } else {
      BoundsAt(b, |sels|, g);
      EncodeRecords(env, w, doc, g, b[g], sels[b[g]..b[g + 1]]);
    }
  }

  lemma BoundsAt(b: seq<nat>, n: nat, g: nat)
    requires BoundsOk(b, n) && g + 1 < |b|
    ensures b[g] <= b[g + 1] <= n
  {
  }

  lemma EmittedGrows(t: Table, t2: Table, a: set<string>, b: set<string>)
    requires AllEmitted(t, a) && SameOutside(t, t2, b) && AllEmitted(t2, b)
    ensures AllEmitted(t2, a + b)
  {
  }

  // ----- What a published container says, whatever became of the table -----

  /** The container with this content lists these references. */
  ghost predicate Lists(env: Env, u: Unit, ver: Version, slots: seq<Slot>) {
    ver.last.Some? && env.container(u.au, u.strs, slots) == ver.last
  }

  /** A channel's container was made from what the channel encodes to. */
  ghost predicate Made(env: Env, doc: Doc, c: nat, sel: seq<nat>, ver: Version, seg: Bytes) {
    var u := Encode(env, doc, c, [sel]);
    && u.Some? && Fits(u.value)
    && ver.last.Some? && env.wrap(ver.last.value) == Some(seg)
    && exists slots :: Lists(env, u.value, ver, slots)
  }

  ghost predicate MadeOk(env: Env, doc: Doc, srcGen: nat, o: Out) {
    o.sels.Some? ==>
      && 0 < |o.sels.value| == |o.seg| <= MAX_SEGMENTS && |o.seg| <= |o.vers|
      && (o.srcGen == srcGen ==>
          forall g :: 0 <= g < |o.seg| ==> Made(env, doc, g, o.sels.value[g], o.vers[g], o.seg[g]))
  }

  lemma EncodeMakes(env: Env, w: Work, doc: Doc, c: nat, sel: seq<nat>)
    requires c < |w.out.vers| && EncodeGroup(env, w, doc, c, c, [sel]).ok
    ensures var o := EncodeGroup(env, w, doc, c, c, [sel]).work;
            |o.out.seg| == |w.out.seg| + 1 && Made(env, doc, c, sel, o.out.vers[c], o.out.seg[|w.out.seg|])
  {
    var refs := Refs(doc, c, [sel]);
    var u := Encode(env, doc, c, [sel]).value;
    hide Refs, Encode, Fits, Walk, PutContainer, SortById, Slots;
    var a := Walk(w.table, doc, refs, Some(u), |refs|);
    PutRecords(env, w, doc, c, u, a);
    var o := EncodeGroup(env, w, doc, c, c, [sel]).work;
    assert Lists(env, u, o.out.vers[c], Slots(SortById(a.refs)));
  }

  /** The first k containers of a build are made from its channels. */
  ghost predicate FirstMade(env: Env, w: Work, doc: Doc, sels: Selection, k: nat) {
    && |w.out.seg| == k && k <= |sels| && k <= |w.out.vers|
    && forall g :: 0 <= g < k ==> Made(env, doc, g, sels[g], w.out.vers[g], w.out.seg[g])
  }

  lemma GroupMade(env: Env, w: Work, prev: Out, doc: Doc, sels: Selection, b: seq<nat>, reuse: bool, g: nat)
    requires BoundsOk(b, |sels|) && ByChannel(b, |sels|) && g < |sels| && |sels| <= |w.out.vers|
    requires FirstMade(env, w, doc, sels, g) && MadeOk(env, doc, w.out.srcGen, prev)
    requires w.out.sels == Some(sels) && (g < |prev.vers| ==> w.out.vers[g] == prev.vers[g])
    requires Group(env, w, prev, doc, sels, b, reuse, g).ok
    ensures FirstMade(env, Group(env, w, prev, doc, sels, b, reuse, g).work, doc, sels, g + 1)
  {
    hide EncodeGroup, Made, Walk, ChannelRefs, Entries, BoundsOk;
    assert sels[b[g]..b[g + 1]] == [sels[g]];
    var o := Group(env, w, prev, doc, sels, b, reuse, g).work;
    if !(reuse && PerChannel(b, |sels|) && Same(prev, w.out, g)) {
      EncodeMakes(env, w, doc, g, sels[g]);
      EncodePasses(env, w, doc, g, g, [sels[g]]);
    }
    forall h | 0 <= h < g ensures Made(env, doc, h, sels[h], o.out.vers[h], o.out.seg[h]) {
      assert o.out.seg[..g][h] == o.out.seg[h];
      assert Made(env, doc, h, sels[h], w.out.vers[h], w.out.seg[h]);
    }
  }

  lemma {:induction false} GroupsMade(env: Env, w0: Work, prev: Out, doc: Doc, sels: Selection, b: seq<nat>,
                                      reuse: bool, k: nat)
    requires BoundsOk(b, |sels|) && ByChannel(b, |sels|) && k < |b| && |b| - 1 <= |w0.out.vers| && w0.out.seg == []
    requires MadeOk(env, doc, w0.out.srcGen, prev) && w0.out.sels == Some(sels)
    requires forall h :: 0 <= h < |prev.vers| && h < |w0.out.vers| ==> w0.out.vers[h] == prev.vers[h]
    requires Groups(env, w0, prev, doc, sels, b, reuse, k).ok
    ensures FirstMade(env, Groups(env, w0, prev, doc, sels, b, reuse, k).work, doc, sels, k)
  {
    hide Group, Groups, BoundsOk, MadeOk, FirstMade, SameAt, TableOk;
    GroupsUnfold(env, w0, prev, doc, sels, b, reuse, k);
    if k == 0 {
      NoneMade(env, w0, doc, sels);
    } else {
      GroupsMade(env, w0, prev, doc, sels, b, reuse, k - 1);
      GroupsPass(env, w0, prev, doc, sels, b, reuse, k - 1);
      GroupMade(env, Groups(env, w0, prev, doc, sels, b, reuse, k - 1).work, prev, doc, sels, b, reuse, k - 1);
    }
  }

  lemma NoneMade(env: Env, w: Work, doc: Doc, sels: Selection)
    requires w.out.seg == []
    ensures FirstMade(env, w, doc, sels, 0)
  {
  }

  // ----- With the shortcut -----

  /** The published output, when it came from this document, can be encoded again to the same. */
  ghost predicate PublishedOk(env: Env, t: Table, doc: Doc, srcGen: nat, o: Out) {
    o.sels.Some? ==>
      && |o.sels.value| == |o.seg| <= |o.vers|
      && (o.srcGen == srcGen ==> ChannelsOk(env, t, doc, o.sels.value, o.vers, o.seg, |o.seg|))
  }

  /** Channel g selects what is published for it. */
  predicate Reused(prev: Out, sels: Selection, srcGen: nat, g: nat) {
    && prev.sels.Some? && prev.srcGen == srcGen && g < |prev.seg| && g < |prev.sels.value| && g < |sels|
    && prev.sels.value[g] == sels[g]
  }

  /** If channel g would be reused, it could be encoded again to what is published for it. */
  ghost predicate KeptAt(env: Env, t: Table, doc: Doc, sels: Selection, srcGen: nat, prev: Out, g: nat) {
    Reused(prev, sels, srcGen, g) ==>
      g < |prev.vers| && ChannelOk(env, t, doc, g, sels[g], prev.vers[g], prev.seg[g])
  }

  ghost predicate Kept(env: Env, t: Table, doc: Doc, sels: Selection, srcGen: nat, prev: Out) {
    forall g: nat :: KeptAt(env, t, doc, sels, srcGen, prev, g)
  }

  lemma PublishedIsKept(env: Env, t: Table, doc: Doc, sels: Selection, srcGen: nat, prev: Out)
    requires PublishedOk(env, t, doc, srcGen, prev)
    ensures Kept(env, t, doc, sels, srcGen, prev)
  {
    hide ChannelOk;
  }

  lemma GroupEqual(env: Env, w0: Work, w: Work, prev: Out, doc: Doc, sels: Selection, b: seq<nat>, g: nat)
    requires BoundsOk(b, |sels|) && g + 1 < |b| && |b| - 1 <= |w0.out.vers| && |w.out.vers| == |w0.out.vers|
    requires PerChannel(b, |sels|) ==> ByChannel(b, |sels|)
    requires DistinctKeys(doc, sels, b) && NothingEmitted(w0.table)
    requires Progress(w0, w, KeysBefore(doc, sels, b, g), g)
    requires KeptAt(env, w0.table, doc, sels, w0.out.srcGen, prev, g)
    requires w0.out.sels.Some? ==> w0.out.sels.value == sels
    requires forall h :: 0 <= h < |prev.vers| && h < |w0.out.vers| ==> w0.out.vers[h] == prev.vers[h]
    ensures Group(env, w, prev, doc, sels, b, true, g) == Group(env, w, prev, doc, sels, b, false, g)
  {
    if PerChannel(b, |sels|) && Same(prev, w.out, g) && g < |sels| {
      KeysApart(doc, sels, b, g, g);
      ByChannelRefs(doc, sels, b, g);
      GroupUnmarked(w0, w, KeysBefore(doc, sels, b, g), g, GroupKeys(doc, sels, b, g));
      assert Reused(prev, sels, w0.out.srcGen, g);
      assert ChannelOk(env, w0.table, doc, g, sels[g], prev.vers[g], prev.seg[g]);
      assert w.out.vers[g] == prev.vers[g];
      hide EncodeGroup, ReuseGroup, ChannelOk, KeysBefore, GroupKeys, GroupRefs, ChannelKeys, Refs, Keys,
           DistinctKeys, Unmarked, SameOutside, SameContent, TableOk;
      ContentOutside(w0.table, w.table, KeysBefore(doc, sels, b, g), ChannelKeys(doc, g, sels[g]));
      ChannelFrame(env, w0.table, w.table, doc, g, sels[g], prev.vers[g], prev.seg[g]);
      SameKeys(doc, g, sels[g], w.table);
      ReuseIsEncode(env, w, prev, doc, g, sels[g]);
    }
  }

  lemma SameKeys(doc: Doc, c: nat, sel: seq<nat>, t: Table)
    ensures ChannelKeys(doc, c, sel) == Keys(doc, Refs(doc, c, [sel]), |Refs(doc, c, [sel])|)
  {
  }

  lemma {:induction false} GroupsEqual(env: Env, w0: Work, prev: Out, doc: Doc, sels: Selection, b: seq<nat>, k: nat)
    requires BoundsOk(b, |sels|) && k < |b| && |b| - 1 <= |w0.out.vers|
    requires PerChannel(b, |sels|) ==> ByChannel(b, |sels|)
    requires DistinctKeys(doc, sels, b) && NothingEmitted(w0.table)
    requires forall g: nat :: g < k ==> KeptAt(env, w0.table, doc, sels, w0.out.srcGen, prev, g)
    requires w0.out.sels.Some? ==> w0.out.sels.value == sels
    requires forall h :: 0 <= h < |prev.vers| && h < |w0.out.vers| ==> w0.out.vers[h] == prev.vers[h]
    ensures Groups(env, w0, prev, doc, sels, b, true, k) == Groups(env, w0, prev, doc, sels, b, false, k)
  {
    hide *;
    GroupsUnfold(env, w0, prev, doc, sels, b, false, k);
    GroupsUnfold(env, w0, prev, doc, sels, b, true, k);
    if k > 0 {
      GroupsEqual(env, w0, prev, doc, sels, b, k - 1);
      GroupsProgress(env, w0, prev, doc, sels, b, false, k - 1);
      GroupEqual(env, w0, Groups(env, w0, prev, doc, sels, b, false, k - 1).work, prev, doc, sels, b, k - 1);
    }
  }

  // ----- The operator fragment -----

  ghost predicate MainOk(env: Env, t: Table, doc: Doc, o: Out) {
    o.mainSeg.Some? ==>
      && env.publisher && env.encodeMain.Some? && UnitOk(env.encodeMain.value, 1)
      && UnitRecorded(env, t, doc, [Main], env.encodeMain.value, o.mainVer, o.mainSeg.value)
  }

  lemma MainKeys(doc: Doc)
    ensures Key(doc, [Main], 0) == "M:" && Keys(doc, [Main], 1) == {"M:"}
  {
    assert Keys(doc, [Main], 0) == {};
    assert Key(doc, [Main], 0) == Base(doc, Main);
    assert Keys(doc, [Main], 1) == {} + {Key(doc, [Main], 0)};
  }

  lemma MainFrame(env: Env, t: Table, t': Table, doc: Doc, o: Out)
    requires MainOk(env, t, doc, o) && SameContent(t, t', {"M:"})
    ensures MainOk(env, t', doc, o)
  {
    hide UnitRecorded, SameContent, UnitOk;
    if o.mainSeg.Some? {
      MainKeys(doc);
      UnitFrame(env, t, t', doc, [Main], env.encodeMain.value, o.mainVer, o.mainSeg.value);
    }
  }

  /** The operator fragment does not depend on the document. */
  lemma MainAnyDoc(env: Env, t: Table, doc: Doc, doc': Doc, o: Out)
    requires MainOk(env, t, doc, o)
    ensures MainOk(env, t, doc', o)
  {
    if o.mainSeg.Some? {
      var u := env.encodeMain.value;
      MainKeys(doc);
      MainKeys(doc');
      assert RecordedAt(t, doc, [Main], u, 0);
      hide Piece, SortById, Slots, Key, Keys;
      assert RecordedAt(t, doc', [Main], u, 0);
      forall out | RefsAre(t, doc', [Main], u.offs, out, 1) ensures RefsAre(t, doc, [Main], u.offs, out, 1) {
        assert out[0] == RefAt(t, "M:", Main, u.offs[0]);
      }
    }
  }

  lemma MainEqual(env: Env, w: Work, prev: Out, doc: Doc)
    requires MainOk(env, w.table, doc, prev) && w.out.mainVer == prev.mainVer && !Emitted(w.table, "M:")
    ensures MainGroup(env, w, prev, doc, true) == MainGroup(env, w, prev, doc, false)
  {
    if prev.mainSeg.Some? {
      var u := env.encodeMain.value;
      MainKeys(doc);
      hide Keys, Recorded, Walk, RefsAre, SortById, Slots, UnitOk, Emitted;
      WalkTouches(w.table, doc, [Main], u, 1);
    }
  }

  lemma MainRecords(env: Env, w: Work, prev: Out, doc: Doc)
    requires MainGroup(env, w, prev, doc, false).ok && !Emitted(w.table, "M:") && w.out.mainSeg.None?
    ensures var o := MainGroup(env, w, prev, doc, false).work;
            && MainOk(env, o.table, doc, o.out)
            && (o.out.mainSeg.Some? ==> Emitted(o.table, "M:"))
            && SameOutside(w.table, o.table, {"M:"})
            && (TableOk(w.table) ==> TableOk(o.table))
            && o.out == w.out.(mainVer := o.out.mainVer, mainSeg := o.out.mainSeg)
  {
    if env.publisher {
      var u := env.encodeMain.value;
      MainKeys(doc);
      hide Keys, Walk, SortById, Slots, TableOk, SameOutside, RecordedAt, RefsAre, Emitted, UnitOk;
      WalkAssigns(w.table, doc, [Main], u, 1);
      var a := Walk(w.table, doc, [Main], Some(u), 1);
      WalkFrame(w.table, doc, [Main], Some(u), 1);
      if TableOk(w.table) {
        WalkTableOk(w.table, doc, [Main], Some(u), 1);
      }
      forall out | RefsAre(a.table, doc, [Main], u.offs, out, 1) ensures out == a.refs {
        RefsUnique(a.table, doc, [Main], u.offs, out, a.refs, 1);
      }
    }
  }

  // ----- Whole builds -----

  /** Between builds, failed ones included: the fragment table may have moved on. */
  ghost predicate Live(env: Env, ctx: Ctx, doc: Doc, srcGen: nat) {
    && TableOk(ctx.table)
    && MadeOk(env, doc, srcGen, ctx.out)
    && MainOk(env, ctx.table, doc, ctx.out)
    && ctx.out.srcGen <= srcGen
  }

  /** After a successful build moreover every published channel could be encoded again to the same. */
  ghost predicate Inv(env: Env, ctx: Ctx, doc: Doc, srcGen: nat) {
    Live(env, ctx, doc, srcGen) && PublishedOk(env, ctx.table, doc, srcGen, ctx.out)
  }

  /** With one container per channel, containers share no key. Otherwise nothing is reused. */
  ghost predicate Distinct(env: Env, doc: Doc, sels: Selection) {
    var b := Plan(env, doc, sels);
    b.Some? && PerChannel(b.value, |sels|) ==> DistinctKeys(doc, sels, b.value)
  }

  /** Every channel this build would reuse could be encoded again to what is published for it. */
  ghost predicate ReuseKept(env: Env, ctx: Ctx, doc: Doc, srcGen: nat, sels: Selection) {
    var b := Plan(env, doc, sels);
    b.Some? && PerChannel(b.value, |sels|) ==> Kept(env, ctx.table, doc, sels, srcGen, ctx.out)
  }

  /** Pruning keeps what this build emitted. */
  lemma PruneKeeps(t: Table, keys: set<string>)
    requires AllEmitted(t, keys)
    ensures SameContent(t, Prune(t), keys)
  {
  }

  lemma BeginOk(ctx: Ctx, sels: Selection, b: seq<nat>, srcGen: nat)
    requires TableOk(ctx.table) && |b| >= 1
    ensures var w := Begin(ctx, sels, b, srcGen);
            && TableOk(w.table) && NothingEmitted(w.table)
            && w.out.seg == [] && w.out.mainSeg.None? && w.out.srcGen == srcGen && w.out.mainVer == ctx.out.mainVer
            && w.out.sels == (if PerChannel(b, |sels|) then Some(sels) else None)
            && (forall h :: 0 <= h < |ctx.out.vers| ==> h < |w.out.vers| && w.out.vers[h] == ctx.out.vers[h])
            && w.table.frags == ctx.table.frags
  {
  }

  /** The number of the build is not content. */
  lemma KeptAnyGen(env: Env, t: Table, t': Table, doc: Doc, sels: Selection, srcGen: nat, o: Out, g: nat)
    requires t'.frags == t.frags
    ensures KeptAt(env, t, doc, sels, srcGen, o, g) <==> KeptAt(env, t', doc, sels, srcGen, o, g)
  {
    hide ChannelOk, Reused;
    if Reused(o, sels, srcGen, g) && g < |o.vers| {
      ReusedSizes(o, sels, srcGen, g);
      if ChannelOk(env, t, doc, g, sels[g], o.vers[g], o.seg[g]) {
        ChannelAnyGen(env, t, t', doc, g, sels[g], o.vers[g], o.seg[g]);
      }
      if ChannelOk(env, t', doc, g, sels[g], o.vers[g], o.seg[g]) {
        ChannelAnyGen(env, t', t, doc, g, sels[g], o.vers[g], o.seg[g]);
      }
    }
  }

  lemma ReusedSizes(o: Out, sels: Selection, srcGen: nat, g: nat)
    requires Reused(o, sels, srcGen, g)
    ensures g < |o.seg| && g < |sels|
  {
  }

  lemma ChannelAnyGen(env: Env, t: Table, t': Table, doc: Doc, c: nat, sel: seq<nat>, ver: Version, seg: Bytes)
    requires t'.frags == t.frags && ChannelOk(env, t, doc, c, sel, ver, seg)
    ensures ChannelOk(env, t', doc, c, sel, ver, seg)
  {
    hide ChannelOk;
    SameFrags(t, t', ChannelKeys(doc, c, sel));
    ChannelFrame(env, t, t', doc, c, sel, ver, seg);
  }

  /** The containers of a build, encoded or reused. */
  ghost function BuildGroups(env: Env, ctx: Ctx, doc: Doc, srcGen: nat, sels: Selection, b: seq<nat>, reuse: bool): Step
    requires BoundsOk(b, |sels|)
  {
    Groups(env, Begin(ctx, sels, b, srcGen), ctx.out, doc, sels, b, reuse, |b| - 1)
  }

  lemma BuildUnfold(env: Env, ctx: Ctx, doc: Doc, srcGen: nat, sels: Selection, reuse: bool)
    ensures var plan := Plan(env, doc, sels);
            Build(env, ctx, doc, srcGen, sels, reuse)
            == if plan.None? then Built(ctx, false)
               else
                 var s := BuildGroups(env, ctx, doc, srcGen, sels, plan.value, reuse);
                 if !s.ok then Built(Ctx(s.work.table, ctx.out), false)
                 else Finish(env, s.work, ctx.out, doc, |plan.value|, reuse)
  {
    hide Plan, Begin, Groups, Finish, BoundsOk;
  }

  /** What the containers of a build leave behind. */
  lemma BuildGroupsDo(env: Env, ctx: Ctx, doc: Doc, srcGen: nat, sels: Selection, b: seq<nat>, reuse: bool)
    requires Live(env, ctx, doc, srcGen) && Plan(env, doc, sels) == Some(b)
    ensures var w := BuildGroups(env, ctx, doc, srcGen, sels, b, reuse).work;
            && TableOk(w.table) && MainOk(env, w.table, doc, ctx.out) && !Emitted(w.table, "M:")
            && w.out.mainVer == ctx.out.mainVer && w.out.mainSeg.None? && w.out.srcGen == srcGen
            && w.out.sels == (if PerChannel(b, |sels|) then Some(sels) else None)
  {
    hide *;
    BoundsLength(b, |sels|);
    var w0 := Begin(ctx, sels, b, srcGen);
    LiveParts(env, ctx, doc, srcGen);
    BeginOk(ctx, sels, b, srcGen);
    BuildGroupsAre(env, ctx, doc, srcGen, sels, b, reuse);
    if PerChannel(b, |sels|) {
      PlanByChannel(env, doc, sels);
    }
    GroupsPass(env, w0, ctx.out, doc, sels, b, reuse, |b| - 1);
    ReadyForMain(env, ctx, w0, BuildGroups(env, ctx, doc, srcGen, sels, b, reuse).work, doc, |b| - 1);
  }

  /** Reuse makes no difference to the containers. */
  lemma BuildGroupsEqual(env: Env, ctx: Ctx, doc: Doc, srcGen: nat, sels: Selection, b: seq<nat>)
    requires Live(env, ctx, doc, srcGen) && ReuseKept(env, ctx, doc, srcGen, sels)
    requires Plan(env, doc, sels) == Some(b) && Distinct(env, doc, sels)
    ensures BuildGroups(env, ctx, doc, srcGen, sels, b, true) == BuildGroups(env, ctx, doc, srcGen, sels, b, false)
  {
    hide *;
    BoundsLength(b, |sels|);
    var w0 := Begin(ctx, sels, b, srcGen);
    LiveParts(env, ctx, doc, srcGen);
    BeginOk(ctx, sels, b, srcGen);
    BuildGroupsAre(env, ctx, doc, srcGen, sels, b, true);
    BuildGroupsAre(env, ctx, doc, srcGen, sels, b, false);
    if PerChannel(b, |sels|) {
      PlanByChannel(env, doc, sels);
      PlanDistinct(env, doc, sels, b);
      PlanKept(env, ctx, doc, srcGen, sels, b);
      forall g: nat ensures KeptAt(env, w0.table, doc, sels, srcGen, ctx.out, g) {
        AllKept(env, ctx.table, doc, sels, srcGen, ctx.out, g);
        KeptAnyGen(env, ctx.table, w0.table, doc, sels, srcGen, ctx.out, g);
      }
      GroupsEqual(env, w0, ctx.out, doc, sels, b, |b| - 1);
    } else {
      GroupsPlain(env, w0, ctx.out, doc, sels, b, |b| - 1);
    }
  }

  lemma AllKept(env: Env, t: Table, doc: Doc, sels: Selection, srcGen: nat, prev: Out, g: nat)
    requires Kept(env, t, doc, sels, srcGen, prev)
    ensures KeptAt(env, t, doc, sels, srcGen, prev, g)
  {
  }

  lemma PlanKept(env: Env, ctx: Ctx, doc: Doc, srcGen: nat, sels: Selection, b: seq<nat>)
    requires Plan(env, doc, sels) == Some(b) && PerChannel(b, |sels|) && ReuseKept(env, ctx, doc, srcGen, sels)
    ensures Kept(env, ctx.table, doc, sels, srcGen, ctx.out)
  {
  }

  lemma PlanDistinct(env: Env, doc: Doc, sels: Selection, b: seq<nat>)
    requires Plan(env, doc, sels) == Some(b) && PerChannel(b, |sels|) && Distinct(env, doc, sels)
    ensures DistinctKeys(doc, sels, b)
  {
  }

  /** Without one container per channel nothing is reused. */
  lemma {:induction false} GroupsPlain(env: Env, w0: Work, prev: Out, doc: Doc, sels: Selection, b: seq<nat>, k: nat)
    requires BoundsOk(b, |sels|) && k < |b| && |b| - 1 <= |w0.out.vers| && !PerChannel(b, |sels|)
    ensures Groups(env, w0, prev, doc, sels, b, true, k) == Groups(env, w0, prev, doc, sels, b, false, k)
  {
    hide Group, Groups, BoundsOk;
    GroupsUnfold(env, w0, prev, doc, sels, b, false, k);
    GroupsUnfold(env, w0, prev, doc, sels, b, true, k);
    if k > 0 {
      GroupsPlain(env, w0, prev, doc, sels, b, k - 1);
      GroupPlain(env, Groups(env, w0, prev, doc, sels, b, false, k - 1).work, prev, doc, sels, b, k - 1);
    }
  }

  lemma GroupPlain(env: Env, w: Work, prev: Out, doc: Doc, sels: Selection, b: seq<nat>, g: nat)
    requires BoundsOk(b, |sels|) && g + 1 < |b| && |b| - 1 <= |w.out.vers| && !PerChannel(b, |sels|)
    ensures Group(env, w, prev, doc, sels, b, true, g) == Group(env, w, prev, doc, sels, b, false, g)
  {
    hide EncodeGroup, ReuseGroup, BoundsOk;
  }

  lemma LiveParts(env: Env, ctx: Ctx, doc: Doc, srcGen: nat)
    requires Live(env, ctx, doc, srcGen)
    ensures TableOk(ctx.table) && MadeOk(env, doc, srcGen, ctx.out) && MainOk(env, ctx.table, doc, ctx.out)
  {
  }

  lemma BuildGroupsAre(env: Env, ctx: Ctx, doc: Doc, srcGen: nat, sels: Selection, b: seq<nat>, reuse: bool)
    requires BoundsOk(b, |sels|)
    ensures BuildGroups(env, ctx, doc, srcGen, sels, b, reuse)
            == Groups(env, Begin(ctx, sels, b, srcGen), ctx.out, doc, sels, b, reuse, |b| - 1)
    ensures |b| >= 1
  {
    hide Groups, Begin;
  }

  lemma BuildEqual(env: Env, ctx: Ctx, doc: Doc, srcGen: nat, sels: Selection)
    requires Live(env, ctx, doc, srcGen) && Distinct(env, doc, sels)
    requires ReuseKept(env, ctx, doc, srcGen, sels)
    ensures Build(env, ctx, doc, srcGen, sels, true) == Build(env, ctx, doc, srcGen, sels, false)
  {
    hide Live, Distinct, ReuseKept, Plan, Build, BuildGroups, Finish, MainOk, Emitted, BoundsOk, Begin, TableOk,
         PerChannel;
    BuildUnfold(env, ctx, doc, srcGen, sels, true);
    BuildUnfold(env, ctx, doc, srcGen, sels, false);
    var plan := Plan(env, doc, sels);
    if plan.Some? {
      BuildGroupsEqual(env, ctx, doc, srcGen, sels, plan.value);
      BuildGroupsDo(env, ctx, doc, srcGen, sels, plan.value, false);
      FinishEqual(env, BuildGroups(env, ctx, doc, srcGen, sels, plan.value, false).work, ctx.out, doc, |plan.value|);
    }
  }

  lemma FinishEqual(env: Env, w: Work, prev: Out, doc: Doc, first: nat)
    requires MainOk(env, w.table, doc, prev) && w.out.mainVer == prev.mainVer && !Emitted(w.table, "M:")
    ensures Finish(env, w, prev, doc, first, true) == Finish(env, w, prev, doc, first, false)
  {
    hide MainGroup, MainOk, IndexGroup;
    MainEqual(env, w, prev, doc);
  }

  // ----- Every container leaves the operator fragment alone -----

  ghost predicate SameAt(t: Table, t': Table, k: string) {
    t'.gen == t.gen && (k in t.frags <==> k in t'.frags) && (k in t.frags ==> t'.frags[k] == t.frags[k])
  }

  lemma {:induction false} FreeKeyLetter(t: Table, base: string, dup: nat)
    requires 1 <= dup && |base| >= 1
    ensures var k := FreeKey(t, base, dup); k.Some? ==> |k.value| >= 1 && k.value[0] == base[0]
    decreases |t.frags.Keys - Tried(base, dup)|
  {
    if Emitted(t, Suffixed(base, dup)) && |Suffixed(base, dup)| <= KEY_MAX {
      TriedGrows(t.frags.Keys, base, dup);
      FreeKeyLetter(t, base, dup + 1);
    }
  }

  lemma MarkLeaves(t: Table, base: string, k: string)
    requires |base| >= 1 && |k| >= 1 && k[0] != base[0]
    ensures SameAt(t, Mark(t, base).table, k) && Mark(t, base).key != Some(k)
  {
    FreeKeyLetter(t, base, 1);
    hide FreeKey;
  }

  lemma {:induction false} WalkLeaves(t: Table, doc: Doc, refs: seq<Ref>, unit: Option<Unit>, n: nat)
    requires n <= |refs| && (unit.Some? ==> UnitOk(unit.value, |refs|))
    requires forall i :: 0 <= i < |refs| ==> !refs[i].Main?
    ensures SameAt(t, Walk(t, doc, refs, unit, n).table, "M:")
  {
    hide Mark, Piece, Base, UnitOk;
    if n > 0 {
      WalkLeaves(t, doc, refs, unit, n - 1);
      var w := Walk(t, doc, refs, unit, n - 1);
      BaseTells(doc, refs[n - 1], refs[n - 1]);
      MarkLeaves(w.table, Base(doc, refs[n - 1]), "M:");
      MarkedPresent(w.table, Base(doc, refs[n - 1]));
    }
  }

  /** What every build has changed after its first k containers, whatever the keys. */
  ghost predicate Passed(w0: Work, w: Work, k: nat) {
    && SameAt(w0.table, w.table, "M:")
    && (TableOk(w0.table) ==> TableOk(w.table))
    && w.out.sels == w0.out.sels && w.out.srcGen == w0.out.srcGen && w.out.mainVer == w0.out.mainVer
       && w.out.mainSeg == w0.out.mainSeg
    && |w.out.vers| == |w0.out.vers| && (forall h :: k <= h < |w.out.vers| ==> w.out.vers[h] == w0.out.vers[h])
  }

  lemma EncodePasses(env: Env, w: Work, doc: Doc, g: nat, from: nat, sels: Selection)
    requires g < |w.out.vers|
    ensures var o := EncodeGroup(env, w, doc, g, from, sels).work;
            && OutFrame(w.out, o.out, g) && SameAt(w.table, o.table, "M:") && (TableOk(w.table) ==> TableOk(o.table))
  {
    var refs := Refs(doc, from, sels);
    var u := Encode(env, doc, from, sels);
    RefsNotMain(doc, from, sels);
    hide Refs, Encode, Fits, Walk, PutContainer, TableOk;
    if u.Some? {
      WalkLeaves(w.table, doc, refs, u, |refs|);
      PutFrame(env, w, doc, g, u.value, Walk(w.table, doc, refs, u, |refs|));
      if TableOk(w.table) {
        WalkTableOk(w.table, doc, refs, u, |refs|);
      }
    }
  }

  lemma ReusePasses(env: Env, w: Work, prev: Out, doc: Doc, g: nat, sel: seq<nat>)
    requires g < |w.out.vers| && g < |prev.seg|
    ensures var o := ReuseGroup(env, w, prev, doc, g, sel).work;
            && OutFrame(w.out, o.out, g) && SameAt(w.table, o.table, "M:") && (TableOk(w.table) ==> TableOk(o.table))
  {
    ChannelRefsAgree(doc, g, sel);
    RefsNotMain(doc, g, [sel]);
    var refs := Refs(doc, g, [sel]);
    hide Refs, ChannelRefs, Walk, TableOk, Entries;
    WalkLeaves(w.table, doc, refs, None, |refs|);
    if TableOk(w.table) {
      WalkTableOk(w.table, doc, refs, None, |refs|);
    }
  }

  lemma GroupPasses(env: Env, w0: Work, w: Work, prev: Out, doc: Doc, sels: Selection, b: seq<nat>, reuse: bool, g: nat)
    requires BoundsOk(b, |sels|) && g + 1 < |b| && |b| - 1 <= |w0.out.vers| && Passed(w0, w, g)
    ensures Passed(w0, Group(env, w, prev, doc, sels, b, reuse, g).work, g + 1) && Passed(w0, w, g + 1)
  {
    hide EncodeGroup, ReuseGroup, TableOk;
    if reuse && PerChannel(b, |sels|) && Same(prev, w.out, g) && g < |sels| {
      ReusePasses(env, w, prev, doc, g, sels[g]);
    } else {
      EncodePasses(env, w, doc, g, b[g], sels[b[g]..b[g + 1]]);
    }
  }

  lemma {:induction false} GroupsPass(env: Env, w0: Work, prev: Out, doc: Doc, sels: Selection, b: seq<nat>,
                                      reuse: bool, k: nat)
    requires BoundsOk(b, |sels|) && k < |b| && |b| - 1 <= |w0.out.vers|
    ensures Passed(w0, Groups(env, w0, prev, doc, sels, b, reuse, k).work, k)
  {
    hide Group, Groups, BoundsOk, TableOk;
    GroupsUnfold(env, w0, prev, doc, sels, b, reuse, k);
    if k > 0 {
      GroupsPass(env, w0, prev, doc, sels, b, reuse, k - 1);
      hide Passed;
      GroupPasses(env, w0, Groups(env, w0, prev, doc, sels, b, reuse, k - 1).work, prev, doc, sels, b, reuse, k - 1);
    }
  }

  lemma ReadyForMain(env: Env, ctx: Ctx, w0: Work, w: Work, doc: Doc, k: nat)
    requires Passed(w0, w, k) && TableOk(w0.table)
    requires MainOk(env, ctx.table, doc, ctx.out) && w0.table.frags == ctx.table.frags && NothingEmitted(w0.table)
    requires w0.out.mainVer == ctx.out.mainVer
    ensures MainOk(env, w.table, doc, ctx.out) && !Emitted(w.table, "M:") && TableOk(w.table)
    ensures w.out.mainVer == ctx.out.mainVer && w.out.mainSeg == w0.out.mainSeg
    ensures w.out.srcGen == w0.out.srcGen && w.out.sels == w0.out.sels
  {
    assert !Emitted(w0.table, "M:");
    assert SameContent(ctx.table, w.table, {"M:"});
    hide MainOk, SameContent, TableOk;
    MainFrame(env, ctx.table, w.table, doc, ctx.out);
  }

  lemma BoundsLength(b: seq<nat>, n: nat)
    requires BoundsOk(b, n)
    ensures |b| >= 2
  {
  }

  lemma SameFrags(t: Table, t': Table, keys: set<string>)
    requires t'.frags == t.frags
    ensures SameContent(t, t', keys)
  {
  }

  // ----- A successful build keeps the invariant -----

  lemma {:induction false} KeysBeforeHas(doc: Doc, sels: Selection, b: seq<nat>, k: nat, g: nat)
    requires BoundsOk(b, |sels|) && k < |b| && g < k
    ensures GroupKeys(doc, sels, b, g) <= KeysBefore(doc, sels, b, k)
  {
    hide GroupKeys;
    if g < k - 1 {
      KeysBeforeHas(doc, sels, b, k - 1, g);
    }
  }

  /** The containers of a build are those of its channels, all their fragments emitted. */
  ghost predicate GroupsDone(env: Env, w: Work, doc: Doc) {
    && TableOk(w.table) && w.out.mainSeg.None? && !Emitted(w.table, "M:")
    && (w.out.sels.Some? ==>
        FirstOk(env, w, doc, w.out.sels.value, |w.out.sels.value|) && ChannelsEmitted(w.table, doc, w.out.sels.value))
  }

  ghost predicate ChannelsEmitted(t: Table, doc: Doc, sels: Selection) {
    forall g :: 0 <= g < |sels| ==> ChannelEmitted(t, doc, g, sels[g])
  }

  ghost predicate ChannelEmitted(t: Table, doc: Doc, c: nat, sel: seq<nat>) {
    AllEmitted(t, ChannelKeys(doc, c, sel)) && "M:" !in ChannelKeys(doc, c, sel)
  }

  lemma EmittedSubset(t: Table, a: set<string>, b: set<string>)
    requires AllEmitted(t, a) && b <= a
    ensures AllEmitted(t, b)
  {
  }

  lemma AllChannelsEmitted(t: Table, doc: Doc, sels: Selection, b: seq<nat>)
    requires BoundsOk(b, |sels|) && ByChannel(b, |sels|) && AllEmitted(t, KeysBefore(doc, sels, b, |b| - 1))
    ensures ChannelsEmitted(t, doc, sels)
  {
    MainApart(doc, sels, b, |b| - 1);
    forall g | 0 <= g < |sels| ensures ChannelEmitted(t, doc, g, sels[g]) {
      hide AllEmitted, KeysBefore, GroupKeys, ChannelKeys, BoundsOk;
      ByChannelRefs(doc, sels, b, g);
      KeysBeforeHas(doc, sels, b, |b| - 1, g);
      EmittedSubset(t, KeysBefore(doc, sels, b, |b| - 1), ChannelKeys(doc, g, sels[g]));
    }
  }

  lemma GroupsAreDone(env: Env, ctx: Ctx, doc: Doc, srcGen: nat, sels: Selection, b: seq<nat>)
    requires Live(env, ctx, doc, srcGen) && Plan(env, doc, sels) == Some(b) && Distinct(env, doc, sels)
    requires BuildGroups(env, ctx, doc, srcGen, sels, b, false).ok
    ensures GroupsDone(env, BuildGroups(env, ctx, doc, srcGen, sels, b, false).work, doc)
    ensures BuildGroups(env, ctx, doc, srcGen, sels, b, false).work.out.srcGen == srcGen
  {
    hide Live, Distinct, DistinctKeys, Plan, BoundsOk, BuildGroups, Begin, Progress, MainOk, Emitted, KeysBefore,
         TableOk,
         NothingEmitted, FirstOk, ChannelsEmitted, ByChannel, Groups, AllEmitted;
    BoundsLength(b, |sels|);
    var w0 := Begin(ctx, sels, b, srcGen);
    var w := BuildGroups(env, ctx, doc, srcGen, sels, b, false).work;
    LiveParts(env, ctx, doc, srcGen);
    BeginOk(ctx, sels, b, srcGen);
    BuildGroupsDo(env, ctx, doc, srcGen, sels, b, false);
    if PerChannel(b, |sels|) {
      PlanByChannel(env, doc, sels);
      PlanDistinct(env, doc, sels, b);
      BuildGroupsAre(env, ctx, doc, srcGen, sels, b, false);
      GroupsChannels(env, w0, ctx.out, doc, sels, b, |b| - 1);
      GroupsEmit(env, w0, ctx.out, doc, sels, b, false, |b| - 1);
      AllChannelsEmitted(w.table, doc, sels, b);
    }
  }

  lemma FinishPublishes(env: Env, w: Work, prev: Out, doc: Doc, first: nat)
    requires GroupsDone(env, w, doc) && Finish(env, w, prev, doc, first, false).ok
    ensures var ctx := Finish(env, w, prev, doc, first, false).ctx;
            PublishedOk(env, ctx.table, doc, w.out.srcGen, ctx.out)
  {
    var m := MainGroup(env, w, prev, doc, false).work;
    hide Emitted, TableOk, SameOutside, MainOk, ChannelOk, ChannelsEmitted, MainGroup, Prune;
    MainRecords(env, w, prev, doc);
    if w.out.sels.Some? {
      ChannelsFinish(env, w, m.table, doc);
    }
  }

  /** The operator fragment stays recorded, whether its container succeeds or fails. */
  lemma MainStays(env: Env, w: Work, prev: Out, doc: Doc)
    requires MainOk(env, w.table, doc, prev) && w.out.mainVer == prev.mainVer && !Emitted(w.table, "M:")
    requires w.out.mainSeg.None? && TableOk(w.table)
    ensures var s := MainGroup(env, w, prev, doc, false);
            && TableOk(s.work.table) && MainOk(env, s.work.table, doc, prev)
            && SameOutside(w.table, s.work.table, {"M:"})
            && s.work.out == w.out.(mainVer := s.work.out.mainVer, mainSeg := s.work.out.mainSeg)
            && (s.ok ==> MainOk(env, s.work.table, doc, s.work.out))
            && (s.ok && (prev.mainSeg.Some? || s.work.out.mainSeg.Some?) ==> Emitted(s.work.table, "M:"))
  {
    if env.publisher && env.encodeMain.Some? && UnitOk(env.encodeMain.value, 1) {
      var u := env.encodeMain.value;
      MainKeys(doc);
      hide Keys, Key, Walk, SortById, Slots, TableOk, SameOutside, RecordedAt, RefsAre, Emitted, UnitOk, UnitRecorded,
           SameContent;
      MainWalks(env, w, prev, doc, u);
      var a := Walk(w.table, doc, [Main], Some(u), 1);
      if MainGroup(env, w, prev, doc, false).ok {
        MainRecords(env, w, prev, doc);
      }
    } else {
      NoOutside(w.table, {"M:"});
    }
  }

  lemma NoOutside(t: Table, keys: set<string>)
    ensures SameOutside(t, t, keys)
  {
  }

  lemma MainWalks(env: Env, w: Work, prev: Out, doc: Doc, u: Unit)
    requires MainOk(env, w.table, doc, prev) && !Emitted(w.table, "M:") && TableOk(w.table)
    requires env.encodeMain == Some(u) && UnitOk(u, 1)
    ensures var t := Walk(w.table, doc, [Main], Some(u), 1).table;
            TableOk(t) && MainOk(env, t, doc, prev) && SameOutside(w.table, t, {"M:"})
  {
    MainKeys(doc);
    hide Keys, Key, Walk, SortById, Slots, TableOk, SameOutside, RecordedAt, RefsAre, Emitted, UnitOk;
    WalkFrame(w.table, doc, [Main], Some(u), 1);
    WalkTableOk(w.table, doc, [Main], Some(u), 1);
    if prev.mainSeg.Some? {
      WalkTouches(w.table, doc, [Main], u, 1);
      hide UnitRecorded, SameContent;
      MainFrame(env, w.table, Walk(w.table, doc, [Main], Some(u), 1).table, doc, prev);
    }
  }

  /** The end of a build, successful or not, as far as the operator fragment goes. */
  lemma FinishStays(env: Env, w: Work, prev: Out, doc: Doc, first: nat)
    requires MainOk(env, w.table, doc, prev) && w.out.mainVer == prev.mainVer && !Emitted(w.table, "M:")
    requires w.out.mainSeg.None? && TableOk(w.table)
    ensures var r := Finish(env, w, prev, doc, first, false);
            && TableOk(r.ctx.table) && MainOk(env, r.ctx.table, doc, r.ctx.out)
            && (!r.ok ==> r.ctx.out == prev)
            && (r.ok ==> r.ctx.out.sels == w.out.sels && r.ctx.out.srcGen == w.out.srcGen
                         && r.ctx.out.seg == w.out.seg && r.ctx.out.vers == w.out.vers)
  {
    var m := MainGroup(env, w, prev, doc, false).work;
    hide Emitted, TableOk, SameOutside, MainOk, MainGroup, Prune;
    MainStays(env, w, prev, doc);
    var r := Finish(env, w, prev, doc, first, false);
    PruneOk(m.table);
    if MainGroup(env, w, prev, doc, false).ok {
      MainPruned(env, m.table, doc, prev);
      MainPruned(env, m.table, doc, m.out);
      if r.ok {
        MainSameOut(env, Prune(m.table), doc, m.out, r.ctx.out);
      }
    }
  }

  lemma MainPruned(env: Env, t: Table, doc: Doc, o: Out)
    requires MainOk(env, t, doc, o) && (o.mainSeg.Some? ==> Emitted(t, "M:"))
    ensures MainOk(env, Prune(t), doc, o)
  {
    hide Emitted, Prune, UnitRecorded, SameContent;
    if o.mainSeg.Some? {
      EmittedOne(t, "M:");
      PruneKeeps(t, {"M:"});
      MainFrame(env, t, Prune(t), doc, o);
    }
  }

  lemma EmittedOne(t: Table, k: string)
    requires Emitted(t, k)
    ensures AllEmitted(t, {k})
  {
  }

  lemma MainSameOut(env: Env, t: Table, doc: Doc, a: Out, b: Out)
    requires b.mainSeg == a.mainSeg && b.mainVer == a.mainVer && (a.mainSeg.Some? ==> MainOk(env, t, doc, a))
    ensures MainOk(env, t, doc, b)
  {
    hide UnitRecorded, UnitOk;
  }

  lemma ChannelsFinish(env: Env, w: Work, t: Table, doc: Doc)
    requires w.out.sels.Some? && ChannelsEmitted(w.table, doc, w.out.sels.value) && SameOutside(w.table, t, {"M:"})
    requires ChannelsOk(env, w.table, doc, w.out.sels.value, w.out.vers, w.out.seg, |w.out.sels.value|)
    ensures ChannelsOk(env, Prune(t), doc, w.out.sels.value, w.out.vers, w.out.seg, |w.out.sels.value|)
  {
    var sels := w.out.sels.value;
    forall g | 0 <= g < |sels| ensures ChannelOk(env, Prune(t), doc, g, sels[g], w.out.vers[g], w.out.seg[g]) {
      var keys := ChannelKeys(doc, g, sels[g]);
      assert ChannelEmitted(w.table, doc, g, sels[g]);
      hide ChannelOk, ChannelKeys, SameContent, Prune;
      ContentOutside(w.table, t, {"M:"}, keys);
      EmittedOutside(w.table, t, {"M:"}, keys);
      PruneKeeps(t, keys);
      ContentSteps(w.table, t, Prune(t), keys);
      ChannelFrame(env, w.table, Prune(t), doc, g, sels[g], w.out.vers[g], w.out.seg[g]);
    }
  }

  lemma EmittedOutside(t: Table, t1: Table, a: set<string>, keys: set<string>)
    requires SameOutside(t, t1, a) && a !! keys && AllEmitted(t, keys)
    ensures AllEmitted(t1, keys)
  {
  }

  /** Every build, with or without reuse, successful or not, of any document, keeps this much. */
  lemma BuildKeepsLive(env: Env, ctx: Ctx, doc: Doc, srcGen: nat, sels: Selection, reuse: bool)
    requires Live(env, ctx, doc, srcGen)
    ensures Live(env, Build(env, ctx, doc, srcGen, sels, reuse).ctx, doc, srcGen)
    ensures var r := Build(env, ctx, doc, srcGen, sels, reuse); !r.ok ==> r.ctx.out == ctx.out
  {
    hide MadeOk, Plan, Build, BuildGroups, Finish, MainOk, Emitted, BoundsOk, Begin, TableOk, PerChannel, MainGroup;
    BuildUnfold(env, ctx, doc, srcGen, sels, reuse);
    var plan := Plan(env, doc, sels);
    if plan.Some? {
      var b := plan.value;
      BuildGroupsDo(env, ctx, doc, srcGen, sels, b, reuse);
      var s := BuildGroups(env, ctx, doc, srcGen, sels, b, reuse);
      if s.ok {
        if reuse {
          FinishEqual(env, s.work, ctx.out, doc, |b|);
        }
        FinishStays(env, s.work, ctx.out, doc, |b|);
        if Finish(env, s.work, ctx.out, doc, |b|, false).ok {
          BuildMakes(env, ctx, doc, srcGen, sels, b, reuse);
          MadeSameOut(env, doc, srcGen, s.work.out, Finish(env, s.work, ctx.out, doc, |b|, false).ctx.out);
        }
      }
    }
  }

  lemma BuildMakes(env: Env, ctx: Ctx, doc: Doc, srcGen: nat, sels: Selection, b: seq<nat>, reuse: bool)
    requires Live(env, ctx, doc, srcGen) && Plan(env, doc, sels) == Some(b)
    requires BuildGroups(env, ctx, doc, srcGen, sels, b, reuse).ok
    ensures MadeOk(env, doc, srcGen, BuildGroups(env, ctx, doc, srcGen, sels, b, reuse).work.out)
  {
    hide MadeOk, Plan, BuildGroups, MainOk, Emitted, BoundsOk, Begin, TableOk, Groups;
    BoundsLength(b, |sels|);
    var w0 := Begin(ctx, sels, b, srcGen);
    var w := BuildGroups(env, ctx, doc, srcGen, sels, b, reuse).work;
    BeginOk(ctx, sels, b, srcGen);
    BuildGroupsAre(env, ctx, doc, srcGen, sels, b, reuse);
    BuildGroupsDo(env, ctx, doc, srcGen, sels, b, reuse);
    if PerChannel(b, |sels|) {
      PlanByChannel(env, doc, sels);
      GroupsMade(env, w0, ctx.out, doc, sels, b, reuse, |b| - 1);
      BoundsFew(b, |sels|);
      AllMade(env, doc, srcGen, w, sels);
    } else {
      NothingPublished(env, doc, srcGen, w.out);
    }
  }

  lemma BoundsFew(b: seq<nat>, n: nat)
    requires BoundsOk(b, n) && PerChannel(b, n)
    ensures 0 < n <= MAX_SEGMENTS
  {
  }

  lemma AllMade(env: Env, doc: Doc, srcGen: nat, w: Work, sels: Selection)
    requires FirstMade(env, w, doc, sels, |sels|) && w.out.sels == Some(sels) && 0 < |sels| <= MAX_SEGMENTS
    ensures MadeOk(env, doc, srcGen, w.out)
  {
  }

  lemma NothingPublished(env: Env, doc: Doc, srcGen: nat, o: Out)
    requires o.sels.None?
    ensures MadeOk(env, doc, srcGen, o)
  {
  }

  lemma MadeSameOut(env: Env, doc: Doc, srcGen: nat, a: Out, b: Out)
    requires MadeOk(env, doc, srcGen, a)
    requires b.sels == a.sels && b.srcGen == a.srcGen && b.seg == a.seg && b.vers == a.vers
    ensures MadeOk(env, doc, srcGen, b)
  {
    hide Made;
  }

  lemma BuildKeepsInv(env: Env, ctx: Ctx, doc: Doc, srcGen: nat, sels: Selection)
    requires Live(env, ctx, doc, srcGen) && Distinct(env, doc, sels)
    requires Build(env, ctx, doc, srcGen, sels, false).ok
    ensures Inv(env, Build(env, ctx, doc, srcGen, sels, false).ctx, doc, srcGen)
  {
    hide Live, Distinct, Plan, Build, BuildGroups, Finish, BoundsOk, GroupsDone, PublishedOk;
    BuildKeepsLive(env, ctx, doc, srcGen, sels, false);
    BuildUnfold(env, ctx, doc, srcGen, sels, false);
    var b := Plan(env, doc, sels).value;
    GroupsAreDone(env, ctx, doc, srcGen, sels, b);
    FinishPublishes(env, BuildGroups(env, ctx, doc, srcGen, sels, b, false).work, ctx.out, doc, |b|);
  }
}
