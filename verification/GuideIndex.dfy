/**
 * What the guide's index points to (src/dipibcg/announce/segment.c).
 *
 * An entry names a container and a fragment in it. After a successful build every entry leads to a
 * fragment that the container lists under that identifier and that has the entry's key, and every
 * selected programme and schedule has its entries.
 */
module GuideIndex {
  import opened Wrappers
  import opened Fragments
  import opened Guide
  import opened GuideReuse
  import opened GuideBuilds

  // ----- Entries and fragments -----

  /** The fragment has the key: its CRID, its title, its last end with its channel, a title shown. */
  ghost predicate Leads(env: Env, doc: Doc, e: IndexEntry, r: Ref) {
    match e.kind
    case ByCrid => r.Program? && e.key == Crid(doc, r.index) && e.second.None?
    case ByTitle => r.Program? && Title(doc, r.index) == Some(e.key) && e.second.None?
    case ByTime => r.Schedule? && env.scheduleEnd(doc, r.sel) == Some(e.key) && e.second == Some(Id(doc, r.channel))
    case ByShowing =>
      r.Schedule? && e.second.None? && exists p :: 0 <= p < |r.sel| && Title(doc, r.sel[p]) == Some(e.key)
  }

  ghost predicate PointsTo(env: Env, doc: Doc, e: IndexEntry, container: nat, r: FragRef) {
    e.container == container && e.fragment == r.id && e.kind in env.kinds && Leads(env, doc, e, r.ref)
  }

  lemma {:induction false} TitlesAre(doc: Doc, sel: seq<nat>, container: nat, id: nat, e: IndexEntry)
    ensures e in Titles(doc, sel, container, id)
       <==> && e.kind == ByShowing && e.second.None? && e.container == container && e.fragment == id
            && exists p :: 0 <= p < |sel| && Title(doc, sel[p]) == Some(e.key)
  {
    if sel != [] {
      TitlesAre(doc, sel[1..], container, id, e);
      assert forall p :: 0 <= p < |sel[1..]| ==> sel[1..][p] == sel[p + 1];
      if p :| 0 <= p < |sel| && Title(doc, sel[p]) == Some(e.key) {
        assert p == 0 || sel[1..][p - 1] == sel[p];
      }
    }
  }

  lemma EntryListAre(env: Env, doc: Doc, r: FragRef, container: nat, e: IndexEntry)
    ensures e in EntryList(env, doc, r.ref, container, r.id) <==> PointsTo(env, doc, e, container, r)
  {
    if r.ref.Schedule? {
      TitlesAre(doc, r.ref.sel, container, r.id, e);
      hide Titles;
    }
  }

  lemma {:induction false} EntriesAre(env: Env, doc: Doc, refs: seq<FragRef>, container: nat, e: IndexEntry)
    ensures e in Entries(env, doc, refs, container)
       <==> exists i :: 0 <= i < |refs| && PointsTo(env, doc, e, container, refs[i])
  {
    hide EntryList, PointsTo;
    if refs != [] {
      EntriesAre(env, doc, refs[1..], container, e);
      EntryListAre(env, doc, refs[0], container, e);
      if i :| 0 <= i < |refs| && PointsTo(env, doc, e, container, refs[i]) {
        assert i == 0 || refs[1..][i - 1] == refs[i];
      }
      if i :| 0 <= i < |refs[1..]| && PointsTo(env, doc, e, container, refs[1..][i]) {
        assert refs[1..][i] == refs[i + 1];
      }
    }
  }

  // ----- The fragments a container lists -----

  ghost function RefsOf(list: seq<FragRef>): seq<Ref> {
    seq(|list|, i requires 0 <= i < |list| => list[i].ref)
  }

  lemma {:induction false} InsertRefs(r: FragRef, s: seq<FragRef>)
    ensures multiset(RefsOf(Insert(r, s))) == multiset(RefsOf(s)) + multiset{r.ref}
  {
    if s == [] || r.id <= s[0].id {
      assert RefsOf([r] + s) == [r.ref] + RefsOf(s);
    } else {
      InsertRefs(r, s[1..]);
      assert RefsOf([s[0]] + Insert(r, s[1..])) == [s[0].ref] + RefsOf(Insert(r, s[1..]));
      assert RefsOf(s) == [s[0].ref] + RefsOf(s[1..]);
    }
  }

  lemma {:induction false} SortRefs(s: seq<FragRef>)
    ensures multiset(RefsOf(SortById(s))) == multiset(RefsOf(s))
  {
    if s != [] {
      SortRefs(s[1..]);
      InsertRefs(s[0], SortById(s[1..]));
      assert RefsOf(s) == [s[0].ref] + RefsOf(s[1..]);
    }
  }

  lemma NoRefs()
    ensures RefsOf([]) == []
  {
  }

  lemma LastRef(s: seq<FragRef>, r: FragRef)
    ensures RefsOf(s + [r]) == RefsOf(s) + [r.ref]
  {
  }

  lemma WalkNone(t: Table, doc: Doc, refs: seq<Ref>, unit: Option<Unit>)
    requires unit.Some? ==> UnitOk(unit.value, |refs|)
    ensures Walk(t, doc, refs, unit, 0).refs == []
  {
  }

  lemma WalkLast(t: Table, doc: Doc, refs: seq<Ref>, unit: Option<Unit>, n: nat)
    requires 0 < n <= |refs| && (unit.Some? ==> UnitOk(unit.value, |refs|)) && Walk(t, doc, refs, unit, n).ok
    ensures var w, w2 := Walk(t, doc, refs, unit, n - 1), Walk(t, doc, refs, unit, n);
            && w.ok && |w2.refs| == |w.refs| + 1 && w2.refs == w.refs + [w2.refs[|w.refs|]]
            && w2.refs[|w.refs|].ref == refs[n - 1]
  {
    hide Mark, Record, Piece, Base;
  }

  lemma {:induction false} WalkRefs(t: Table, doc: Doc, refs: seq<Ref>, unit: Option<Unit>, n: nat)
    requires n <= |refs| && (unit.Some? ==> UnitOk(unit.value, |refs|)) && Walk(t, doc, refs, unit, n).ok
    ensures RefsOf(Walk(t, doc, refs, unit, n).refs) == refs[..n]
  {
    hide Walk, UnitOk, RefsOf;
    WalkNone(t, doc, refs, unit);
    NoRefs();
    if n > 0 {
      WalkLast(t, doc, refs, unit, n);
      WalkRefs(t, doc, refs, unit, n - 1);
      var w, w2 := Walk(t, doc, refs, unit, n - 1), Walk(t, doc, refs, unit, n);
      LastRef(w.refs, w2.refs[|w.refs|]);
      assert refs[..n] == refs[..n - 1] + [refs[n - 1]];
    }
  }

  /** The references as the container lists them. */
  ghost predicate SlotsAre(slots: seq<Slot>, list: seq<FragRef>) {
    && |slots| == |list|
    && forall i :: 0 <= i < |list| ==>
         slots[i].off == list[i].off && slots[i].id == list[i].id && slots[i].version == list[i].version
  }

  /** Every reference says where in the encoded body its fragment begins. */
  ghost predicate Located(refs: seq<Ref>, offs: seq<Offset>, list: seq<FragRef>) {
    |offs| == |refs| && forall r :: r in list ==> exists i :: 0 <= i < |refs| && refs[i] == r.ref && offs[i] == r.off
  }

  ghost predicate IdsDiffer(list: seq<FragRef>) {
    forall i, j :: 0 <= i < j < |list| ==> list[i].id != list[j].id
  }

  /** The container is the encoded body of its channels with exactly this list of references. */
  ghost predicate BuiltFrom(env: Env, doc: Doc, from: nat, sels: Selection, seg: Bytes, list: seq<FragRef>) {
    var u, refs := Encode(env, doc, from, sels), Refs(doc, from, sels);
    && u.Some? && Located(refs, u.value.offs, list) && multiset(RefsOf(list)) == multiset(refs)
    && exists slots, cont ::
         SlotsAre(slots, list) && env.container(u.value.au, u.value.strs, slots) == Some(cont)
           && env.wrap(cont) == Some(seg)
  }

  /** The containers so far list the fragments of their channels, and the entries are theirs. */
  ghost predicate Indexed(env: Env, doc: Doc, sels: Selection, b: seq<nat>, segs: seq<Bytes>,
                         entries: multiset<IndexEntry>, lists: seq<seq<FragRef>>)
    requires BoundsOk(b, |sels|)
  {
    && |segs| == |lists| < |b|
    && (forall g :: 0 <= g < |lists| ==>
          BuiltFrom(env, doc, b[g], sels[b[g]..b[g + 1]], segs[g], lists[g]))
    && forall e :: e in entries <==>
         exists g, i :: 0 <= g < |lists| && 0 <= i < |lists[g]| && PointsTo(env, doc, e, g + 1, lists[g][i])
  }

  lemma WalkOffs(t: Table, doc: Doc, refs: seq<Ref>, u: Unit, n: nat)
    requires n <= |refs| && UnitOk(u, |refs|) && Walk(t, doc, refs, Some(u), n).ok
    ensures |u.offs| == |refs| && |Walk(t, doc, refs, Some(u), n).refs| == n
    ensures forall i :: 0 <= i < n ==> Walk(t, doc, refs, Some(u), n).refs[i].off == u.offs[i]
  {
    hide Mark, Record, Piece, Base;
    if n > 0 {
      WalkOffs(t, doc, refs, u, n - 1);
    }
  }

  lemma {:induction false} SortHas(s: seq<FragRef>, r: FragRef)
    ensures r in SortById(s) <==> r in s
  {
    SortSorts(s);
    assert r in multiset(SortById(s)) <==> r in multiset(s);
  }

  lemma {:induction false} InsertDiffers(r: FragRef, s: seq<FragRef>)
    requires IdsDiffer(s) && forall i :: 0 <= i < |s| ==> s[i].id != r.id
    ensures IdsDiffer(Insert(r, s))
  {
    if s != [] && r.id > s[0].id {
      InsertDiffers(r, s[1..]);
      forall i | 0 <= i < |Insert(r, s[1..])| ensures Insert(r, s[1..])[i].id != s[0].id {
        InsertHas(r, s[1..], Insert(r, s[1..])[i]);
      }
    }
  }

  lemma {:induction false} InsertHas(r: FragRef, s: seq<FragRef>, x: FragRef)
    ensures x in Insert(r, s) <==> x == r || x in s
  {
    if s != [] && r.id > s[0].id {
      InsertHas(r, s[1..], x);
    }
  }

  lemma {:induction false} SortDiffers(s: seq<FragRef>)
    requires IdsDiffer(s)
    ensures IdsDiffer(SortById(s))
  {
    if s != [] {
      SortDiffers(s[1..]);
      var rest := SortById(s[1..]);
      forall i | 0 <= i < |rest| ensures rest[i].id != s[0].id {
        SortHas(s[1..], rest[i]);
      }
      InsertDiffers(s[0], rest);
    }
  }

  /** The list of an encoded container. */
  lemma ListOf(t: Table, doc: Doc, refs: seq<Ref>, u: Unit)
    requires UnitOk(u, |refs|) && Walk(t, doc, refs, Some(u), |refs|).ok
    ensures var list := SortById(Walk(t, doc, refs, Some(u), |refs|).refs);
            && |list| == |Walk(t, doc, refs, Some(u), |refs|).refs|
            && multiset(RefsOf(list)) == multiset(refs) && Located(refs, u.offs, list)
            && (TableOk(t) && Unmarked(t, Keys(doc, refs, |refs|)) ==> IdsDiffer(list))
  {
    hide Walk, UnitOk, TableOk, Unmarked, Keys;
    var a := Walk(t, doc, refs, Some(u), |refs|);
    WalkRefs(t, doc, refs, Some(u), |refs|);
    assert refs[..|refs|] == refs;
    SortRefs(a.refs);
    WalkOffs(t, doc, refs, u, |refs|);
    SortSorts(a.refs);
    assert |multiset(SortById(a.refs))| == |SortById(a.refs)| && |multiset(a.refs)| == |a.refs|;
    forall r | r in SortById(a.refs) ensures exists i :: 0 <= i < |refs| && refs[i] == r.ref && u.offs[i] == r.off {
      SortHas(a.refs, r);
      var i :| 0 <= i < |a.refs| && a.refs[i] == r;
      assert refs[i] == RefsOf(a.refs)[i];
    }
    if TableOk(t) && Unmarked(t, Keys(doc, refs, |refs|)) {
      WalkIds(t, doc, refs, u);
      SortDiffers(a.refs);
    }
  }

  lemma WalkIds(t: Table, doc: Doc, refs: seq<Ref>, u: Unit)
    requires UnitOk(u, |refs|) && Walk(t, doc, refs, Some(u), |refs|).ok
    requires TableOk(t) && Unmarked(t, Keys(doc, refs, |refs|))
    ensures IdsDiffer(Walk(t, doc, refs, Some(u), |refs|).refs)
  {
    hide Walk, UnitOk, Unmarked, Keys, RecordedAt, Key;
    WalkAssigns(t, doc, refs, u, |refs|);
    WalkTableOk(t, doc, refs, Some(u), |refs|);
    var a := Walk(t, doc, refs, Some(u), |refs|);
    forall i, j | 0 <= i < j < |a.refs| ensures a.refs[i].id != a.refs[j].id {
      KeysDiffer(doc, refs, i, j);
    }
  }

  lemma NothingListed(env: Env, doc: Doc, sels: Selection, b: seq<nat>)
    requires BoundsOk(b, |sels|)
    ensures Indexed(env, doc, sels, b, [], multiset{}, [])
  {
  }

  /** What encoding container g adds. */
  lemma EncodeLists(env: Env, w: Work, doc: Doc, g: nat, from: nat, sels: Selection) returns (list: seq<FragRef>)
    requires g < |w.out.vers| && EncodeGroup(env, w, doc, g, from, sels).ok
    ensures var o := EncodeGroup(env, w, doc, g, from, sels).work;
            && |o.out.seg| == |w.out.seg| + 1 && o.out.seg[..|w.out.seg|] == w.out.seg
            && o.out.nfuu == w.out.nfuu + |list|
            && BuiltFrom(env, doc, from, sels, o.out.seg[|w.out.seg|], list)
            && forall e :: e in o.entries <==>
                 e in w.entries || exists i :: 0 <= i < |list| && PointsTo(env, doc, e, g + 1, list[i])
    ensures TableOk(w.table) && Unmarked(w.table, Keys(doc, Refs(doc, from, sels), |Refs(doc, from, sels)|)) ==>
              IdsDiffer(list)
  {
    hide Encode, Fits, Walk, SortById, Entries, RefsOf, PointsTo, Refs, UnitOk, TableOk, Unmarked, Keys, IdsDiffer,
         Located;
    var u, refs := Encode(env, doc, from, sels).value, Refs(doc, from, sels);
    var a := Walk(w.table, doc, refs, Some(u), |refs|);
    ListOf(w.table, doc, refs, u);
    list := SortById(a.refs);
    assert SlotsAre(Slots(list), list);
    var o := EncodeGroup(env, w, doc, g, from, sels).work;
    forall e ensures e in o.entries <==>
        e in w.entries || exists i :: 0 <= i < |list| && PointsTo(env, doc, e, g + 1, list[i])
    {
      EntriesAre(env, doc, list, g + 1, e);
    }
  }

  lemma ListedNext(env: Env, doc: Doc, sels: Selection, b: seq<nat>, segs: seq<Bytes>, entries: multiset<IndexEntry>,
                   lists: seq<seq<FragRef>>, segs2: seq<Bytes>, entries2: multiset<IndexEntry>, list: seq<FragRef>)
    requires BoundsOk(b, |sels|) && Indexed(env, doc, sels, b, segs, entries, lists) && |lists| + 1 < |b|
    requires |segs2| == |segs| + 1 && segs2[..|segs|] == segs
    requires var g := |lists|; BuiltFrom(env, doc, b[g], sels[b[g]..b[g + 1]], segs2[g], list)
    requires forall e :: e in entries2 <==>
               e in entries || exists i :: 0 <= i < |list| && PointsTo(env, doc, e, |lists| + 1, list[i])
    ensures Indexed(env, doc, sels, b, segs2, entries2, lists + [list])
  {
    hide BuiltFrom, PointsTo, BoundsOk;
    var lists2 := lists + [list];
    forall e ensures e in entries2 <==>
        exists g, i :: 0 <= g < |lists2| && 0 <= i < |lists2[g]| && PointsTo(env, doc, e, g + 1, lists2[g][i])
    {
      if g, i :| 0 <= g < |lists| && 0 <= i < |lists[g]| && PointsTo(env, doc, e, g + 1, lists[g][i]) {
        assert lists2[g] == lists[g];
      }
      if i :| 0 <= i < |list| && PointsTo(env, doc, e, |lists| + 1, list[i]) {
        assert lists2[|lists|] == list;
      }
    }
    forall g {:trigger lists2[g]} | 0 <= g < |lists2|
      ensures b[g] <= b[g + 1] <= |sels| && BuiltFrom(env, doc, b[g], sels[b[g]..b[g + 1]], segs2[g], lists2[g])
    {
      BoundsAt(b, |sels|, g);
      assert g < |lists| ==> segs2[g] == segs2[..|segs|][g];
    }
  }

  lemma ListedLength(env: Env, doc: Doc, sels: Selection, b: seq<nat>, segs: seq<Bytes>, entries: multiset<IndexEntry>,
                     lists: seq<seq<FragRef>>)
    requires BoundsOk(b, |sels|) && Indexed(env, doc, sels, b, segs, entries, lists)
    ensures |segs| == |lists| < |b|
  {
  }

  /** No key of a container was emitted before it, so its identifiers are its own. */
  ghost predicate Apart(doc: Doc, sels: Selection, b: seq<nat>, w0: Work)
    requires BoundsOk(b, |sels|)
  {
    && DistinctKeys(doc, sels, b) && NothingEmitted(w0.table) && TableOk(w0.table)
    && (PerChannel(b, |sels|) ==> ByChannel(b, |sels|))
  }

  ghost predicate AllDiffer(lists: seq<seq<FragRef>>) { forall g :: 0 <= g < |lists| ==> IdsDiffer(lists[g]) }

  /** How many fragments the containers list. */
  ghost function Total(lists: seq<seq<FragRef>>): nat {
    if lists == [] then 0 else Total(lists[..|lists| - 1]) + |lists[|lists| - 1]|
  }

  lemma {:induction false} GroupsList(env: Env, w0: Work, prev: Out, doc: Doc, sels: Selection, b: seq<nat>, k: nat)
    returns (lists: seq<seq<FragRef>>)
    requires BoundsOk(b, |sels|) && k < |b| && |b| - 1 <= |w0.out.vers| && w0.out.seg == [] && w0.entries == multiset{}
    requires Groups(env, w0, prev, doc, sels, b, false, k).ok
    ensures |lists| == k && (Apart(doc, sels, b, w0) ==> AllDiffer(lists))
    ensures var w := Groups(env, w0, prev, doc, sels, b, false, k).work;
            Indexed(env, doc, sels, b, w.out.seg, w.entries, lists) && w.out.nfuu == w0.out.nfuu + Total(lists)
  {
    hide Indexed, EncodeGroup, ReuseGroup, PointsTo, BuiltFrom, Groups, BoundsOk, Apart, IdsDiffer, Refs, Unmarked,
         TableOk;
    GroupsUnfold(env, w0, prev, doc, sels, b, false, k);
    if k == 0 {
      lists := [];
      NothingListed(env, doc, sels, b);
    } else {
      var w := Groups(env, w0, prev, doc, sels, b, false, k - 1).work;
      lists := GroupsList(env, w0, prev, doc, sels, b, k - 1);
      BoundsAt(b, |sels|, k - 1);
      var list := EncodeLists(env, w, doc, k - 1, b[k - 1], sels[b[k - 1]..b[k]]);
      if Apart(doc, sels, b, w0) {
        StillApart(env, w0, prev, doc, sels, b, k - 1);
      }
      var w2 := Groups(env, w0, prev, doc, sels, b, false, k).work;
      assert w2 == EncodeGroup(env, w, doc, k - 1, b[k - 1], sels[b[k - 1]..b[k]]).work;
      ListedLength(env, doc, sels, b, w.out.seg, w.entries, lists);
      ListedNext(env, doc, sels, b, w.out.seg, w.entries, lists, w2.out.seg, w2.entries, list);
      assert (lists + [list])[..|lists|] == lists;
      lists := lists + [list];
    }
  }

  lemma StillApart(env: Env, w0: Work, prev: Out, doc: Doc, sels: Selection, b: seq<nat>, g: nat)
    requires BoundsOk(b, |sels|) && g + 1 < |b| && |b| - 1 <= |w0.out.vers| && Apart(doc, sels, b, w0)
    ensures b[g] <= b[g + 1] <= |sels|
    ensures var w, refs := Groups(env, w0, prev, doc, sels, b, false, g).work, Refs(doc, b[g], sels[b[g]..b[g + 1]]);
            TableOk(w.table) && Unmarked(w.table, Keys(doc, refs, |refs|))
  {
    hide BoundsOk, Groups, TableOk, Unmarked, NothingEmitted, DistinctKeys, Keys, Refs, PerChannel, ByChannel;
    BoundsAt(b, |sels|, g);
    var w := Groups(env, w0, prev, doc, sels, b, false, g).work;
    GroupsProgress(env, w0, prev, doc, sels, b, false, g);
    GroupProgress(env, w0, w, prev, doc, sels, b, false, g);
    GroupsPass(env, w0, prev, doc, sels, b, false, g);
  }

  // ----- The whole build -----

  /** The index containers are what the index writer makes of these entries, each wrapped. */
  ghost predicate Writes(env: Env, entries: multiset<IndexEntry>, first: nat, iseg: seq<Bytes>) {
    var conts := env.index(entries, first);
    && conts.Some? && |iseg| == |conts.value|
    && forall i :: 0 <= i < |iseg| ==> env.wrap(conts.value[i]) == Some(iseg[i])
  }

  lemma {:induction false} WrapsEach(env: Env, conts: seq<Bytes>)
    requires WrapAll(env, conts).Some?
    ensures var segs := WrapAll(env, conts).value;
            |segs| == |conts| && forall i :: 0 <= i < |segs| ==> env.wrap(conts[i]) == Some(segs[i])
  {
    if conts != [] {
      WrapsEach(env, conts[..|conts| - 1]);
    }
  }

  lemma FinishWrites(env: Env, w: Work, prev: Out, doc: Doc, first: nat, reuse: bool)
    requires Finish(env, w, prev, doc, first, reuse).ok
    ensures var o := Finish(env, w, prev, doc, first, reuse).ctx.out;
            o.seg == w.out.seg && o.nfuu == w.out.nfuu && (env.kinds != {} ==> Writes(env, w.entries, first, o.iseg))
  {
    hide Walk, Prune, StageAll, Grow, SortById, Slots;
    if env.kinds != {} {
      WrapsEach(env, env.index(w.entries, first).value);
    }
  }

  /**
   * The index leads back, for every successful build that encodes everything. There are lists of
   * references, one for each container, such that every container is built from its list, the list
   * holds exactly the fragments of the container's channels, and the entries given to the index
   * writer are exactly those that name a container, the identifier of a reference it lists, and a key of
   * that reference's fragment.
   */
  lemma IndexLeadsBack(env: Env, ctx: Ctx, doc: Doc, srcGen: nat, sels: Selection)
    returns (b: seq<nat>, lists: seq<seq<FragRef>>, entries: multiset<IndexEntry>)
    requires Build(env, ctx, doc, srcGen, sels, false).ok
    ensures Plan(env, doc, sels) == Some(b) && |b| >= 2 && |lists| == |b| - 1
    ensures var o := Build(env, ctx, doc, srcGen, sels, false).ctx.out;
            && Indexed(env, doc, sels, b, o.seg, entries, lists) && o.nfuu == Total(lists)
            && (env.kinds != {} ==> Writes(env, entries, |b|, o.iseg))
    ensures Live(env, ctx, doc, srcGen) && DistinctKeys(doc, sels, b) ==> AllDiffer(lists)
  {
    hide Indexed, Writes, Groups, Finish, BoundsOk, Plan, PerChannel, DistinctKeys, TableOk, MadeOk, MainOk, ByChannel,
         NothingEmitted, AllDiffer;
    b := Plan(env, doc, sels).value;
    BoundsLength(b, |sels|);
    var w0 := Begin(ctx, sels, b, srcGen);
    if Live(env, ctx, doc, srcGen) && DistinctKeys(doc, sels, b) {
      BeginOk(ctx, sels, b, srcGen);
      if PerChannel(b, |sels|) { PlanByChannel(env, doc, sels); }
      assert Apart(doc, sels, b, w0);
    }
    lists := GroupsList(env, w0, ctx.out, doc, sels, b, |b| - 1);
    var w := Groups(env, w0, ctx.out, doc, sels, b, false, |b| - 1).work;
    FinishWrites(env, w, ctx.out, doc, |b|, false);
    entries := w.entries;
  }

  /** So does the index of a build that reuses channels the table holds as published. */
  lemma ReusedIndexLeadsBack(env: Env, ctx: Ctx, doc: Doc, srcGen: nat, sels: Selection)
    returns (b: seq<nat>, lists: seq<seq<FragRef>>, entries: multiset<IndexEntry>)
    requires Live(env, ctx, doc, srcGen) && Distinct(env, doc, sels) && ReuseKept(env, ctx, doc, srcGen, sels)
    requires Build(env, ctx, doc, srcGen, sels, true).ok
    ensures Plan(env, doc, sels) == Some(b) && |b| >= 2 && |lists| == |b| - 1
    ensures var o := Build(env, ctx, doc, srcGen, sels, true).ctx.out;
            && Indexed(env, doc, sels, b, o.seg, entries, lists) && o.nfuu == Total(lists)
            && (env.kinds != {} ==> Writes(env, entries, |b|, o.iseg))
    ensures PerChannel(b, |sels|) ==> AllDiffer(lists)
  {
    hide Indexed, Writes, Build, BoundsOk, Plan, PerChannel, DistinctKeys, Live, ReuseKept, AllDiffer;
    BuildEqual(env, ctx, doc, srcGen, sels);
    b, lists, entries := IndexLeadsBack(env, ctx, doc, srcGen, sels);
  }

  // ----- What a list of fragments holds -----

  lemma {:induction false} ProgramRefsAre(doc: Doc, from: nat, sels: Selection, r: Ref)
    ensures r in ProgramRefs(doc, from, sels)
       <==> r.Program? && exists c :: 0 <= c < |sels| && Announced(doc, from + c) && r.index in sels[c]
    decreases |sels|
  {
    if sels != [] {
      ProgramRefsAre(doc, from + 1, sels[1..], r);
      ProgramsHave(sels[0], r);
      hide Announced, Programs;
      if r.Program? {
        if c :| 0 <= c < |sels| && Announced(doc, from + c) && r.index in sels[c] {
          assert c > 0 ==> sels[1..][c - 1] == sels[c] && Announced(doc, from + 1 + (c - 1));
        }
        if c :| 0 <= c < |sels[1..]| && Announced(doc, from + 1 + c) && r.index in sels[1..][c] {
          assert sels[c + 1] == sels[1..][c] && Announced(doc, from + (c + 1));
        }
      }
    }
  }

  lemma ProgramsHave(sel: seq<nat>, r: Ref)
    ensures r in Programs(sel) <==> r.Program? && r.index in sel
  {
    if r.Program? && r.index in sel {
      var i :| 0 <= i < |sel| && sel[i] == r.index;
      assert Programs(sel)[i] == r;
    }
  }

  lemma {:induction false} ScheduleRefsAre(doc: Doc, from: nat, sels: Selection, r: Ref)
    ensures r in ScheduleRefs(doc, from, sels)
       <==> && r.Schedule? && from <= r.channel < from + |sels| && Announced(doc, r.channel)
            && sels[r.channel - from] != [] && r.sel == sels[r.channel - from]
    decreases |sels|
  {
    if sels != [] {
      ScheduleRefsAre(doc, from + 1, sels[1..], r);
    }
  }

  lemma {:induction false} ServiceRefsAre(doc: Doc, from: nat, sels: Selection, r: Ref)
    ensures r in ServiceRefs(doc, from, sels)
       <==> r.Service? && from <= r.channel < from + |sels| && Announced(doc, r.channel)
    decreases |sels|
  {
    if sels != [] {
      ServiceRefsAre(doc, from + 1, sels[1..], r);
    }
  }

  /**
   * The fragments of a container: the selected programmes of its announced channels, a schedule for
   * each of them that has any, and a service for each.
   */
  lemma RefsAreOfChannels(doc: Doc, from: nat, sels: Selection, r: Ref)
    ensures r in Refs(doc, from, sels)
       <==> match r
            case Program(j) => exists c :: 0 <= c < |sels| && Announced(doc, from + c) && j in sels[c]
            case Schedule(c, sel) =>
              from <= c < from + |sels| && Announced(doc, c) && sel != [] && sel == sels[c - from]
            case Service(c) => from <= c < from + |sels| && Announced(doc, c)
            case Main => false
  {
    ProgramRefsAre(doc, from, sels, r);
    ScheduleRefsAre(doc, from, sels, r);
    ServiceRefsAre(doc, from, sels, r);
    hide ProgramRefs, ScheduleRefs, ServiceRefs, Announced;
  }

  lemma {:induction false} ContainerOf(b: seq<nat>, n: nat, c: nat, k: nat) returns (g: nat)
    requires BoundsOk(b, n) && 0 < k < |b| && c < b[k]
    ensures g + 1 < |b| && b[g] <= c < b[g + 1] <= n
  {
    if b[k - 1] <= c {
      g := k - 1;
      BoundsAt(b, n, g);
    } else {
      g := ContainerOf(b, n, c, k - 1);
    }
  }

  /** A fragment of a channel is listed by the container the channel is in. */
  lemma FragmentListed(env: Env, doc: Doc, sels: Selection, b: seq<nat>, segs: seq<Bytes>,
                       entries: multiset<IndexEntry>, lists: seq<seq<FragRef>>, c: nat, r: Ref)
    returns (g: nat, i: nat)
    requires BoundsOk(b, |sels|) && Indexed(env, doc, sels, b, segs, entries, lists) && |lists| == |b| - 1
    requires c < |sels| && r in Refs(doc, c, [sels[c]])
    ensures g < |lists| && b[g] <= c < b[g + 1] && i < |lists[g]| && lists[g][i].ref == r
  {
    hide Refs, PointsTo, Encode, Located, SlotsAre, Announced;
    assert b[|b| - 1] == |sels|;
    g := ContainerOf(b, |sels|, c, |b| - 1);
    var from, part := b[g], sels[b[g]..b[g + 1]];
    assert part[c - from] == sels[c];
    RefsAreOfChannels(doc, c, [sels[c]], r);
    RefsAreOfChannels(doc, from, part, r);
    if r.Program? { assert Announced(doc, from + (c - from)) && r.index in part[c - from]; }
    assert BuiltFrom(env, doc, from, part, segs[g], lists[g]);
    assert r in multiset(Refs(doc, from, part));
    assert r in RefsOf(lists[g]);
    i :| 0 <= i < |lists[g]| && RefsOf(lists[g])[i] == r;
  }

  /**
   * Every selected programme of an announced channel is found in the index by its CRID and by its
   * title, and its channel's schedule by its last end and by every title it shows.
   */
  lemma EverythingIsFound(env: Env, doc: Doc, sels: Selection, b: seq<nat>, segs: seq<Bytes>,
                          entries: multiset<IndexEntry>, lists: seq<seq<FragRef>>, c: nat, p: nat)
    returns (g: nat, i: nat, h: nat)
    requires BoundsOk(b, |sels|) && Indexed(env, doc, sels, b, segs, entries, lists) && |lists| == |b| - 1
    requires c < |sels| && Announced(doc, c) && p < |sels[c]|
    ensures g < |lists| && i < |lists[g]| && h < |lists[g]|
    ensures var j := sels[c][p]; var prog, sched := lists[g][i], lists[g][h]; var title := Title(doc, j);
            && prog.ref == Program(j) && sched.ref == Schedule(c, sels[c])
            && (ByCrid in env.kinds ==> IndexEntry(ByCrid, Crid(doc, j), None, g + 1, prog.id) in entries)
            && (ByTitle in env.kinds && title.Some? ==>
                  IndexEntry(ByTitle, title.value, None, g + 1, prog.id) in entries)
            && (ByTime in env.kinds && env.scheduleEnd(doc, sels[c]).Some? ==>
                  IndexEntry(ByTime, env.scheduleEnd(doc, sels[c]).value, Some(Id(doc, c)), g + 1, sched.id) in entries)
            && (ByShowing in env.kinds && title.Some? ==>
                  IndexEntry(ByShowing, title.value, None, g + 1, sched.id) in entries)
  {
    hide Refs, BuiltFrom, BoundsOk;
    var j := sels[c][p];
    RefsAreOfChannels(doc, c, [sels[c]], Program(j));
    RefsAreOfChannels(doc, c, [sels[c]], Schedule(c, sels[c]));
    var one: Selection := [sels[c]];
    assert Announced(doc, c + 0) && j in one[0];
    g, i := FragmentListed(env, doc, sels, b, segs, entries, lists, c, Program(j));
    var g2;
    g2, h := FragmentListed(env, doc, sels, b, segs, entries, lists, c, Schedule(c, sels[c]));
    OneContainerOf(b, |sels|, c, g, g2);
    var prog, sched := lists[g][i], lists[g][h];
    var e1 := IndexEntry(ByCrid, Crid(doc, j), None, g + 1, prog.id);
    assert ByCrid in env.kinds ==> PointsTo(env, doc, e1, g + 1, lists[g][i]);
    if Title(doc, j).Some? {
      var e2 := IndexEntry(ByTitle, Title(doc, j).value, None, g + 1, prog.id);
      assert ByTitle in env.kinds ==> PointsTo(env, doc, e2, g + 1, lists[g][i]);
      var e4 := IndexEntry(ByShowing, Title(doc, j).value, None, g + 1, sched.id);
      assert ByShowing in env.kinds ==> PointsTo(env, doc, e4, g + 1, lists[g][h]);
    }
    if env.scheduleEnd(doc, sels[c]).Some? {
      var e3 := IndexEntry(ByTime, env.scheduleEnd(doc, sels[c]).value, Some(Id(doc, c)), g + 1, sched.id);
      assert ByTime in env.kinds ==> PointsTo(env, doc, e3, g + 1, lists[g][h]);
    }
  }

  lemma OneContainerOf(b: seq<nat>, n: nat, c: nat, g: nat, h: nat)
    requires BoundsOk(b, n) && g + 1 < |b| && h + 1 < |b| && b[g] <= c < b[g + 1] && b[h] <= c < b[h + 1]
    ensures g == h
  {
  }
}
