/**
 * The announcer as an object: fragment array, collected index entries and published output
 * updated step by step (src/dipibcg/announce/run.c, doc.c), proved to compute `Guide.Build`.
 */
module GuideBuilder {
  import opened Wrappers
  import opened Fragments
  import opened Guide
  import opened GuideBuilds

  class Announcer {
    const env: Env
    const frags: FragmentList
    var out: Out
    var entries: seq<IndexEntry>

    ghost predicate Valid()
      reads this, frags
    {
      frags.Valid()
    }

    ghost function Abs(): Ctx
      reads this, frags
    {
      Ctx(frags.Abs(), out)
    }

    /** The build under way, `st` being its staged output. */
    ghost function Under(st: Out): Work
      reads this, frags
    {
      Work(frags.Abs(), multiset(entries), st)
    }

    constructor (env: Env)
      ensures Valid() && fresh(frags) && this.env == env
      ensures Abs() == Ctx(Table(map[], 0, 0), Out([], [], [], [], None, Unset, 0, None, 0))
    {
      this.env := env;
      frags := new FragmentList();
      out := Out([], [], [], [], None, Unset, 0, None, 0);
      entries := [];
    }

    /** `frag_assign_keys`, and without an encoding `frag_touch_keys`. */
    method WalkKeys(doc: Doc, refs: seq<Ref>, unit: Option<Unit>) returns (ok: bool, res: seq<FragRef>)
      requires Valid() && (unit.Some? ==> UnitOk(unit.value, |refs|))
      modifies frags
      ensures Valid()
      ensures frags.Abs() == Walk(old(frags.Abs()), doc, refs, unit, |refs|).table
      ensures ok == Walk(old(frags.Abs()), doc, refs, unit, |refs|).ok
      ensures ok ==> res == Walk(old(frags.Abs()), doc, refs, unit, |refs|).refs
    {
      hide *;
      ghost var t := frags.Abs();
      WalkStarts(t, doc, refs, unit);
      res := [];
      var i := 0;
      while i < |refs|
        invariant 0 <= i <= |refs|
        invariant Valid()
        invariant Walk(t, doc, refs, unit, i) == Walked(frags.Abs(), true, res)
      {
        WalkNext(t, doc, refs, unit, i);
        var piece, off := None, Offset(0, 0);
        if unit.Some? {
          UnitLength(unit.value, |refs|);
          piece, off := Some(Piece(unit.value, i)), unit.value.offs[i];
        }
        var got, e := OneKey(Base(doc, refs[i]), piece);
        if !got {
          WalkStops(t, doc, refs, unit, i + 1, |refs|);
          return false, [];
        }
        res := res + [FragRef(refs[i], off, e.frag.id, e.frag.ver.number)];
        i := i + 1;
      }
      return true, res;
    }

    /** One fragment: its entry found or made, its content recorded when there is one. */
    method OneKey(base: string, piece: Option<Bytes>) returns (ok: bool, e: Entry)
      requires Valid()
      modifies frags
      ensures Valid() && ok == Mark(old(frags.Abs()), base).key.Some?
      ensures !ok ==> frags.Abs() == Mark(old(frags.Abs()), base).table
      ensures ok ==>
              Some(e.key) == Mark(old(frags.Abs()), base).key && e.key in Mark(old(frags.Abs()), base).table.frags
      ensures ok ==>
              frags.Abs() == if piece.Some? then Record(Mark(old(frags.Abs()), base).table, e.key, piece.value)
              else Mark(old(frags.Abs()), base).table
      ensures ok ==> e.key in frags.Abs().frags && frags.Abs().frags[e.key] == e.frag
    {
      hide Mark, Sorted, Holds, Record;
      var pos, got := frags.Get(base);
      if !got {
        return false, Entry("", Frag(0, 0, Unset));
      }
      HeldAt(frags.list, frags.frags, pos);
      if piece.Some? {
        frags.SetContent(pos, piece.value);
        HeldAt(frags.list, frags.frags, pos);
      }
      return true, frags.list[pos];
    }

    /** `index_collect`. */
    method Collect(doc: Doc, refs: seq<FragRef>, container: nat)
      requires Valid()
      modifies this`entries
      ensures multiset(entries) == multiset(old(entries)) + Entries(env, doc, refs, container)
    {
      var i := 0;
      assert refs[0..] == refs;
      while i < |refs|
        invariant 0 <= i <= |refs|
        invariant multiset(entries) + Entries(env, doc, refs[i..], container)
                  == multiset(old(entries)) + Entries(env, doc, refs, container)
      {
        assert refs[i..][0] == refs[i] && refs[i..][1..] == refs[i + 1..];
        var es := EntriesOf(doc, refs[i].ref, container, refs[i].id);
        entries := entries + es;
        i := i + 1;
      }
    }

    /** The entries of one fragment. */
    method EntriesOf(doc: Doc, r: Ref, container: nat, id: nat) returns (es: seq<IndexEntry>)
      ensures es == EntryList(env, doc, r, container, id)
    {
      hide Titles, Crid, Title, Id;
      es := [];
      if r.Program? {
        if ByCrid in env.kinds {
          es := es + [IndexEntry(ByCrid, Crid(doc, r.index), None, container, id)];
        }
        if ByTitle in env.kinds && Title(doc, r.index).Some? {
          es := es + [IndexEntry(ByTitle, Title(doc, r.index).value, None, container, id)];
        }
      } else if r.Schedule? {
        var end := env.scheduleEnd(doc, r.sel);
        if ByTime in env.kinds && end.Some? {
          es := es + [IndexEntry(ByTime, end.value, Some(Id(doc, r.channel)), container, id)];
        }
        if ByShowing in env.kinds {
          var shown := TitlesOf(doc, r.sel, container, id);
          es := es + shown;
        }
      }
    }

    method TitlesOf(doc: Doc, sel: seq<nat>, container: nat, id: nat) returns (es: seq<IndexEntry>)
      ensures es == Titles(doc, sel, container, id)
    {
      es := [];
      var p := 0;
      assert sel[0..] == sel;
      while p < |sel|
        invariant 0 <= p <= |sel|
        invariant es + Titles(doc, sel[p..], container, id) == Titles(doc, sel, container, id)
      {
        assert sel[p..][0] == sel[p] && sel[p..][1..] == sel[p + 1..];
        if Title(doc, sel[p]).Some? {
          es := es + [IndexEntry(ByShowing, Title(doc, sel[p]).value, None, container, id)];
        }
        p := p + 1;
      }
    }

    /** `group_xmltv`. */
    method XmltvGroup(st: Out, doc: Doc, g: nat, from: nat, sels: Selection) returns (ok: bool, st': Out)
      requires Valid() && g < |st.vers|
      modifies this`entries, frags
      ensures Valid() && ok == EncodeGroup(env, old(Under(st)), doc, g, from, sels).ok
      ensures Under(st') == EncodeGroup(env, old(Under(st)), doc, g, from, sels).work
    {
      hide Walk, Encode, Entries, UnitOk, SortById, Slots, Refs;
      st' := st;
      var u := Encode(env, doc, from, sels);
      if u.None? || |u.value.au| > 0xFFFF || |u.value.strs| > 0xFFFF {
        return false, st';
      }
      var refs := Refs(doc, from, sels);
      var found, res := WalkKeys(doc, refs, u);
      if !found {
        return false, st';
      }
      var sorted := SortById(res);
      Collect(doc, sorted, g + 1);
      var cont := env.container(u.value.au, u.value.strs, Slots(sorted));
      if cont.None? {
        return false, st';
      }
      st' := st'.(vers := st'.vers[g := SetVersion(st'.vers[g], cont.value, 256)]);
      var seg := env.wrap(cont.value);
      if seg.None? {
        return false, st';
      }
      st' := st'.(seg := st'.seg + [seg.value], nfuu := st'.nfuu + |refs|);
      return true, st';
    }

    /** `group_reuse`. */
    method ReusedGroup(st: Out, doc: Doc, g: nat, sel: seq<nat>) returns (ok: bool, st': Out)
      requires Valid() && g < |st.vers| && g < |out.seg|
      modifies this`entries, frags
      ensures Valid() && ok == ReuseGroup(env, old(Under(st)), out, doc, g, sel).ok
      ensures Under(st') == ReuseGroup(env, old(Under(st)), out, doc, g, sel).work
    {
      hide Walk, Entries, ChannelRefs;
      st' := st;
      var refs := ChannelRefs(doc, g, sel);
      var found, res := WalkKeys(doc, refs, None);
      if !found {
        return false, st';
      }
      Collect(doc, res, g + 1);
      st' := st'.(seg := st'.seg + [out.seg[g]], nfuu := st'.nfuu + |refs|);
      return true, st';
    }

    /** `build_tva_main`. */
    method OperatorGroup(st: Out, doc: Doc) returns (ok: bool, st': Out)
      requires Valid()
      modifies frags
      ensures Valid() && ok == MainGroup(env, old(Under(st)), out, doc, true).ok
      ensures Under(st') == MainGroup(env, old(Under(st)), out, doc, true).work
    {
      hide Walk, SortById, Slots, UnitOk;
      st' := st;
      if !env.publisher {
        return true, st';
      }
      if out.mainSeg.Some? {
        var found, res := WalkKeys(doc, [Main], None);
        if found {
          st' := st'.(mainSeg := out.mainSeg);
        }
        return found, st';
      }
      if env.encodeMain.None? || !UnitOk(env.encodeMain.value, 1) {
        return false, st';
      }
      var u := env.encodeMain.value;
      var found, res := WalkKeys(doc, [Main], Some(u));
      if !found {
        return false, st';
      }
      var cont := env.container(u.au, u.strs, Slots(SortById(res)));
      if cont.None? {
        return false, st';
      }
      st' := st'.(mainVer := SetVersion(st'.mainVer, cont.value, 256));
      var seg := env.wrap(cont.value);
      if seg.None? {
        return false, st';
      }
      st' := st'.(mainSeg := Some(seg.value));
      return true, st';
    }

    /** `announce_build`, with the shortcut for unchanged channels. */
    method AnnounceBuild(doc: Doc, srcGen: nat, sels: Selection) returns (ok: bool)
      requires Valid()
      modifies this, frags
      ensures Valid()
      ensures Built(Abs(), ok) == Build(env, old(Abs()), doc, srcGen, sels, true)
    {
      hide Groups, Plan, BoundsOk, MainGroup, IndexGroup, Group, PerChannel, Prune;
      ghost var ctx := Abs();
      var plan := Plan(env, doc, sels);
      if plan.None? {
        return false;
      }
      var b := plan.value;
      assert |b| >= 2 by { BoundsLength(b, |sels|); }
      var st := Stage(out, |b| - 1, if PerChannel(b, |sels|) then Some(sels) else None, srcGen);
      frags.gen := frags.gen + 1;
      entries := [];
      ghost var w0 := Begin(ctx, sels, b, srcGen);
      assert Under(st) == w0;
      ok, st := AllGroups(st, doc, sels, b);
      if !ok {
        return false;
      }
      ok, st := OperatorGroup(st, doc);
      if !ok {
        return false;
      }
      ghost var t := frags.Abs();
      frags.PruneAll();
      ok, st := IndexSegments(st, |b|, t);
      if !ok {
        return false;
      }
      out := st;
      return true;
    }

    /** `index_build`: versions by position, every container wrapped. */
    method IndexSegments(st: Out, first: nat, ghost t: Table) returns (ok: bool, st': Out)
      requires Valid()
      ensures ok == IndexGroup(env, Work(t, multiset(entries), st), first).ok
      ensures ok ==> st' == IndexGroup(env, Work(t, multiset(entries), st), first).work.out
    {
      st' := st;
      if env.kinds == {} {
        return true, st';
      }
      var made := env.index(multiset(entries), first);
      if made.None? {
        return false, st';
      }
      var conts := made.value;
      var vers := Grow(st.ivers, |conts|);
      ghost var start := vers;
      var segs: seq<Bytes> := [];
      var i := 0;
      while i < |conts|
        invariant 0 <= i <= |conts| && |vers| == |start|
        invariant forall j :: 0 <= j < |vers| ==>
                  vers[j] == if j < i then SetVersion(start[j], conts[j], 256) else start[j]
        invariant WrapAll(env, conts[..i]) == Some(segs)
      {
        assert conts[..i + 1][..i] == conts[..i];
        vers := vers[i := SetVersion(vers[i], conts[i], 256)];
        var seg := env.wrap(conts[i]);
        if seg.None? {
          WrapFails(env, conts, i + 1);
          return false, st';
        }
        segs := segs + [seg.value];
        i := i + 1;
      }
      assert conts[..i] == conts;
      assert vers == StageAll(start, conts);
      st' := st.(ivers := vers, iseg := segs);
      return true, st';
    }

    /** The loop over containers. */
    method AllGroups(st: Out, doc: Doc, sels: Selection, b: seq<nat>) returns (ok: bool, st': Out)
      requires Valid() && BoundsOk(b, |sels|) && |b| - 1 <= |st.vers|
      modifies this`entries, frags
      ensures Valid()
      ensures Step(Under(st'), ok) == Groups(env, old(Under(st)), out, doc, sels, b, true, |b| - 1)
    {
      hide EncodeGroup, ReuseGroup, Same, PerChannel, Groups, BoundsOk;
      assert |b| >= 2 by { BoundsLength(b, |sels|); }
      GroupsUnfold(env, Under(st), out, doc, sels, b, true, 0);
      ghost var w0 := Under(st);
      st' := st;
      var g := 0;
      while g < |b| - 1
        invariant 0 <= g <= |b| - 1 && Valid() && |st'.vers| == |st.vers|
        invariant Groups(env, w0, out, doc, sels, b, true, g) == Step(Under(st'), true)
      {
        ghost var w := Under(st');
        BoundsAt(b, |sels|, g);
        GroupsUnfold(env, w0, out, doc, sels, b, true, g + 1);
        if PerChannel(b, |sels|) && Same(out, st', g) && g < |sels| {
          assert g < |out.seg| by { SameLength(out, st', g); }
          ok, st' := ReusedGroup(st', doc, g, sels[g]);
        } else {
          ok, st' := XmltvGroup(st', doc, g, b[g], sels[b[g]..b[g + 1]]);
        }
        assert Group(env, w, out, doc, sels, b, true, g) == Step(Under(st'), ok);
        if !ok {
          GroupsStop(env, w0, out, doc, sels, b, g + 1, |b| - 1);
          return false, st';
        }
        g := g + 1;
      }
      return true, st';
    }
  }

  lemma WalkStarts(t: Table, doc: Doc, refs: seq<Ref>, unit: Option<Unit>)
    requires unit.Some? ==> UnitOk(unit.value, |refs|)
    ensures Walk(t, doc, refs, unit, 0) == Walked(t, true, [])
  {
  }

  /** One fragment of a walk. */
  lemma WalkNext(t: Table, doc: Doc, refs: seq<Ref>, unit: Option<Unit>, i: nat)
    requires i < |refs| && (unit.Some? ==> UnitOk(unit.value, |refs|)) && Walk(t, doc, refs, unit, i).ok
    ensures var w := Walk(t, doc, refs, unit, i);
            var m := Mark(w.table, Base(doc, refs[i]));
            && (m.key.None? ==> m.table == w.table && Walk(t, doc, refs, unit, i + 1) == Walked(w.table, false, w.refs))
            && (m.key.Some? ==>
                  && m.key.value in m.table.frags
                  && (unit.Some? ==> UnitOk(unit.value, |unit.value.offs|) && |unit.value.offs| == |refs|)
                  && var t2 := if unit.Some? then Record(m.table, m.key.value, Piece(unit.value, i)) else m.table;
                     var off := if unit.Some? then unit.value.offs[i] else Offset(0, 0);
                     && m.key.value in t2.frags
                     && Walk(t, doc, refs, unit, i + 1)
                        == Walked(t2, true,
                                  w.refs + [FragRef(refs[i], off, t2.frags[m.key.value].id,
                                                    t2.frags[m.key.value].ver.number)]))
  {
    hide Piece, Base, FreeKey;
  }

  lemma UnitLength(u: Unit, n: nat)
    requires UnitOk(u, n)
    ensures |u.offs| == n
  {
  }

  lemma SameLength(prev: Out, st: Out, g: nat)
    requires Same(prev, st, g)
    ensures g < |prev.seg|
  {
  }

  lemma {:induction false} WrapFails(env: Env, conts: seq<Bytes>, k: nat)
    requires k <= |conts| && WrapAll(env, conts[..k]).None?
    ensures WrapAll(env, conts).None?
    decreases |conts| - k
  {
    if k < |conts| {
      assert conts[..k + 1][..k] == conts[..k];
      WrapFails(env, conts, k + 1);
    } else {
      assert conts[..k] == conts;
    }
  }

  /** A failure ends the walk. */
  lemma {:induction false} WalkStops(t: Table, doc: Doc, refs: seq<Ref>, unit: Option<Unit>, k: nat, n: nat)
    requires k <= n <= |refs| && (unit.Some? ==> UnitOk(unit.value, |refs|))
    requires !Walk(t, doc, refs, unit, k).ok
    ensures Walk(t, doc, refs, unit, n) == Walk(t, doc, refs, unit, k)
  {
    if k < n {
      hide Mark, Record, Piece, Base, UnitOk;
      WalkStops(t, doc, refs, unit, k, n - 1);
    }
  }

  lemma {:induction false} GroupsStop(env: Env, w: Work, prev: Out, doc: Doc, sels: Selection, b: seq<nat>, k: nat,
                                      n: nat)
    requires BoundsOk(b, |sels|) && k <= n < |b| && |b| - 1 <= |w.out.vers|
    requires !Groups(env, w, prev, doc, sels, b, true, k).ok
    ensures Groups(env, w, prev, doc, sels, b, true, n) == Groups(env, w, prev, doc, sels, b, true, k)
  {
    hide *;
    if k < n {
      GroupsStop(env, w, prev, doc, sels, b, k, n - 1);
      GroupsUnfold(env, w, prev, doc, sels, b, true, n);
    }
  }
}
