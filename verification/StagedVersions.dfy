/**
 * Who owns the saved contents of published containers (src/dipibcg/announce/segment.c, doc.c).
 *
 * A build works on a copy of the published version records. The copy shares the saved content
 * buffers until a container's content changes; then the staged record gets a buffer of its own
 * and the published record keeps the old one. Publishing frees what was replaced, giving up
 * frees what was staged. `Free` demands a live buffer, so freeing twice does not verify, and
 * between builds the live buffers are exactly the published ones, so nothing leaks.
 */
module StagedVersions {
  import opened Wrappers
  import F = Fragments

  type Bytes = F.Bytes
  type Pointer = Option<nat>

  datatype Rec = Rec(number: nat, unsent: bool, last: Pointer)

  const Zeroed := Rec(0, false, None)

  /** Version records of an output: containers, index containers, operator, initialisation. */
  datatype Outs = Outs(vers: seq<Rec>, ivers: seq<Rec>, main: Rec, init: Rec)

  datatype Array = Segments | Indexes | TvaMain | TvaInit

  datatype Place = Place(a: Array, i: nat)

  function List(o: Outs, a: Array): seq<Rec> {
    match a
    case Segments => o.vers
    case Indexes => o.ivers
    case TvaMain => [o.main]
    case TvaInit => [o.init]
  }

  /** A record past the end of its array is as good as a zeroed one. */
  function At(o: Outs, p: Place): Rec {
    if p.i < |List(o, p.a)| then List(o, p.a)[p.i] else Zeroed
  }

  ghost function ListPtrs(l: seq<Rec>): set<nat> {
    set i | 0 <= i < |l| && l[i].last.Some? :: l[i].last.value
  }

  ghost function Ptrs(o: Outs): set<nat> {
    ListPtrs(o.vers) + ListPtrs(o.ivers) + ListPtrs([o.main]) + ListPtrs([o.init])
  }

  lemma PtrsAt(o: Outs, x: nat)
    ensures x in Ptrs(o) <==> exists p :: At(o, p).last == Some(x)
  {
    if x in Ptrs(o) {
      var a := if x in ListPtrs(o.vers) then Segments else if x in ListPtrs(o.ivers) then Indexes
               else if x in ListPtrs([o.main]) then TvaMain else TvaInit;
      assert x in ListPtrs(List(o, a));
      var i :| 0 <= i < |List(o, a)| && List(o, a)[i].last == Some(x);
      assert At(o, Place(a, i)).last == Some(x);
    }
    if p :| At(o, p).last == Some(x) {
      assert x in ListPtrs(List(o, p.a));
    }
  }

  ghost predicate OwnedOnce(o: Outs) {
    forall p, q :: At(o, p).last.Some? && At(o, p).last == At(o, q).last ==> p == q
  }

  /** A staged record shares the published buffer of its own place, or has one of its own. */
  ghost predicate Shares(base: Outs, st: Outs) {
    forall p, q :: At(st, p).last.Some? && At(st, p).last == At(base, q).last ==> p == q
  }

  lemma SameAts(st: Outs, st': Outs)
    requires forall p :: At(st', p) == At(st, p)
    ensures Ptrs(st') == Ptrs(st)
    ensures OwnedOnce(st) ==> OwnedOnce(st')
    ensures forall b :: Shares(b, st) ==> Shares(b, st')
  {
    forall x ensures x in Ptrs(st') <==> x in Ptrs(st) {
      PtrsAt(st, x);
      PtrsAt(st', x);
    }
  }

  function Set(o: Outs, p: Place, r: Rec): (o': Outs)
    requires p.i < |List(o, p.a)|
    ensures |o'.vers| == |o.vers| && |o'.ivers| == |o.ivers|
  {
    match p.a
    case Segments => o.(vers := o.vers[p.i := r])
    case Indexes => o.(ivers := o.ivers[p.i := r])
    case TvaMain => o.(main := r)
    case TvaInit => o.(init := r)
  }

  lemma SetAt(o: Outs, p: Place, r: Rec)
    requires p.i < |List(o, p.a)|
    ensures At(Set(o, p, r), p) == r
    ensures forall q :: q != p ==> At(Set(o, p, r), q) == At(o, q)
  {
  }

  /** A staged record gets a buffer that nobody had. */
  lemma NewPointer(base: Outs, st: Outs, st': Outs, p: Place, x: nat)
    requires OwnedOnce(st) && Shares(base, st) && x !in Ptrs(st) && x !in Ptrs(base)
    requires OwnedOnce(base) && At(st, p).last == At(base, p).last
    requires At(st', p).last == Some(x) && forall q :: q != p ==> At(st', q) == At(st, q)
    ensures OwnedOnce(st') && Shares(base, st')
    ensures Ptrs(base) + Ptrs(st') == Ptrs(base) + Ptrs(st) + {x}
  {
    forall q ensures At(st, q).last != Some(x) && At(base, q).last != Some(x) {
      PtrsAt(st, x);
      PtrsAt(base, x);
    }
    forall y ensures y in Ptrs(base) + Ptrs(st') <==> y in Ptrs(base) + Ptrs(st) + {x} {
      PtrsAt(base, y);
      PtrsAt(st, y);
      PtrsAt(st', y);
      hide Ptrs, At;
      if y in Ptrs(st) {
        var q :| At(st, q).last == Some(y);
        if q == p {
          assert At(base, p).last == Some(y);
        } else {
          assert At(st', q).last == Some(y);
        }
      }
      if y in Ptrs(st') {
        var q :| At(st', q).last == Some(y);
        assert q != p ==> At(st, q).last == Some(y);
      }
      assert At(st', p).last == Some(x);
    }
  }

  lemma SharesBack(base: Outs, st: Outs)
    requires Shares(base, st)
    ensures Shares(st, base)
  {
  }

  // ----- What dropping an output frees -----

  ghost function Dropped(v: seq<Rec>, keep: seq<Rec>, n: nat): set<nat>
    requires n <= |v|
  {
    set i | 0 <= i < n && v[i].last.Some? && !(i < |keep| && keep[i].last == v[i].last) :: v[i].last.value
  }

  ghost function DroppedOf(o: Outs, keep: Outs, a: Array): set<nat> {
    Dropped(List(o, a), List(keep, a), |List(o, a)|)
  }

  lemma DroppedAt(o: Outs, keep: Outs, a: Array, x: nat)
    ensures x in DroppedOf(o, keep, a)
            <==> exists i: nat :: At(o, Place(a, i)).last == Some(x) && At(keep, Place(a, i)).last != Some(x)
  {
    if x in DroppedOf(o, keep, a) {
      var i: nat :| i < |List(o, a)| && List(o, a)[i].last == Some(x)
        && !(i < |List(keep, a)| && List(keep, a)[i].last == List(o, a)[i].last);
      assert At(o, Place(a, i)).last == Some(x) && At(keep, Place(a, i)).last != Some(x);
    }
    if i: nat :| At(o, Place(a, i)).last == Some(x) && At(keep, Place(a, i)).last != Some(x) {
      assert List(o, a)[i].last == Some(x);
    }
  }

  lemma DroppedAll(o: Outs, keep: Outs)
    requires OwnedOnce(o) && Shares(keep, o)
    ensures DroppedOf(o, keep, Segments) + DroppedOf(o, keep, Indexes) + DroppedOf(o, keep, TvaMain)
            + DroppedOf(o, keep, TvaInit)
         == Ptrs(o) - Ptrs(keep)
  {
    forall x ensures x in Ptrs(o) - Ptrs(keep) <==> exists a :: x in DroppedOf(o, keep, a) {
      PtrsAt(o, x);
      PtrsAt(keep, x);
      forall a {
        DroppedAt(o, keep, a, x);
      }
      hide Ptrs, At, DroppedOf;
      if x in Ptrs(o) - Ptrs(keep) {
        var p :| At(o, p).last == Some(x);
        assert p == Place(p.a, p.i);
        assert x in DroppedOf(o, keep, p.a);
      }
      if a :| x in DroppedOf(o, keep, a) {
        var i: nat :| At(o, Place(a, i)).last == Some(x) && At(keep, Place(a, i)).last != Some(x);
        assert x in Ptrs(o);
        assert forall q :: At(keep, q).last == Some(x) ==> q == Place(a, i);
      }
    }
    AllArrays(o, keep);
  }

  lemma AllArrays(o: Outs, keep: Outs)
    ensures forall x ::
              (exists a :: x in DroppedOf(o, keep, a))
              <==> x in (DroppedOf(o, keep, Segments) + DroppedOf(o, keep, Indexes)
                         + DroppedOf(o, keep, TvaMain) + DroppedOf(o, keep, TvaInit))
  {
    hide DroppedOf;
    forall x, a | x in DroppedOf(o, keep, a)
      ensures x in DroppedOf(o, keep, Segments) + DroppedOf(o, keep, Indexes) + DroppedOf(o, keep, TvaMain)
              + DroppedOf(o, keep, TvaInit)
    {
      assert a == Segments || a == Indexes || a == TvaMain || a == TvaInit;
    }
  }

  lemma DroppedApart(o: Outs, keep: Outs)
    requires OwnedOnce(o)
    ensures forall a, b :: a != b ==> DroppedOf(o, keep, a) !! DroppedOf(o, keep, b)
  {
    forall a, b, x | a != b && x in DroppedOf(o, keep, a) ensures x !in DroppedOf(o, keep, b) {
      DroppedAt(o, keep, a, x);
      DroppedAt(o, keep, b, x);
      hide At, DroppedOf;
      var i: nat :| At(o, Place(a, i)).last == Some(x) && At(keep, Place(a, i)).last != Some(x);
    }
  }

  ghost predicate Once(v: seq<Rec>) {
    forall i, j :: 0 <= i < j < |v| && v[i].last.Some? ==> v[i].last != v[j].last
  }

  lemma ListOnce(o: Outs, a: Array)
    requires OwnedOnce(o)
    ensures Once(List(o, a))
  {
    var l := List(o, a);
    forall i, j | 0 <= i < j < |l| && l[i].last.Some? ensures l[i].last != l[j].last {
      assert At(o, Place(a, i)) == l[i] && At(o, Place(a, j)) == l[j];
    }
  }

  // ----- What a build changes -----

  datatype Change = Change(place: Place, content: Bytes, memory: bool)

  ghost predicate ChangesFit(changes: seq<Change>, nsegs: nat, nindexes: nat) {
    && (forall i :: 0 <= i < |changes| ==> changes[i].place.i < Room(changes[i].place.a, nsegs, nindexes))
    && (forall i, j :: 0 <= i < j < |changes| ==> changes[i].place != changes[j].place)
  }

  function Room(a: Array, nsegs: nat, nindexes: nat): nat {
    match a
    case Segments => nsegs
    case Indexes => nindexes
    case _ => 1
  }

  ghost predicate Changed(changes: seq<Change>, p: Place) {
    exists i :: 0 <= i < |changes| && changes[i].place == p
  }

  /** The version a record has after the changes of a build. */
  function Staged(v: F.Version, changes: seq<Change>, p: Place): F.Version {
    if changes == [] then v
    else
      var c := changes[|changes| - 1];
      var w := Staged(v, changes[..|changes| - 1], p);
      if c.place == p && c.memory then F.SetVersion(w, c.content, 256) else w
  }

  lemma NoChanges(changes: seq<Change>)
    ensures forall p :: !Changed(changes[..0], p)
    ensures forall v, p :: Staged(v, changes[..0], p) == v
  {
  }

  lemma ChangedNext(changes: seq<Change>, i: nat)
    requires i < |changes|
    ensures forall p :: Changed(changes[..i + 1], p) <==> Changed(changes[..i], p) || changes[i].place == p
    ensures forall v, p :: Staged(v, changes[..i + 1], p)
                           == (var w := Staged(v, changes[..i], p);
                               if changes[i].place == p && changes[i].memory
                                 then F.SetVersion(w, changes[i].content, 256) else w)
  {
    assert changes[..i + 1][..i] == changes[..i];
    assert changes[..i + 1][i] == changes[i];
    forall p | Changed(changes[..i], p) || changes[i].place == p ensures Changed(changes[..i + 1], p) {
      if Changed(changes[..i], p) {
        var j :| 0 <= j < i && changes[..i][j].place == p;
        assert changes[..i + 1][j].place == p;
      }
    }
  }

  lemma FitsAt(st: Outs, changes: seq<Change>, nsegs: nat, nindexes: nat, i: nat)
    requires ChangesFit(changes, nsegs, nindexes) && i < |changes| && nsegs <= |st.vers| && nindexes <= |st.ivers|
    ensures changes[i].place.i < |List(st, changes[i].place.a)|
    ensures !Changed(changes[..i], changes[i].place)
  {
  }

  // ----- Heap of content buffers -----

  class Publisher {
    var live: map<nat, Bytes>
    var next: nat
    var base: Outs

    /** Between builds: every live buffer has one owner, a published record. */
    ghost predicate Valid()
      reads this
    {
      OwnedOnce(base) && live.Keys == Ptrs(base) && forall x :: x in live ==> x < next
    }

    /** During a build. */
    ghost predicate Building(st: Outs)
      reads this
    {
      && OwnedOnce(base) && OwnedOnce(st) && Shares(base, st)
      && live.Keys == Ptrs(base) + Ptrs(st)
      && (forall x :: x in live ==> x < next)
    }

    /** The record with its content instead of a pointer. */
    ghost function Content(o: Outs, p: Place): F.Version
      reads this
    {
      var r := At(o, p);
      F.Version(r.number, r.unsent, if r.last.Some? && r.last.value in live then Some(live[r.last.value]) else None)
    }

    constructor ()
      ensures Valid() && base == Outs([], [], Zeroed, Zeroed) && live == map[]
    {
      live, next, base := map[], 0, Outs([], [], Zeroed, Zeroed);
    }

    method Alloc(content: Bytes) returns (x: nat)
      requires forall y :: y in live ==> y < next
      modifies this`live, this`next
      ensures x !in old(live) && live == old(live)[x := content]
      ensures forall y :: y in live ==> y < next
    {
      x := next;
      live, next := live[x := content], next + 1;
    }

    method Free(x: nat)
      requires x in live
      modifies this`live
      ensures live == old(live) - {x}
    {
      live := live - {x};
    }

    /** `out_stage`: records copied, buffers shared. */
    method OutStage() returns (st: Outs)
      requires Valid()
      ensures st == base && Building(st)
    {
      st := base;
    }

    /** `grow_zeroed` on the container versions. */
    method GrowSegments(st: Outs, n: nat) returns (st': Outs)
      requires Building(st)
      ensures Building(st') && |st'.vers| >= n && st' == st.(vers := st'.vers)
      ensures forall p :: At(st', p) == At(st, p)
    {
      st' := if n <= |st.vers| then st else st.(vers := st.vers + seq(n - |st.vers|, _ => Zeroed));
      forall p ensures At(st', p) == At(st, p) {
      }
      SameAts(st, st');
    }

    /** `grow_zeroed` on the index versions. */
    method GrowIndexes(st: Outs, n: nat) returns (st': Outs)
      requires Building(st)
      ensures Building(st') && |st'.ivers| >= n && st' == st.(ivers := st'.ivers)
      ensures forall p :: At(st', p) == At(st, p)
    {
      st' := if n <= |st.ivers| then st else st.(ivers := st.ivers + seq(n - |st.ivers|, _ => Zeroed));
      forall p ensures At(st', p) == At(st, p) {
      }
      SameAts(st, st');
    }

    /**
     * `version_stage` on a record not yet staged by this build. Without memory the version does
     * not advance.
     */
    method VersionStage(st: Outs, p: Place, content: Bytes, memory: bool) returns (st': Outs)
      requires Building(st) && p.i < |List(st, p.a)| && At(st, p).last == At(base, p).last
      modifies this`live, this`next
      ensures Building(st')
      ensures |st'.vers| == |st.vers| && |st'.ivers| == |st.ivers|
      ensures forall q :: q != p ==> At(st', q) == At(st, q) && Content(st', q) == old(Content(st, q))
      ensures forall x :: x in old(live) ==> x in live && live[x] == old(live[x])
      ensures memory ==> Content(st', p) == F.SetVersion(old(Content(st, p)), content, 256)
      ensures !memory ==> st' == st && live == old(live)
    {
      hide Ptrs;
      st' := st;
      var r := At(st, p);
      if r.last.Some? {
        PtrsAt(st, r.last.value);
        if live[r.last.value] == content {
          return;
        }
      }
      if !memory {
        return;
      }
      var x := Alloc(content);
      st' := Set(st, p, Rec((r.number + 1) % 256, true, Some(x)));
      SetAt(st, p, Rec((r.number + 1) % 256, true, Some(x)));
      NewPointer(base, st, st', p, x);
      forall q | q != p ensures Content(st', q) == old(Content(st, q)) {
        if At(st, q).last.Some? {
          PtrsAt(st, At(st, q).last.value);
        }
      }
    }

    /** `vers_drop`: buffers of `v` that `keep` does not share at the same position. */
    method VersDrop(v: seq<Rec>, keep: seq<Rec>)
      requires Once(v)
      requires Dropped(v, keep, |v|) <= live.Keys
      modifies this`live
      ensures live == old(live) - Dropped(v, keep, |v|)
    {
      var i := 0;
      while i < |v|
        invariant 0 <= i <= |v|
        invariant live == old(live) - Dropped(v, keep, i)
      {
        if v[i].last.Some? && !(i < |keep| && keep[i].last == v[i].last) {
          assert v[i].last.value in Dropped(v, keep, |v|);
          assert v[i].last.value !in Dropped(v, keep, i);
          assert Dropped(v, keep, i + 1) == Dropped(v, keep, i) + {v[i].last.value};
          Free(v[i].last.value);
        } else {
          assert Dropped(v, keep, i + 1) == Dropped(v, keep, i);
        }
        i := i + 1;
      }
    }

    /** `ver_drop` and `vers_drop` over all records of one output. */
    method DropAll(o: Outs, keep: Outs)
      requires OwnedOnce(o) && OwnedOnce(keep) && Shares(keep, o) && Ptrs(o) <= live.Keys
      modifies this`live
      ensures live == old(live) - (Ptrs(o) - Ptrs(keep))
    {
      DroppedAll(o, keep);
      DroppedApart(o, keep);
      forall a {
        ListOnce(o, a);
      }
      assert Once(List(o, Segments)) && Once(List(o, Indexes)) && Once(List(o, TvaMain)) && Once(List(o, TvaInit));
      assert DroppedOf(o, keep, Segments) == Dropped(o.vers, keep.vers, |o.vers|);
      assert DroppedOf(o, keep, Indexes) == Dropped(o.ivers, keep.ivers, |o.ivers|);
      assert DroppedOf(o, keep, TvaMain) == Dropped([o.main], [keep.main], 1);
      assert DroppedOf(o, keep, TvaInit) == Dropped([o.init], [keep.init], 1);
      hide OwnedOnce, Shares, Ptrs, At, Dropped, DroppedOf, Once;
      VersDrop(o.vers, keep.vers);
      VersDrop(o.ivers, keep.ivers);
      VersDrop([o.main], [keep.main]);
      VersDrop([o.init], [keep.init]);
    }

    /** `out_commit`: the replaced buffers are freed, the staged output is published. */
    method OutCommit(st: Outs)
      requires Building(st)
      modifies this
      ensures Valid() && base == st
      ensures live == old(live) - (Ptrs(old(base)) - Ptrs(st))
      ensures forall p :: Content(base, p) == old(Content(st, p))
    {
      SharesBack(base, st);
      DropAll(base, st);
      base := st;
      forall p ensures Content(base, p) == old(Content(st, p)) {
        if At(st, p).last.Some? {
          PtrsAt(st, At(st, p).last.value);
        }
      }
    }

    /** `out_discard`: the newly staged buffers are freed, the published output stays. */
    method OutDiscard(st: Outs)
      requires Building(st)
      modifies this`live
      ensures Valid() && live == old(live) - (Ptrs(st) - Ptrs(base))
    {
      DropAll(st, base);
    }

    /** A build that stages some contents, each record at most once, and then succeeds or fails. */
    method Build(nsegs: nat, nindexes: nat, changes: seq<Change>, ok: bool)
      requires Valid() && ChangesFit(changes, nsegs, nindexes)
      modifies this
      ensures Valid()
      ensures !ok ==> base == old(base) && live == old(live)
      ensures ok ==> forall p :: Content(base, p) == Staged(old(Content(base, p)), changes, p)
    {
      NoChanges(changes);
      hide Ptrs, At, OwnedOnce, Shares, Changed, Staged, List, ChangesFit;
      ghost var b0, live0 := base, live;
      var st := OutStage();
      st := GrowSegments(st, nsegs);
      st := GrowIndexes(st, nindexes);
      var i := 0;
      while i < |changes|
        invariant 0 <= i <= |changes| && Building(st) && base == b0
        invariant nsegs <= |st.vers| && nindexes <= |st.ivers|
        invariant forall x :: x in live0 ==> x in live && live[x] == live0[x]
        invariant forall p :: !Changed(changes[..i], p) ==> At(st, p) == At(base, p)
        invariant forall p :: Content(st, p) == Staged(old(Content(base, p)), changes[..i], p)
      {
        var c := changes[i];
        assert changes[..i + 1][..i] == changes[..i];
        FitsAt(st, changes, nsegs, nindexes, i);
        st := VersionStage(st, c.place, c.content, c.memory);
        ChangedNext(changes, i);
        i := i + 1;
      }
      assert changes[..i] == changes;
      if ok {
        OutCommit(st);
      } else {
        OutDiscard(st);
      }
    }
  }
}
