/**
 * Copying the containers of unchanged channels is the same as encoding everything again.
 *
 * The invariant says what the published output and the fragment table have in common after a
 * successful build: encoding a channel once more would find every fragment's content recorded
 * and produce the recorded container. One build keeps the keys of different containers apart,
 * so whatever was built before a channel leaves that channel's part of the invariant alone.
 */
module GuideReuse {
  import opened Wrappers
  import opened Fragments
  import opened Guide

  // ----- Keys of a list of fragments -----

  /**
   * The key that fragment i of a container gets: its base, or base#2, base#3, ... when earlier
   * fragments of the container have taken those.
   */
  ghost function Key(doc: Doc, refs: seq<Ref>, i: nat): string
    requires i < |refs|
    decreases i, 1
  {
    FreshKey(Keys(doc, refs, i), Base(doc, refs[i]), 1)
  }

  /** The keys of the first n fragments of a container. */
  ghost function Keys(doc: Doc, refs: seq<Ref>, n: nat): set<string>
    requires n <= |refs|
    decreases n, 0
  {
    if n == 0 then {} else Keys(doc, refs, n - 1) + {Key(doc, refs, n - 1)}
  }

  lemma {:induction false} KeysGrow(doc: Doc, refs: seq<Ref>, m: nat, n: nat)
    requires m <= n <= |refs|
    ensures Keys(doc, refs, m) <= Keys(doc, refs, n)
  {
    hide Key;
    if m < n {
      KeysGrow(doc, refs, m, n - 1);
    }
  }

  lemma KeyIn(doc: Doc, refs: seq<Ref>, i: nat)
    requires i < |refs|
    ensures Key(doc, refs, i) in Keys(doc, refs, |refs|)
  {
    hide Key;
    KeysGrow(doc, refs, i + 1, |refs|);
  }

  lemma {:induction false} KeyHolder(doc: Doc, refs: seq<Ref>, n: nat, k: string) returns (i: nat)
    requires n <= |refs| && k in Keys(doc, refs, n)
    ensures i < n && Key(doc, refs, i) == k
  {
    hide Key;
    if k in Keys(doc, refs, n - 1) {
      i := KeyHolder(doc, refs, n - 1, k);
    } else {
      i := n - 1;
    }
  }

  /** Keys of one container differ. */
  lemma KeysDiffer(doc: Doc, refs: seq<Ref>, i: nat, j: nat)
    requires i < j < |refs|
    ensures Key(doc, refs, i) != Key(doc, refs, j)
  {
    hide FreshKey, Base;
    KeysGrow(doc, refs, i + 1, j);
  }

  function Letter(r: Ref): char {
    match r
    case Program(_) => 'P'
    case Schedule(_, _) => 'S'
    case Service(_) => 'I'
    case Main => 'M'
  }

  function Name(doc: Doc, r: Ref): string {
    match r
    case Program(j) => Crid(doc, j)
    case Schedule(c, _) => Id(doc, c)
    case Service(c) => Id(doc, c)
    case Main => ""
  }

  /** A base tells the kind and the name of its fragment. */
  lemma BaseTells(doc: Doc, r: Ref, q: Ref)
    ensures |Base(doc, r)| >= 1 && Base(doc, r)[0] == Letter(r)
    ensures Base(doc, r) == Base(doc, q) <==> Letter(r) == Letter(q) && Name(doc, r) == Name(doc, q)
  {
    assert Base(doc, r) == [Letter(r), ':'] + Name(doc, r);
    assert Base(doc, q) == [Letter(q), ':'] + Name(doc, q);
    assert Base(doc, r)[0] == Letter(r) && Base(doc, r)[2..] == Name(doc, r);
    assert Base(doc, q)[0] == Letter(q) && Base(doc, q)[2..] == Name(doc, q);
  }

  /** A suffix does not hide the kind. */
  lemma KeyLetter(doc: Doc, refs: seq<Ref>, i: nat)
    requires i < |refs|
    ensures |Key(doc, refs, i)| >= 1 && Key(doc, refs, i)[0] == Letter(refs[i])
  {
    BaseTells(doc, refs[i], refs[i]);
    hide FreshKey, Base, Keys;
    var b, k := Base(doc, refs[i]), Key(doc, refs, i);
    assert k[..|b|][0] == k[0];
  }

  ghost predicate Unmarked(t: Table, keys: set<string>) {
    forall k :: k in keys ==> !Emitted(t, k)
  }

  /** Nothing changed for keys outside the set. */
  ghost predicate SameOutside(t: Table, t': Table, keys: set<string>) {
    && t'.gen == t.gen
    && forall k :: k !in keys ==> (k in t.frags <==> k in t'.frags) && (k in t.frags ==> t.frags[k] == t'.frags[k])
  }

  /** Identifiers and contents of these keys are the same. */
  ghost predicate SameContent(t: Table, t': Table, keys: set<string>) {
    forall k :: k in keys && k in t.frags ==>
      k in t'.frags && t'.frags[k].id == t.frags[k].id && t'.frags[k].ver == t.frags[k].ver
  }

  ghost predicate AllEmitted(t: Table, keys: set<string>) {
    forall k :: k in keys ==> Emitted(t, k)
  }

  /** A walk over a container none of whose keys was emitted emits them one by one. */
  lemma {:induction false} WalkFrame(t: Table, doc: Doc, refs: seq<Ref>, unit: Option<Unit>, n: nat)
    requires n <= |refs| && (unit.Some? ==> UnitOk(unit.value, |refs|))
    requires Unmarked(t, Keys(doc, refs, |refs|))
    ensures SameOutside(t, Walk(t, doc, refs, unit, n).table, Keys(doc, refs, n))
    ensures Walk(t, doc, refs, unit, n).ok ==> AllEmitted(Walk(t, doc, refs, unit, n).table, Keys(doc, refs, n))
  {
    if n == 0 {
      NoWalk(t, doc, refs, unit);
    } else {
      hide *;
      WalkFrame(t, doc, refs, unit, n - 1);
      WalkFrameNext(t, doc, refs, unit, n);
    }
  }

  lemma NoWalk(t: Table, doc: Doc, refs: seq<Ref>, unit: Option<Unit>)
    requires unit.Some? ==> UnitOk(unit.value, |refs|)
    ensures SameOutside(t, Walk(t, doc, refs, unit, 0).table, Keys(doc, refs, 0))
    ensures AllEmitted(Walk(t, doc, refs, unit, 0).table, Keys(doc, refs, 0))
  {
  }

  lemma WalkFrameNext(t: Table, doc: Doc, refs: seq<Ref>, unit: Option<Unit>, n: nat)
    requires 0 < n <= |refs| && (unit.Some? ==> UnitOk(unit.value, |refs|))
    requires Unmarked(t, Keys(doc, refs, |refs|))
    requires SameOutside(t, Walk(t, doc, refs, unit, n - 1).table, Keys(doc, refs, n - 1))
    requires Walk(t, doc, refs, unit, n - 1).ok ==>
             AllEmitted(Walk(t, doc, refs, unit, n - 1).table, Keys(doc, refs, n - 1))
    ensures SameOutside(t, Walk(t, doc, refs, unit, n).table, Keys(doc, refs, n))
    ensures Walk(t, doc, refs, unit, n).ok ==> AllEmitted(Walk(t, doc, refs, unit, n).table, Keys(doc, refs, n))
  {
    hide Base, Mark, Record, Piece, SameOutside, Keys, Key, AllEmitted, Emitted;
    var w := Walk(t, doc, refs, unit, n - 1);
    var key, before := Key(doc, refs, n - 1), Keys(doc, refs, n - 1);
    LastKey(doc, refs, n);
    OutsideSteps(t, w.table, w.table, before, {key});
    if w.ok {
      MarkNext(t, w.table, doc, refs, n);
      var m := Mark(w.table, Base(doc, refs[n - 1]));
      OutsideSteps(t, w.table, m.table, before, {key});
      EmittedNext(w.table, m.table, before, key);
      if m.key.Some? && unit.Some? {
        RecordFrame(m.table, key, Piece(unit.value, n - 1));
        var t2 := Record(m.table, key, Piece(unit.value, n - 1));
        OutsideSteps(t, m.table, t2, Keys(doc, refs, n), {key});
        assert Keys(doc, refs, n) + {key} == Keys(doc, refs, n);
        OutsideGen(m.table, t2, {key});
        EmittedNext(m.table, t2, Keys(doc, refs, n), key);
      }
    }
  }

  /** Emitted keys stay emitted when one more key changes and is emitted. */
  lemma EmittedNext(t: Table, t2: Table, keys: set<string>, key: string)
    requires SameOutside(t, t2, {key}) && AllEmitted(t, keys - {key})
    ensures key in t2.frags && t2.frags[key].gen == t2.gen ==> AllEmitted(t2, keys + {key})
  {
    forall k | k in keys && k != key ensures Emitted(t2, k) {
      assert k in keys - {key};
    }
  }

  lemma EmittedLess(t: Table, keys: set<string>, key: string)
    requires AllEmitted(t, keys)
    ensures AllEmitted(t, keys - {key})
  {
  }

  lemma OutsideSteps(t: Table, t1: Table, t2: Table, a: set<string>, b: set<string>)
    requires SameOutside(t, t1, a)
    ensures SameOutside(t1, t1, b)
    ensures SameOutside(t1, t2, b) ==> SameOutside(t, t2, a + b)
    ensures forall k :: k !in a ==> Emitted(t1, k) == Emitted(t, k)
  {
  }

  lemma LastKey(doc: Doc, refs: seq<Ref>, n: nat)
    requires 0 < n <= |refs|
    ensures Keys(doc, refs, n) == Keys(doc, refs, n - 1) + {Key(doc, refs, n - 1)}
    ensures Key(doc, refs, n - 1) !in Keys(doc, refs, n - 1)
    ensures Key(doc, refs, n - 1) in Keys(doc, refs, |refs|)
    ensures Keys(doc, refs, n - 1) <= Keys(doc, refs, |refs|)
  {
    hide FreshKey, Base;
    KeyIn(doc, refs, n - 1);
    KeysGrow(doc, refs, n - 1, |refs|);
  }

  /** Marking the next fragment of a container gives it its key and changes that key only. */
  lemma MarkFrame(t: Table, used: set<string>, base: string)
    requires AllEmitted(t, used) && !Emitted(t, FreshKey(used, base, 1))
    ensures var key, m := FreshKey(used, base, 1), Mark(t, base);
            && SameOutside(t, m.table, {key})
            && (m.key.None? ==> m.table == t)
            && (m.key.Some? ==> m.key == Some(key) && |base| <= BASE_MAX && |key| <= KEY_MAX)
            && (m.key.Some? ==> key in m.table.frags && m.table.frags[key].gen == t.gen)
            && (key in t.frags ==> SameContent(t, m.table, {key}))
            && (key in t.frags && |base| <= BASE_MAX && |key| <= KEY_MAX && ShortKeys(used) ==> m.key.Some?)
  {
    FreeKeyIsFresh(t, used, base, 1);
    hide FreeKey, FreshKey;
  }

  ghost predicate ShortKeys(keys: set<string>) {
    forall k :: k in keys ==> |k| <= KEY_MAX
  }

  /** The same in terms of a container: fragment n - 1 of a walk that began with table t. */
  lemma MarkNext(t: Table, t1: Table, doc: Doc, refs: seq<Ref>, n: nat)
    requires 0 < n <= |refs| && Unmarked(t, Keys(doc, refs, |refs|))
    requires SameOutside(t, t1, Keys(doc, refs, n - 1)) && AllEmitted(t1, Keys(doc, refs, n - 1))
    ensures var key, m := Key(doc, refs, n - 1), Mark(t1, Base(doc, refs[n - 1]));
            && !Emitted(t1, key)
            && SameOutside(t1, m.table, {key})
            && AllEmitted(t1, Keys(doc, refs, n - 1) - {key})
            && (m.key.None? ==> m.table == t1)
            && (m.key.Some? ==> m.key == Some(key) && |Base(doc, refs[n - 1])| <= BASE_MAX && |key| <= KEY_MAX)
            && (m.key.Some? ==> key in m.table.frags && m.table.frags[key].gen == t1.gen && m.table.gen == t1.gen)
            && (key in t1.frags ==> SameContent(t1, m.table, {key}))
            && (key in t1.frags && |Base(doc, refs[n - 1])| <= BASE_MAX && |key| <= KEY_MAX
                && ShortKeys(Keys(doc, refs, n - 1))
                ==> m.key.Some?)
  {
    hide Base, Mark, Keys, SameOutside, SameContent, AllEmitted, Emitted, ShortKeys;
    LastKey(doc, refs, n);
    OutsideSteps(t, t1, t1, Keys(doc, refs, n - 1), {});
    MarkFrame(t1, Keys(doc, refs, n - 1), Base(doc, refs[n - 1]));
    OutsideGen(t1, Mark(t1, Base(doc, refs[n - 1])).table, {Key(doc, refs, n - 1)});
    EmittedLess(t1, Keys(doc, refs, n - 1), Key(doc, refs, n - 1));
  }

  lemma RecordFrame(t: Table, base: string, content: Bytes)
    requires base in t.frags
    ensures SameOutside(t, Record(t, base, content), {base})
    ensures base in Record(t, base, content).frags
    ensures Record(t, base, content).frags[base].ver.last == Some(content)
    ensures Record(t, base, content).frags[base].gen == t.frags[base].gen
    ensures t.frags[base].ver.last == Some(content) ==> Record(t, base, content) == t
  {
    if t.frags[base].ver.last == Some(content) {
      assert t.frags[base := t.frags[base]] == t.frags;
    }
  }

  lemma {:induction false} WalkTableOk(t: Table, doc: Doc, refs: seq<Ref>, unit: Option<Unit>, n: nat)
    requires n <= |refs| && (unit.Some? ==> UnitOk(unit.value, |refs|)) && TableOk(t)
    ensures TableOk(Walk(t, doc, refs, unit, n).table)
  {
    if n > 0 {
      hide Mark, Record, Piece, UnitOk, TableOk, Base;
      WalkTableOk(t, doc, refs, unit, n - 1);
      var w := Walk(t, doc, refs, unit, n - 1);
      if w.ok {
        var m := Mark(w.table, Base(doc, refs[n - 1]));
        MarkOk(w.table, Base(doc, refs[n - 1]));
        if m.key.Some? {
          MarkedPresent(w.table, Base(doc, refs[n - 1]));
          if unit.Some? {
            RecordOk(m.table, m.key.value, Piece(unit.value, n - 1));
          }
        }
      }
    }
  }

  lemma MarkedPresent(t: Table, base: string)
    ensures Mark(t, base).key.Some? ==> Mark(t, base).key.value in Mark(t, base).table.frags
  {
    hide FreeKey;
  }

  // ----- What encoding a container leaves behind -----

  /** Every fragment's content is the recorded one. */
  ghost predicate Recorded(t: Table, doc: Doc, refs: seq<Ref>, u: Unit)
    requires UnitOk(u, |refs|)
  {
    forall i :: 0 <= i < |refs| ==> RecordedAt(t, doc, refs, u, i)
  }

  ghost predicate RecordedAt(t: Table, doc: Doc, refs: seq<Ref>, u: Unit, i: nat)
    requires UnitOk(u, |refs|) && i < |refs|
  {
    var k := Key(doc, refs, i);
    && |Base(doc, refs[i])| <= BASE_MAX && |k| <= KEY_MAX
    && k in t.frags && t.frags[k].ver.last == Some(Piece(u, i))
  }

  /** The reference of a fragment as the table has it. */
  ghost function RefAt(t: Table, key: string, r: Ref, off: Offset): FragRef
    requires key in t.frags
  {
    FragRef(r, off, t.frags[key].id, t.frags[key].ver.number)
  }

  ghost predicate RefsAre(t: Table, doc: Doc, refs: seq<Ref>, offs: seq<Offset>, out: seq<FragRef>, n: nat) {
    && n <= |refs| && |out| == n && n <= |offs|
    && forall i :: 0 <= i < n ==>
       Key(doc, refs, i) in t.frags && out[i] == RefAt(t, Key(doc, refs, i), refs[i], offs[i])
  }

  /** After `frag_assign`: contents recorded, references taken from the table, all emitted. */
  ghost predicate Assigned(t: Table, doc: Doc, refs: seq<Ref>, u: Unit, out: seq<FragRef>, n: nat)
    requires UnitOk(u, |refs|) && n <= |refs|
  {
    && RefsAre(t, doc, refs, u.offs, out, n)
    && forall i :: 0 <= i < n ==> RecordedAt(t, doc, refs, u, i) && t.frags[Key(doc, refs, i)].gen == t.gen
  }

  lemma {:induction false} WalkAssigns(t: Table, doc: Doc, refs: seq<Ref>, u: Unit, n: nat)
    requires n <= |refs| && UnitOk(u, |refs|)
    requires Unmarked(t, Keys(doc, refs, |refs|))
    requires Walk(t, doc, refs, Some(u), n).ok
    ensures Assigned(Walk(t, doc, refs, Some(u), n).table, doc, refs, u, Walk(t, doc, refs, Some(u), n).refs, n)
  {
    hide Base, UnitOk, Keys, Key, Emitted, RecordedAt, RefAt, SameOutside, Unmarked, AllEmitted;
    if n > 0 {
      assert Walk(t, doc, refs, Some(u), n - 1).ok;
      WalkAssigns(t, doc, refs, u, n - 1);
      WalkFrame(t, doc, refs, Some(u), n - 1);
      WalkStep(t, doc, refs, u, n);
      var w := Walk(t, doc, refs, Some(u), n - 1);
      var w2 := Walk(t, doc, refs, Some(u), n);
      AssignedNext(w.table, w2.table, doc, refs, u, w.refs, n, w2.refs);
    }
  }

  /** One fragment of a walk that succeeds. */
  lemma WalkStep(t: Table, doc: Doc, refs: seq<Ref>, u: Unit, n: nat)
    requires 0 < n <= |refs| && UnitOk(u, |refs|)
    requires Unmarked(t, Keys(doc, refs, |refs|))
    requires SameOutside(t, Walk(t, doc, refs, Some(u), n - 1).table, Keys(doc, refs, n - 1))
    requires AllEmitted(Walk(t, doc, refs, Some(u), n - 1).table, Keys(doc, refs, n - 1))
    requires Walk(t, doc, refs, Some(u), n).ok
    ensures var w, w2 := Walk(t, doc, refs, Some(u), n - 1), Walk(t, doc, refs, Some(u), n);
            var key := Key(doc, refs, n - 1);
            && SameOutside(w.table, w2.table, {key})
            && RecordedAt(w2.table, doc, refs, u, n - 1)
            && w2.table.frags[key].gen == w2.table.gen
            && w2.refs == w.refs + [RefAt(w2.table, key, refs[n - 1], u.offs[n - 1])]
  {
    hide Base, Mark, Record, Piece, SameOutside, Keys, Key, Emitted, AllEmitted;
    var w := Walk(t, doc, refs, Some(u), n - 1);
    var key := Key(doc, refs, n - 1);
    MarkNext(t, w.table, doc, refs, n);
    var m := Mark(w.table, Base(doc, refs[n - 1]));
    RecordFrame(m.table, key, Piece(u, n - 1));
    OutsideSteps(w.table, m.table, Record(m.table, key, Piece(u, n - 1)), {key}, {key});
    assert {key} + {key} == {key};
    OutsideGen(w.table, m.table, {key});
    OutsideGen(m.table, Record(m.table, key, Piece(u, n - 1)), {key});
  }

  lemma OutsideGen(t: Table, t1: Table, a: set<string>)
    requires SameOutside(t, t1, a)
    ensures t1.gen == t.gen
  {
  }

  lemma AssignedNext(t: Table, t2: Table, doc: Doc, refs: seq<Ref>, u: Unit, out: seq<FragRef>, n: nat,
                     out2: seq<FragRef>)
    requires UnitOk(u, |refs|) && 0 < n <= |refs|
    requires Assigned(t, doc, refs, u, out, n - 1) && SameOutside(t, t2, {Key(doc, refs, n - 1)})
    requires RecordedAt(t2, doc, refs, u, n - 1) && t2.frags[Key(doc, refs, n - 1)].gen == t2.gen
    requires out2 == out + [RefAt(t2, Key(doc, refs, n - 1), refs[n - 1], u.offs[n - 1])]
    ensures Assigned(t2, doc, refs, u, out2, n)
  {
    hide Base, Piece, Key;
    forall i | 0 <= i < n
      ensures RecordedAt(t2, doc, refs, u, i) && t2.frags[Key(doc, refs, i)].gen == t2.gen
      ensures out2[i] == RefAt(t2, Key(doc, refs, i), refs[i], u.offs[i])
    {
      if i < n - 1 {
        KeysDiffer(doc, refs, i, n - 1);
      }
    }
  }

  // ----- Marking only, when every content is already recorded -----

  /** The table after marking: contents as before, so references come out the same. */
  lemma {:induction false} WalkTouches(t: Table, doc: Doc, refs: seq<Ref>, u: Unit, n: nat)
    requires n <= |refs| && UnitOk(u, |refs|)
    requires Unmarked(t, Keys(doc, refs, |refs|)) && Recorded(t, doc, refs, u)
    ensures var a, b := Walk(t, doc, refs, Some(u), n), Walk(t, doc, refs, None, n);
            && a.ok && b.ok && a.table == b.table
            && SameContent(t, a.table, Keys(doc, refs, |refs|))
            && RefsAre(t, doc, refs, u.offs, a.refs, n)
            && RefsAre(t, doc, refs, Blank(n), b.refs, n)
  {
    hide *;
    if n == 0 {
      NoTouches(t, doc, refs, u);
    } else {
      Lengths(u, |refs|, n);
      WalkTouches(t, doc, refs, u, n - 1);
      WalkFrame(t, doc, refs, Some(u), n - 1);
      TouchStep(t, doc, refs, u, n);
      var a, b := Walk(t, doc, refs, Some(u), n - 1), Walk(t, doc, refs, None, n - 1);
      var a2, b2 := Walk(t, doc, refs, Some(u), n), Walk(t, doc, refs, None, n);
      ContentSteps(t, a.table, a2.table, Keys(doc, refs, |refs|));
      RefsNext(t, a2.table, doc, refs, u.offs, a.refs, a2.refs, n);
      BlankRefs(t, doc, refs, b.refs, n);
      RefsNext(t, a2.table, doc, refs, Blank(n), b.refs, b2.refs, n);
    }
  }

  lemma NoTouches(t: Table, doc: Doc, refs: seq<Ref>, u: Unit)
    requires UnitOk(u, |refs|)
    ensures var a, b := Walk(t, doc, refs, Some(u), 0), Walk(t, doc, refs, None, 0);
            && a.ok && b.ok && a.table == b.table
            && SameContent(t, a.table, Keys(doc, refs, |refs|))
            && RefsAre(t, doc, refs, u.offs, a.refs, 0)
            && RefsAre(t, doc, refs, Blank(0), b.refs, 0)
  {
    hide Keys;
  }

  lemma Lengths(u: Unit, n: nat, k: nat)
    requires UnitOk(u, n)
    ensures |u.offs| == n && |Blank(k)| == k
  {
  }

  function Blank(n: nat): seq<Offset> {
    seq(n, _ => Offset(0, 0))
  }

  lemma BlankRefs(t: Table, doc: Doc, refs: seq<Ref>, out: seq<FragRef>, n: nat)
    requires 0 < n && RefsAre(t, doc, refs, Blank(n - 1), out, n - 1)
    ensures RefsAre(t, doc, refs, Blank(n), out, n - 1)
  {
    hide Key, RefAt;
    assert forall i :: 0 <= i < n - 1 ==> Blank(n)[i] == Blank(n - 1)[i];
  }

  lemma ContentSteps(t: Table, t1: Table, t2: Table, keys: set<string>)
    requires SameContent(t, t1, keys) && SameContent(t1, t2, keys)
    ensures SameContent(t, t2, keys)
  {
  }

  lemma RefsNext(t: Table, t2: Table, doc: Doc, refs: seq<Ref>, offs: seq<Offset>, out: seq<FragRef>,
                 out2: seq<FragRef>, n: nat)
    requires 0 < n <= |refs| && n <= |offs| && RefsAre(t, doc, refs, offs, out, n - 1)
    requires SameContent(t, t2, Keys(doc, refs, |refs|)) && Key(doc, refs, n - 1) in t.frags
             && Key(doc, refs, n - 1) in t2.frags
    requires out2 == out + [RefAt(t2, Key(doc, refs, n - 1), refs[n - 1], offs[n - 1])]
    ensures RefsAre(t, doc, refs, offs, out2, n)
  {
    hide Key, Keys;
    LastKey(doc, refs, n);
  }

  /** Recorded fragments have keys that fit. */
  lemma {:induction false} RecordedShort(t: Table, doc: Doc, refs: seq<Ref>, u: Unit, n: nat)
    requires n <= |refs| && UnitOk(u, |refs|) && Recorded(t, doc, refs, u)
    ensures ShortKeys(Keys(doc, refs, n))
  {
    hide Key, Piece, UnitOk, Base;
    if n > 0 {
      RecordedShort(t, doc, refs, u, n - 1);
      assert RecordedAt(t, doc, refs, u, n - 1);
    }
  }

  /** One fragment, with and without its unchanged content. */
  lemma TouchStep(t: Table, doc: Doc, refs: seq<Ref>, u: Unit, n: nat)
    requires 0 < n <= |refs| && UnitOk(u, |refs|)
    requires Unmarked(t, Keys(doc, refs, |refs|)) && Recorded(t, doc, refs, u)
    requires Walk(t, doc, refs, Some(u), n - 1).ok && Walk(t, doc, refs, None, n - 1).ok
    requires Walk(t, doc, refs, Some(u), n - 1).table == Walk(t, doc, refs, None, n - 1).table
    requires SameOutside(t, Walk(t, doc, refs, Some(u), n - 1).table, Keys(doc, refs, n - 1))
    requires AllEmitted(Walk(t, doc, refs, Some(u), n - 1).table, Keys(doc, refs, n - 1))
    ensures var a, b := Walk(t, doc, refs, Some(u), n - 1), Walk(t, doc, refs, None, n - 1);
            var a2, b2 := Walk(t, doc, refs, Some(u), n), Walk(t, doc, refs, None, n);
            var key := Key(doc, refs, n - 1);
            && a2.ok && b2.ok && a2.table == b2.table
            && SameContent(a.table, a2.table, Keys(doc, refs, |refs|))
            && key in t.frags && key in a2.table.frags
            && a2.refs == a.refs + [RefAt(a2.table, key, refs[n - 1], u.offs[n - 1])]
            && b2.refs == b.refs + [RefAt(a2.table, key, refs[n - 1], Blank(n)[n - 1])]
  {
    hide Base, Mark, Record, Piece, Keys, Key, Emitted, SameOutside, SameContent, Walk, RefAt, AllEmitted, ShortKeys;
    assert RecordedAt(t, doc, refs, u, n - 1);
    RecordedShort(t, doc, refs, u, n - 1);
    var a := Walk(t, doc, refs, Some(u), n - 1);
    var key := Key(doc, refs, n - 1);
    LastKey(doc, refs, n);
    OutsideAt(t, a.table, Keys(doc, refs, n - 1), key);
    MarkNext(t, a.table, doc, refs, n);
    var m := Mark(a.table, Base(doc, refs[n - 1]));
    ContentAt(a.table, m.table, key, Keys(doc, refs, |refs|));
    RecordFrame(m.table, key, Piece(u, n - 1));
    UnfoldAssign(t, doc, refs, u, n, key);
    UnfoldTouch(t, doc, refs, n, key);
  }

  lemma UnfoldAssign(t: Table, doc: Doc, refs: seq<Ref>, u: Unit, n: nat, key: string)
    requires 0 < n <= |refs| && UnitOk(u, |refs|) && Walk(t, doc, refs, Some(u), n - 1).ok
    requires var m := Mark(Walk(t, doc, refs, Some(u), n - 1).table, Base(doc, refs[n - 1]));
             m.key == Some(key) && key in m.table.frags
    ensures var w := Walk(t, doc, refs, Some(u), n - 1);
            var t2 := Record(Mark(w.table, Base(doc, refs[n - 1])).table, key, Piece(u, n - 1));
            && key in t2.frags
            && Walk(t, doc, refs, Some(u), n) == Walked(t2, true, w.refs + [RefAt(t2, key, refs[n - 1], u.offs[n - 1])])
  {
    hide Base, Mark, Piece, UnitOk;
  }

  lemma UnfoldTouch(t: Table, doc: Doc, refs: seq<Ref>, n: nat, key: string)
    requires 0 < n <= |refs| && Walk(t, doc, refs, None, n - 1).ok
    requires var m := Mark(Walk(t, doc, refs, None, n - 1).table, Base(doc, refs[n - 1]));
             m.key == Some(key) && key in m.table.frags
    ensures var w := Walk(t, doc, refs, None, n - 1);
            var t2 := Mark(w.table, Base(doc, refs[n - 1])).table;
            Walk(t, doc, refs, None, n) == Walked(t2, true, w.refs + [RefAt(t2, key, refs[n - 1], Offset(0, 0))])
  {
    hide Base, Mark;
  }

  lemma OutsideAt(t: Table, t1: Table, a: set<string>, k: string)
    requires SameOutside(t, t1, a) && k !in a
    ensures k in t.frags <==> k in t1.frags
    ensures k in t.frags ==> t1.frags[k] == t.frags[k]
  {
  }

  /** A change of one key that keeps its content keeps every content. */
  lemma ContentAt(t: Table, t1: Table, k: string, keys: set<string>)
    requires SameOutside(t, t1, {k}) && SameContent(t, t1, {k}) && k in t.frags
    ensures SameContent(t, t1, keys)
    ensures k in t1.frags && t1.frags[k].id == t.frags[k].id && t1.frags[k].ver == t.frags[k].ver
  {
  }

  // ----- Sorting does not matter for the index -----

  lemma {:induction false} InsertEntries(env: Env, doc: Doc, r: FragRef, s: seq<FragRef>, c: nat)
    ensures Entries(env, doc, Insert(r, s), c)
            == multiset(EntryList(env, doc, r.ref, c, r.id)) + Entries(env, doc, s, c)
  {
    hide EntryList;
    if s == [] || r.id <= s[0].id {
      assert ([r] + s)[1..] == s;
    } else {
      InsertEntries(env, doc, r, s[1..], c);
      assert ([s[0]] + Insert(r, s[1..]))[1..] == Insert(r, s[1..]);
    }
  }

  lemma {:induction false} SortEntries(env: Env, doc: Doc, s: seq<FragRef>, c: nat)
    ensures Entries(env, doc, SortById(s), c) == Entries(env, doc, s, c)
  {
    if s != [] {
      hide EntryList;
      SortEntries(env, doc, s[1..], c);
      InsertEntries(env, doc, s[0], SortById(s[1..]), c);
    }
  }

  lemma {:induction false} SameEntries(env: Env, doc: Doc, a: seq<FragRef>, b: seq<FragRef>, c: nat)
    requires |a| == |b| && forall i :: 0 <= i < |a| ==> a[i].ref == b[i].ref && a[i].id == b[i].id
    ensures Entries(env, doc, a, c) == Entries(env, doc, b, c)
  {
    if a != [] {
      hide EntryList;
      SameEntries(env, doc, a[1..], b[1..], c);
    }
  }

  lemma {:induction false} InsertSorts(r: FragRef, s: seq<FragRef>)
    requires Ascending(s)
    ensures Ascending(Insert(r, s)) && multiset(Insert(r, s)) == multiset(s) + multiset{r}
    ensures Insert(r, s)[0].id == r.id || (s != [] && Insert(r, s)[0] == s[0])
  {
    if s == [] || r.id <= s[0].id {
    } else {
      assert s == [s[0]] + s[1..];
      InsertSorts(r, s[1..]);
    }
  }

  ghost predicate Ascending(s: seq<FragRef>) {
    forall i, j :: 0 <= i < j < |s| ==> s[i].id <= s[j].id
  }

  lemma {:induction false} SortSorts(s: seq<FragRef>)
    ensures Ascending(SortById(s)) && multiset(SortById(s)) == multiset(s)
  {
    if s != [] {
      SortSorts(s[1..]);
      InsertSorts(s[0], SortById(s[1..]));
      assert s == [s[0]] + s[1..];
    }
  }

  // ----- One channel -----

  /** The container published for a channel is what its recorded fragments encode to. */
  ghost predicate ContainerIs(env: Env, t: Table, doc: Doc, refs: seq<Ref>, u: Unit, ver: Version, seg: Bytes) {
    && ver.last.Some?
    && env.wrap(ver.last.value) == Some(seg)
    && forall out :: RefsAre(t, doc, refs, u.offs, out, |refs|) ==>
       env.container(u.au, u.strs, Slots(SortById(out))) == ver.last
  }

  ghost predicate UnitRecorded(env: Env, t: Table, doc: Doc, refs: seq<Ref>, u: Unit, ver: Version, seg: Bytes) {
    UnitOk(u, |refs|) && Recorded(t, doc, refs, u) && ContainerIs(env, t, doc, refs, u, ver, seg)
  }

  ghost predicate ChannelOk(env: Env, t: Table, doc: Doc, c: nat, sel: seq<nat>, ver: Version, seg: Bytes) {
    var u := Encode(env, doc, c, [sel]);
    u.Some? && Fits(u.value) && UnitRecorded(env, t, doc, Refs(doc, c, [sel]), u.value, ver, seg)
  }

  lemma {:induction false} RefsUnique(t: Table, doc: Doc, refs: seq<Ref>, offs: seq<Offset>, a: seq<FragRef>,
                                      b: seq<FragRef>, n: nat)
    requires RefsAre(t, doc, refs, offs, a, n) && RefsAre(t, doc, refs, offs, b, n)
    ensures a == b
  {
    hide Key;
    assert forall i :: 0 <= i < n ==> a[i] == b[i];
  }

  /** Other keys may change. */
  lemma UnitFrame(env: Env, t: Table, t': Table, doc: Doc, refs: seq<Ref>, u: Unit, ver: Version, seg: Bytes)
    requires UnitRecorded(env, t, doc, refs, u, ver, seg) && SameContent(t, t', Keys(doc, refs, |refs|))
    ensures UnitRecorded(env, t', doc, refs, u, ver, seg)
  {
    hide Base, Piece, SortById, Slots, Key, Keys;
    forall i | 0 <= i < |refs| ensures RecordedAt(t, doc, refs, u, i) && RecordedAt(t', doc, refs, u, i) {
      KeyIn(doc, refs, i);
    }
    forall out | RefsAre(t', doc, refs, u.offs, out, |refs|) ensures RefsAre(t, doc, refs, u.offs, out, |refs|) {
      forall i | 0 <= i < |refs|
        ensures Key(doc, refs, i) in t.frags && out[i] == RefAt(t, Key(doc, refs, i), refs[i], u.offs[i])
      {
        assert RecordedAt(t, doc, refs, u, i);
        KeyIn(doc, refs, i);
      }
    }
  }

  /** Reusing an unchanged channel is encoding it. */
  lemma ReuseIsEncode(env: Env, w: Work, prev: Out, doc: Doc, c: nat, sel: seq<nat>)
    requires c < |w.out.vers| && c < |prev.seg|
    requires Unmarked(w.table, Keys(doc, Refs(doc, c, [sel]), |Refs(doc, c, [sel])|))
    requires ChannelOk(env, w.table, doc, c, sel, w.out.vers[c], prev.seg[c])
    ensures ReuseGroup(env, w, prev, doc, c, sel) == EncodeGroup(env, w, doc, c, c, [sel])
  {
    var refs := Refs(doc, c, [sel]);
    var u := Encode(env, doc, c, [sel]).value;
    ChannelRefsAgree(doc, c, sel);
    hide Refs, ChannelRefs, Keys, Unmarked, Recorded, Encode, Fits, Walk, RefsAre, Entries, SortById, Slots, UnitOk,
         PutContainer;
    WalkTouches(w.table, doc, refs, u, |refs|);
    var a := Walk(w.table, doc, refs, Some(u), |refs|);
    var b := Walk(w.table, doc, refs, None, |refs|);
    SortEntries(env, doc, a.refs, c + 1);
    TouchedAlike(w.table, doc, refs, u.offs, a.refs, b.refs);
    SameEntries(env, doc, a.refs, b.refs, c + 1);
    PutUnchanged(env, w, doc, c, u, a, prev.seg[c]);
  }

  /** A container with unchanged content keeps its version. */
  lemma PutUnchanged(env: Env, w: Work, doc: Doc, g: nat, u: Unit, a: Walked, seg: Bytes)
    requires g < |w.out.vers| && w.out.vers[g].last.Some? && env.wrap(w.out.vers[g].last.value) == Some(seg)
    requires env.container(u.au, u.strs, Slots(SortById(a.refs))) == w.out.vers[g].last
    ensures PutContainer(env, w, doc, g, u, a)
         == Step(Work(a.table, w.entries + Entries(env, doc, SortById(a.refs), g + 1),
                      w.out.(seg := w.out.seg + [seg], nfuu := w.out.nfuu + |a.refs|)), true)
  {
    hide Entries, SortById, Slots;
    assert w.out.vers[g := w.out.vers[g]] == w.out.vers;
  }

  lemma PutRecords(env: Env, w: Work, doc: Doc, g: nat, u: Unit, a: Walked)
    requires g < |w.out.vers| && PutContainer(env, w, doc, g, u, a).ok
    ensures var o := PutContainer(env, w, doc, g, u, a).work;
            && o.table == a.table && |o.out.seg| == |w.out.seg| + 1
            && o.out.vers[g].last.Some?
            && env.wrap(o.out.vers[g].last.value) == Some(o.out.seg[|w.out.seg|])
            && env.container(u.au, u.strs, Slots(SortById(a.refs))) == o.out.vers[g].last
  {
    hide Entries, SortById, Slots;
  }

  lemma TouchedAlike(t: Table, doc: Doc, refs: seq<Ref>, offs: seq<Offset>, a: seq<FragRef>, b: seq<FragRef>)
    requires RefsAre(t, doc, refs, offs, a, |refs|) && RefsAre(t, doc, refs, Blank(|refs|), b, |refs|)
    ensures |a| == |b| && forall i :: 0 <= i < |a| ==> a[i].ref == b[i].ref && a[i].id == b[i].id
  {
    hide Key;
  }

  /** What an encoded container leaves behind. */
  lemma EncodeRecords(env: Env, w: Work, doc: Doc, g: nat, from: nat, sels: Selection)
    requires g < |w.out.vers| && EncodeGroup(env, w, doc, g, from, sels).ok
    requires Unmarked(w.table, Keys(doc, Refs(doc, from, sels), |Refs(doc, from, sels)|))
    ensures var o := EncodeGroup(env, w, doc, g, from, sels).work;
            && |o.out.seg| == |w.out.seg| + 1
            && Fits(Encode(env, doc, from, sels).value)
            && UnitRecorded(env, o.table, doc, Refs(doc, from, sels), Encode(env, doc, from, sels).value,
                            o.out.vers[g], o.out.seg[|w.out.seg|])
            && AllEmitted(o.table, Keys(doc, Refs(doc, from, sels), |Refs(doc, from, sels)|))
  {
    var refs := Refs(doc, from, sels);
    var u := Encode(env, doc, from, sels).value;
    hide Refs, Keys, Unmarked, Encode, Fits, Walk, RefsAre, Entries, SortById, Slots, UnitOk, RecordedAt, PutContainer;
    WalkAssigns(w.table, doc, refs, u, |refs|);
    var a := Walk(w.table, doc, refs, Some(u), |refs|);
    PutRecords(env, w, doc, g, u, a);
    WalkFrame(w.table, doc, refs, Some(u), |refs|);
    forall out | RefsAre(a.table, doc, refs, u.offs, out, |refs|) ensures out == a.refs {
      RefsUnique(a.table, doc, refs, u.offs, out, a.refs, |refs|);
    }
  }

  /** Only the published output of this container and the container's own keys change. */
  ghost predicate OutFrame(a: Out, b: Out, g: nat) {
    && b.sels == a.sels && b.srcGen == a.srcGen && b.mainVer == a.mainVer && b.mainSeg == a.mainSeg
    && |b.vers| == |a.vers| && (forall h :: 0 <= h < |a.vers| && h != g ==> b.vers[h] == a.vers[h])
    && |a.seg| <= |b.seg| && b.seg[..|a.seg|] == a.seg
  }

  lemma PutFrame(env: Env, w: Work, doc: Doc, g: nat, u: Unit, a: Walked)
    requires g < |w.out.vers|
    ensures OutFrame(w.out, PutContainer(env, w, doc, g, u, a).work.out, g)
    ensures PutContainer(env, w, doc, g, u, a).work.table == a.table
  {
    hide Entries, SortById, Slots;
  }

  lemma EncodeFrame(env: Env, w: Work, doc: Doc, g: nat, from: nat, sels: Selection)
    requires g < |w.out.vers|
    requires Unmarked(w.table, Keys(doc, Refs(doc, from, sels), |Refs(doc, from, sels)|))
    ensures var o := EncodeGroup(env, w, doc, g, from, sels).work;
            && OutFrame(w.out, o.out, g)
            && SameOutside(w.table, o.table, Keys(doc, Refs(doc, from, sels), |Refs(doc, from, sels)|))
            && (TableOk(w.table) ==> TableOk(o.table))
  {
    var refs := Refs(doc, from, sels);
    var u := Encode(env, doc, from, sels);
    hide Refs, Keys, Unmarked, Encode, Fits, Walk, PutContainer, TableOk;
    WalkFrame(w.table, doc, refs, None, 0);
    if u.Some? {
      WalkFrame(w.table, doc, refs, u, |refs|);
      var a := Walk(w.table, doc, refs, u, |refs|);
      PutFrame(env, w, doc, g, u.value, a);
      if TableOk(w.table) {
        WalkTableOk(w.table, doc, refs, u, |refs|);
      }
    }
  }

  lemma ReuseFrame(env: Env, w: Work, prev: Out, doc: Doc, g: nat, sel: seq<nat>)
    requires g < |w.out.vers| && g < |prev.seg|
    requires Unmarked(w.table, Keys(doc, Refs(doc, g, [sel]), |Refs(doc, g, [sel])|))
    ensures var o := ReuseGroup(env, w, prev, doc, g, sel).work;
            && OutFrame(w.out, o.out, g)
            && SameOutside(w.table, o.table, Keys(doc, Refs(doc, g, [sel]), |Refs(doc, g, [sel])|))
            && (TableOk(w.table) ==> TableOk(o.table))
  {
    ChannelRefsAgree(doc, g, sel);
    var refs := Refs(doc, g, [sel]);
    hide Refs, ChannelRefs, Keys, Unmarked, Walk, TableOk, Entries;
    WalkFrame(w.table, doc, refs, None, |refs|);
    if TableOk(w.table) {
      WalkTableOk(w.table, doc, refs, None, |refs|);
    }
  }

  lemma ReuseEmits(env: Env, w: Work, prev: Out, doc: Doc, g: nat, sel: seq<nat>)
    requires g < |w.out.vers| && g < |prev.seg|
    requires Unmarked(w.table, Keys(doc, Refs(doc, g, [sel]), |Refs(doc, g, [sel])|))
    requires ReuseGroup(env, w, prev, doc, g, sel).ok
    ensures AllEmitted(ReuseGroup(env, w, prev, doc, g, sel).work.table,
                       Keys(doc, Refs(doc, g, [sel]), |Refs(doc, g, [sel])|))
  {
    ChannelRefsAgree(doc, g, sel);
    var refs := Refs(doc, g, [sel]);
    hide Refs, ChannelRefs, Keys, Unmarked, Walk, Entries, AllEmitted;
    WalkFrame(w.table, doc, refs, None, |refs|);
  }
}
