/**
 * Where incremental and full builds part: two concrete runs.
 *
 * In the first, two channels carry a programme of the same CRID. The reader never delivers such a
 * document; the run shows what the keys are distinct for. In the second, a reload fails on its
 * second channel, after new contents of the first channel's fragments were recorded. The next cycle
 * copies that channel's container with versions the table no longer has.
 */
module GuideDrift {
  import opened Wrappers
  import opened Fragments
  import opened Guide
  import opened GuideReuse
  import opened GuideBuilds
  import opened GuideKeys
  import opened GuideSource
  import opened GuideRuns

  function Ids(slots: seq<Slot>): Bytes {
    seq(|slots|, i requires 0 <= i < |slots| => slots[i].id)
  }

  /** Every fragment is empty; a container is the list of its fragment identifiers. */
  function EmptyUnit(n: nat): (u: Unit)
    ensures UnitOk(u, n) && forall i :: 0 <= i < n ==> Piece(u, i) == []
  {
    Unit([], [], seq(n, _ => Offset(0, 0)))
  }

  function MakeEnv(kinds: set<Kind>): Env {
    Env(false, kinds,
        (doc: Doc, from: nat, sels: Selection) => Some(EmptyUnit(|Refs(doc, from, sels)|)),
        None,
        (au: Bytes, strs: Bytes, slots: seq<Slot>) => Some(Ids(slots)),
        (b: Bytes) => Some(b),
        (entries: multiset<IndexEntry>, first: nat) => if entries == multiset{} then None else Some([]),
        (doc: Doc, sel: seq<nat>) => None,
        (doc: Doc, sels: Selection) => None)
  }

  const Seen := Version(1, true, Some([]))

  /** One more fragment of a walk over empty fragments, under a key the table does not have. */
  lemma NewFragment(t: Table, doc: Doc, refs: seq<Ref>, n: nat, key: string)
    requires n < |refs| && Walk(t, doc, refs, Some(EmptyUnit(|refs|)), n).ok
    requires var t1 := Walk(t, doc, refs, Some(EmptyUnit(|refs|)), n).table;
             |Base(doc, refs[n])| <= BASE_MAX && FreeKey(t1, Base(doc, refs[n]), 1) == Some(key) && key !in t1.frags
               && t1.next < ID_MAX
    ensures var w := Walk(t, doc, refs, Some(EmptyUnit(|refs|)), n);
            Walk(t, doc, refs, Some(EmptyUnit(|refs|)), n + 1)
            == Walked(Table(w.table.frags[key := Frag(w.table.next + 1, w.table.gen, Seen)], w.table.next + 1,
                            w.table.gen), true,
                      w.refs + [FragRef(refs[n], Offset(0, 0), w.table.next + 1, 1)])
  {
    hide FreeKey, Base, UnitOk, Piece;
    var w := Walk(t, doc, refs, Some(EmptyUnit(|refs|)), n);
    var m := Mark(w.table, Base(doc, refs[n]));
    var f := Frag(w.table.next + 1, w.table.gen, Seen);
    assert m.key == Some(key) && m.table.frags[key] == Frag(w.table.next + 1, w.table.gen, Unset);
    assert Record(m.table, key, []).frags == w.table.frags[key := f];
  }

  /** The same under a key the table has. */
  lemma OldFragment(t: Table, doc: Doc, refs: seq<Ref>, n: nat, key: string)
    requires n < |refs| && Walk(t, doc, refs, Some(EmptyUnit(|refs|)), n).ok
    requires var t1 := Walk(t, doc, refs, Some(EmptyUnit(|refs|)), n).table;
             |Base(doc, refs[n])| <= BASE_MAX && FreeKey(t1, Base(doc, refs[n]), 1) == Some(key) && key in t1.frags
               && t1.frags[key].ver == Seen
    ensures var w := Walk(t, doc, refs, Some(EmptyUnit(|refs|)), n);
            Walk(t, doc, refs, Some(EmptyUnit(|refs|)), n + 1)
            == Walked(w.table.(frags := w.table.frags[key := w.table.frags[key].(gen := w.table.gen)]), true,
                      w.refs + [FragRef(refs[n], Offset(0, 0), w.table.frags[key].id, 1)])
  {
    hide FreeKey, Base, UnitOk, Piece;
    var w := Walk(t, doc, refs, Some(EmptyUnit(|refs|)), n);
    var m := Mark(w.table, Base(doc, refs[n]));
    var f := w.table.frags[key].(gen := w.table.gen);
    assert m.key == Some(key) && m.table.frags[key] == f;
    assert Record(m.table, key, []).frags == m.table.frags[key := f];
    assert m.table.frags[key := f] == m.table.frags;
  }

  // ----- One CRID in two channels -----

  const TwoDoc := Doc([Channel("A", true), Channel("B", true)], [Programme("X", None), Programme("X", None)])

  function KX(): string { "P:X" }
  function KX2(): string { "P:X#2" }
  function SA(): string { "S:A" }
  function IA(): string { "I:A" }
  function SB(): string { "S:B" }
  function IB(): string { "I:B" }

  lemma Names()
    ensures Base(TwoDoc, Program(0)) == KX() && Base(TwoDoc, Program(1)) == KX()
    ensures forall s :: Base(TwoDoc, Schedule(0, s)) == SA() && Base(TwoDoc, Schedule(1, s)) == SB()
    ensures Base(TwoDoc, Service(0)) == IA() && Base(TwoDoc, Service(1)) == IB()
    ensures Suffixed(KX(), 2) == KX2()
  {
    assert Digits(2) == "2";
  }

  lemma NamesDiffer()
    ensures KX() != KX2() && KX() != SA() && KX() != IA() && KX() != SB() && KX() != IB()
    ensures KX2() != SA() && KX2() != IA() && KX2() != SB() && KX2() != IB()
    ensures SA() != IA() && SA() != SB() && SA() != IB() && IA() != SB() && IA() != IB() && SB() != IB()
    ensures |KX()| == 3 && |KX2()| == 5 && |SA()| == 3 && |IA()| == 3 && |SB()| == 3 && |IB()| == 3
  {
    assert KX()[0] == 'P' && SA()[0] == 'S' && IA()[0] == 'I' && SB()[0] == 'S' && IB()[0] == 'I' && KX2()[0] == 'P';
    assert SA()[2] == 'A' && SB()[2] == 'B' && IA()[2] == 'A' && IB()[2] == 'B';
  }

  lemma TwoRefs()
    ensures Refs(TwoDoc, 0, [[0]]) == [Program(0), Schedule(0, [0]), Service(0)]
    ensures Refs(TwoDoc, 1, [[1]]) == [Program(1), Schedule(1, [1]), Service(1)]
    ensures Refs(TwoDoc, 0, [[]]) == [Service(0)]
  {
    ChannelRefsAgree(TwoDoc, 0, [0]);
    ChannelRefsAgree(TwoDoc, 1, [1]);
    ChannelRefsAgree(TwoDoc, 0, []);
  }

  /** A key of its own, not emitted yet. */
  lemma PlainKey(t: Table, base: string)
    requires !Emitted(t, base) && |base| <= KEY_MAX
    ensures FreeKey(t, base, 1) == Some(base)
  {
  }

  /** The second key of a base. */
  lemma SecondKey(t: Table, base: string)
    requires Emitted(t, base) && !Emitted(t, Suffixed(base, 2)) && |Suffixed(base, 2)| <= KEY_MAX && |base| <= KEY_MAX
    ensures FreeKey(t, base, 1) == Some(Suffixed(base, 2))
  {
  }

  function Fr(id: nat, gen: nat): Frag {
    Frag(id, gen, Seen)
  }

  function R3(refs: seq<Ref>, a: nat, b: nat, c: nat): seq<FragRef>
    requires |refs| == 3
  {
    [FragRef(refs[0], Offset(0, 0), a, 1), FragRef(refs[1], Offset(0, 0), b, 1), FragRef(refs[2], Offset(0, 0), c, 1)]
  }

  /** A container of three fragments that are all new. */
  lemma ThreeNew(t: Table, doc: Doc, refs: seq<Ref>, a: string, b: string, c: string)
    requires |refs| == 3 && a != b && a != c && b != c && a !in t.frags && b !in t.frags && c !in t.frags
             && t.next + 3 <= ID_MAX
    requires |Base(doc, refs[0])| <= BASE_MAX && |b| <= BASE_MAX && |c| <= BASE_MAX
    requires FreeKey(t, Base(doc, refs[0]), 1) == Some(a) && Base(doc, refs[1]) == b && Base(doc, refs[2]) == c
    ensures Walk(t, doc, refs, Some(EmptyUnit(3)), 3)
         == Walked(Table(t.frags[a := Fr(t.next + 1, t.gen)][b := Fr(t.next + 2, t.gen)][c := Fr(t.next + 3, t.gen)],
                         t.next + 3, t.gen),
                   true, R3(refs, t.next + 1, t.next + 2, t.next + 3))
  {
    hide FreeKey, Base, Walk, UnitOk, Piece, EmptyUnit;
    WalkNone(t, doc, refs);
    NewFragment(t, doc, refs, 0, a);
    var t1 := Walk(t, doc, refs, Some(EmptyUnit(3)), 1).table;
    PlainKey(t1, b);
    NewFragment(t, doc, refs, 1, b);
    var t2 := Walk(t, doc, refs, Some(EmptyUnit(3)), 2).table;
    PlainKey(t2, c);
    NewFragment(t, doc, refs, 2, c);
  }

  lemma WalkNone(t: Table, doc: Doc, refs: seq<Ref>)
    ensures Walk(t, doc, refs, Some(EmptyUnit(|refs|)), 0) == Walked(t, true, [])
  {
  }

  /** A container of three fragments that are all known under their bases. */
  lemma ThreeOld(t: Table, doc: Doc, refs: seq<Ref>, a: string, b: string, c: string)
    requires |refs| == 3 && a != b && a != c && b != c && a in t.frags && b in t.frags && c in t.frags
    requires t.frags[a].ver == Seen && t.frags[b].ver == Seen && t.frags[c].ver == Seen
    requires !Emitted(t, a) && !Emitted(t, b) && !Emitted(t, c)
    requires |a| <= BASE_MAX && |b| <= BASE_MAX && |c| <= BASE_MAX
    requires Base(doc, refs[0]) == a && Base(doc, refs[1]) == b && Base(doc, refs[2]) == c
    ensures var w := Walk(t, doc, refs, Some(EmptyUnit(3)), 3);
            w.ok && w.refs == R3(refs, t.frags[a].id, t.frags[b].id, t.frags[c].id)
  {
    hide FreeKey, Base, Walk, UnitOk, Piece, EmptyUnit;
    WalkNone(t, doc, refs);
    PlainKey(t, a);
    OldFragment(t, doc, refs, 0, a);
    var t1 := Walk(t, doc, refs, Some(EmptyUnit(3)), 1).table;
    PlainKey(t1, b);
    OldFragment(t, doc, refs, 1, b);
    var t2 := Walk(t, doc, refs, Some(EmptyUnit(3)), 2).table;
    PlainKey(t2, c);
    OldFragment(t, doc, refs, 2, c);
  }

  /** A container of one fragment known under its base. */
  lemma OneOld(t: Table, doc: Doc, refs: seq<Ref>, a: string)
    requires |refs| == 1 && a in t.frags && t.frags[a].ver == Seen && !Emitted(t, a) && |a| <= BASE_MAX
             && Base(doc, refs[0]) == a
    ensures Walk(t, doc, refs, Some(EmptyUnit(1)), 1)
         == Walked(t.(frags := t.frags[a := t.frags[a].(gen := t.gen)]), true,
                   [FragRef(refs[0], Offset(0, 0), t.frags[a].id, 1)])
  {
    hide FreeKey, Base, Walk, UnitOk, Piece, EmptyUnit;
    WalkNone(t, doc, refs);
    PlainKey(t, a);
    OldFragment(t, doc, refs, 0, a);
  }

  lemma SortedThree(refs: seq<Ref>, a: nat, b: nat, c: nat)
    requires |refs| == 3 && a < b < c
    ensures Ids(Slots(SortById(R3(refs, a, b, c)))) == [a, b, c]
  {
    var s := R3(refs, a, b, c);
    assert SortById(s[3..]) == [];
    assert s[2..][1..] == s[3..] && s[1..][1..] == s[2..];
    assert SortById(s[2..]) == [s[2]];
    assert SortById(s[1..]) == [s[1], s[2]];
    assert SortById(s) == s;
  }

  /** What encoding one container does in this environment, given its walk. */
  lemma EncodesTo(kinds: set<Kind>, w: Work, doc: Doc, g: nat, from: nat, sels: Selection, a: Walked)
    requires g < |w.out.vers|
             && a == Walk(w.table, doc, Refs(doc, from, sels), Some(EmptyUnit(|Refs(doc, from, sels)|)),
                          |Refs(doc, from, sels)|)
    requires a.ok
    ensures var cont := Ids(Slots(SortById(a.refs)));
            EncodeGroup(MakeEnv(kinds), w, doc, g, from, sels)
            == Step(Work(a.table, w.entries + Entries(MakeEnv(kinds), doc, SortById(a.refs), g + 1),
                         w.out.(vers := w.out.vers[g := SetVersion(w.out.vers[g], cont, 256)],
                                seg := w.out.seg + [cont],
                                nfuu := w.out.nfuu + |a.refs|)), true)
  {
    hide Walk, Refs, SortById, Slots, Entries, Ids;
  }

  function TwoTable(gen: nat): Table {
    Table(map[KX() := Fr(1, 1), SA() := Fr(2, 1), IA() := Fr(3, 1), KX2() := Fr(4, 1), SB() := Fr(5, 1),
              IB() := Fr(6, 1)], 6, gen)
  }

  ghost predicate TwoPublished(ctx: Ctx) {
    && ctx.table == TwoTable(1)
    && ctx.out.seg == [[1, 2, 3], [4, 5, 6]] && |ctx.out.vers| == 2
    && ctx.out.sels == Some([[0], [1]]) && ctx.out.srcGen == 0 && ctx.out.mainSeg == None
  }

  // ----- Builds of two channels -----

  lemma TwoBounds(env: Env, doc: Doc, sels: Selection)
    requires |sels| == 2
    ensures Plan(env, doc, sels) == Some([0, 1, 2]) && BoundsOk([0, 1, 2], 2)
    ensures sels[0..1] == [sels[0]] && sels[1..2] == [sels[1]]
  {
    assert seq(3, i => i) == [0, 1, 2];
  }

  lemma TwoGroups(env: Env, w: Work, prev: Out, doc: Doc, sels: Selection, reuse: bool)
    requires |sels| == 2 && |w.out.vers| >= 2 && BoundsOk([0, 1, 2], 2)
    requires Group(env, w, prev, doc, sels, [0, 1, 2], reuse, 0).ok
    ensures var w1 := Group(env, w, prev, doc, sels, [0, 1, 2], reuse, 0).work;
            Groups(env, w, prev, doc, sels, [0, 1, 2], reuse, 2)
              == Group(env, w1, prev, doc, sels, [0, 1, 2], reuse, 1)
  {
    hide Group, BoundsOk, Groups;
    GroupsUnfold(env, w, prev, doc, sels, [0, 1, 2], reuse, 0);
    GroupsUnfold(env, w, prev, doc, sels, [0, 1, 2], reuse, 1);
    GroupsUnfold(env, w, prev, doc, sels, [0, 1, 2], reuse, 2);
  }

  /** Without operator fragment and index, a build ends by pruning. */
  lemma EndsPruned(env: Env, w: Work, prev: Out, doc: Doc, first: nat, reuse: bool)
    requires !env.publisher && env.kinds == {}
    ensures Finish(env, w, prev, doc, first, reuse) == Built(Ctx(Prune(w.table), w.out), true)
  {
  }

  /** A build of the two channels, container by container. */
  lemma TwoBuild(env: Env, ctx: Ctx, doc: Doc, srcGen: nat, sels: Selection, reuse: bool, w1: Work, s2: Step)
    requires |sels| == 2 && BoundsOk([0, 1, 2], 2) && |w1.out.vers| >= 2 && !env.publisher && env.kinds == {}
    requires Group(env, Begin(ctx, sels, [0, 1, 2], srcGen), ctx.out, doc, sels, [0, 1, 2], reuse, 0) == Step(w1, true)
    requires Group(env, w1, ctx.out, doc, sels, [0, 1, 2], reuse, 1) == s2
    ensures Build(env, ctx, doc, srcGen, sels, reuse)
         == if s2.ok then Built(Ctx(Prune(s2.work.table), s2.work.out), true)
            else Built(Ctx(s2.work.table, ctx.out), false)
  {
    hide *;
    TwoBounds(env, doc, sels);
    BuildUnfold(env, ctx, doc, srcGen, sels, reuse);
    TwoGroups(env, Begin(ctx, sels, [0, 1, 2], srcGen), ctx.out, doc, sels, reuse);
    BuildGroupsAre(env, ctx, doc, srcGen, sels, [0, 1, 2], reuse);
    EndsPruned(env, s2.work, ctx.out, doc, 3, reuse);
  }

  lemma PlainGroup(env: Env, w: Work, prev: Out, doc: Doc, sels: Selection, g: nat, reuse: bool)
    requires |sels| == 2 && BoundsOk([0, 1, 2], 2) && g < 2 && |w.out.vers| >= 2
    requires !reuse || !Same(prev, w.out, g)
    ensures Group(env, w, prev, doc, sels, [0, 1, 2], reuse, g) == EncodeGroup(env, w, doc, g, g, [sels[g]])
  {
    hide EncodeGroup, ReuseGroup, BoundsOk, Same;
    var b := [0, 1, 2];
    assert b[g] == g && b[g + 1] == g + 1 && sels[g..g + 1] == [sels[g]];
  }

  lemma SameGroup(env: Env, w: Work, prev: Out, doc: Doc, sels: Selection, g: nat)
    requires |sels| == 2 && BoundsOk([0, 1, 2], 2) && g < 2 && |w.out.vers| >= 2 && Same(prev, w.out, g)
    ensures g < |prev.seg|
    ensures Group(env, w, prev, doc, sels, [0, 1, 2], true, g) == ReuseGroup(env, w, prev, doc, g, sels[g])
  {
    hide ReuseGroup, EncodeGroup, BoundsOk;
  }

  // ----- One CRID in two channels, container by container -----

  lemma FirstA(w: Work)
    requires w.table == Table(map[], 0, 1) && |w.out.vers| >= 2 && w.out.seg == []
    ensures var s := EncodeGroup(MakeEnv({}), w, TwoDoc, 0, 0, [[0]]);
            && s.ok && s.work.table == Table(map[KX() := Fr(1, 1), SA() := Fr(2, 1), IA() := Fr(3, 1)], 3, 1)
            && s.work.out.seg == [[1, 2, 3]] && s.work.out.sels == w.out.sels && s.work.out.srcGen == w.out.srcGen
            && s.work.out.mainSeg == w.out.mainSeg
  {
    hide Base, Walk, Refs, EncodeGroup, FreeKey, KX, SA, IA, KX2, SB, IB, MakeEnv, SortById, Entries;
    Names();
    NamesDiffer();
    TwoRefs();
    var refs := Refs(TwoDoc, 0, [[0]]);
    PlainKey(w.table, KX());
    ThreeNew(w.table, TwoDoc, refs, KX(), SA(), IA());
    SortedThree(refs, 1, 2, 3);
    EncodesTo({}, w, TwoDoc, 0, 0, [[0]], Walk(w.table, TwoDoc, refs, Some(EmptyUnit(3)), 3));
  }

  lemma FirstB(w: Work)
    requires w.table == Table(map[KX() := Fr(1, 1), SA() := Fr(2, 1), IA() := Fr(3, 1)], 3, 1) && |w.out.vers| >= 2
    ensures var s := EncodeGroup(MakeEnv({}), w, TwoDoc, 1, 1, [[1]]);
            && s.ok && s.work.table == TwoTable(1)
            && s.work.out.seg == w.out.seg + [[4, 5, 6]] && s.work.out.sels == w.out.sels
               && s.work.out.srcGen == w.out.srcGen
            && s.work.out.mainSeg == w.out.mainSeg
  {
    hide Base, Walk, Refs, EncodeGroup, FreeKey, KX, SA, IA, KX2, SB, IB, MakeEnv, SortById, Entries;
    Names();
    NamesDiffer();
    TwoRefs();
    var refs := Refs(TwoDoc, 1, [[1]]);
    SecondKey(w.table, KX());
    ThreeNew(w.table, TwoDoc, refs, KX2(), SB(), IB());
    SortedThree(refs, 4, 5, 6);
    EncodesTo({}, w, TwoDoc, 1, 1, [[1]], Walk(w.table, TwoDoc, refs, Some(EmptyUnit(3)), 3));
  }

  lemma PlainEnv()
    ensures !MakeEnv({}).publisher && MakeEnv({}).kinds == {}
  {
  }

  lemma SameCarries(prev: Out, a: Out, b: Out, g: nat)
    requires Same(prev, a, g) && b.sels == a.sels && b.srcGen == a.srcGen
    ensures Same(prev, b, g)
  {
  }

  lemma FirstBegin()
    ensures var w := Begin(Start, [[0], [1]], [0, 1, 2], 0);
            && w.table == Table(map[], 0, 1) && |w.out.vers| == 2 && w.out.seg == []
            && w.out.sels == Some([[0], [1]]) && w.out.srcGen == 0 && w.out.mainSeg == None
  {
  }

  lemma AllEmittedStays(t: Table)
    requires forall k :: k in t.frags ==> t.frags[k].gen == t.gen
    ensures Prune(t) == t
  {
    assert Prune(t).frags == t.frags;
  }

  /** The first build of both channels: the second programme gets a suffix. */
  lemma FirstBuild()
    ensures var r := Build(MakeEnv({}), Start, TwoDoc, 0, [[0], [1]], false);
            r.ok && TwoPublished(r.ctx)
  {
    hide EncodeGroup, Groups, Group, Finish, MakeEnv, KX, SA, IA, KX2, SB, IB, Plan, BoundsOk, Begin, Build, Prune,
         Same;
    var env, sels := MakeEnv({}), [[0], [1]];
    TwoBounds(env, TwoDoc, sels);
    PlainEnv();
    FirstBegin();
    var w := Begin(Start, sels, [0, 1, 2], 0);
    FirstA(w);
    PlainGroup(env, w, Start.out, TwoDoc, sels, 0, false);
    var w1 := EncodeGroup(env, w, TwoDoc, 0, 0, [[0]]).work;
    FirstB(w1);
    PlainGroup(env, w1, Start.out, TwoDoc, sels, 1, false);
    var w2 := EncodeGroup(env, w1, TwoDoc, 1, 1, [[1]]).work;
    TwoBuild(env, Start, TwoDoc, 0, sels, false, w1, Step(w2, true));
    AllEmittedStays(TwoTable(1));
  }

  // The second build: channel A loses its programme, channel B is unchanged.

  lemma SecondBegin(ctx: Ctx)
    requires TwoPublished(ctx)
    ensures var w := Begin(ctx, [[], [1]], [0, 1, 2], 0);
            && w.table == TwoTable(2) && |w.out.vers| == 2 && w.out.seg == [] && w.out.sels == Some([[], [1]])
               && w.out.srcGen == 0
            && !Same(ctx.out, w.out, 0) && Same(ctx.out, w.out, 1)
  {
    hide KX, SA, IA, KX2, SB, IB;
  }

  lemma SecondA(w: Work)
    requires w.table == TwoTable(2) && |w.out.vers| >= 2 && w.out.seg == []
    ensures var s := EncodeGroup(MakeEnv({}), w, TwoDoc, 0, 0, [[]]);
            && s.ok && s.work.table == TwoTable(2).(frags := TwoTable(2).frags[IA() := Fr(3, 2)])
            && |s.work.out.seg| == 1 && s.work.out.sels == w.out.sels && s.work.out.srcGen == w.out.srcGen
  {
    hide Base, Walk, Refs, EncodeGroup, FreeKey, KX, SA, IA, KX2, SB, IB, MakeEnv, SortById, Entries;
    Names();
    NamesDiffer();
    TwoRefs();
    var refs := Refs(TwoDoc, 0, [[]]);
    OneOld(w.table, TwoDoc, refs, IA());
    EncodesTo({}, w, TwoDoc, 0, 0, [[]], Walk(w.table, TwoDoc, refs, Some(EmptyUnit(1)), 1));
  }

  /** Encoded again, channel B's programme is found under the plain key, with identifier 1. */
  lemma SecondB(w: Work)
    requires w.table == TwoTable(2).(frags := TwoTable(2).frags[IA() := Fr(3, 2)]) && |w.out.vers| >= 2
             && |w.out.seg| == 1
    ensures var s := EncodeGroup(MakeEnv({}), w, TwoDoc, 1, 1, [[1]]);
            s.ok && s.work.out.seg == w.out.seg + [[1, 5, 6]]
  {
    hide Base, Walk, Refs, EncodeGroup, FreeKey, KX, SA, IA, KX2, SB, IB, MakeEnv, SortById, Entries;
    Names();
    NamesDiffer();
    TwoRefs();
    var refs := Refs(TwoDoc, 1, [[1]]);
    ThreeOld(w.table, TwoDoc, refs, KX(), SB(), IB());
    SortedThree(refs, 1, 5, 6);
    EncodesTo({}, w, TwoDoc, 1, 1, [[1]], Walk(w.table, TwoDoc, refs, Some(EmptyUnit(3)), 3));
  }

  /** Fragments of three kinds are known under their bases. */
  lemma ThreeKeys(doc: Doc, refs: seq<Ref>)
    requires |refs| == 3 && refs[0].Program? && refs[1].Schedule? && refs[2].Service?
    ensures Key(doc, refs, 0) == Base(doc, refs[0]) && Key(doc, refs, 1) == Base(doc, refs[1])
            && Key(doc, refs, 2) == Base(doc, refs[2])
    ensures Keys(doc, refs, 3) == {Base(doc, refs[0]), Base(doc, refs[1]), Base(doc, refs[2])}
  {
    hide Base, Key;
    FirstOfKind(doc, refs, 0);
    FirstOfKind(doc, refs, 1);
    FirstOfKind(doc, refs, 2);
    assert Keys(doc, refs, 0) == {};
    assert Keys(doc, refs, 1) == Keys(doc, refs, 0) + {Key(doc, refs, 0)};
    assert Keys(doc, refs, 2) == Keys(doc, refs, 1) + {Key(doc, refs, 1)};
    assert Keys(doc, refs, 3) == Keys(doc, refs, 2) + {Key(doc, refs, 2)};
  }

  /** Touching three known fragments succeeds. */
  lemma ThreeTouched(t: Table, doc: Doc, refs: seq<Ref>, a: string, b: string, c: string)
    requires |refs| == 3 && refs[0].Program? && refs[1].Schedule? && refs[2].Service?
    requires a in t.frags && b in t.frags && c in t.frags && |a| <= BASE_MAX && |b| <= BASE_MAX && |c| <= BASE_MAX
    requires t.frags[a].ver == Seen && t.frags[b].ver == Seen && t.frags[c].ver == Seen
    requires !Emitted(t, a) && !Emitted(t, b) && !Emitted(t, c)
    requires Base(doc, refs[0]) == a && Base(doc, refs[1]) == b && Base(doc, refs[2]) == c
    ensures Walk(t, doc, refs, None, 3).ok
  {
    hide Base, Key, Keys, Walk, Piece, EmptyUnit, UnitOk;
    ThreeKeys(doc, refs);
    var u := EmptyUnit(3);
    assert RecordedAt(t, doc, refs, u, 0) && RecordedAt(t, doc, refs, u, 1) && RecordedAt(t, doc, refs, u, 2);
    WalkTouches(t, doc, refs, u, 3);
  }

  /** Reused, channel B's container still says 4. */
  lemma ReusedB(w: Work, prev: Out)
    requires w.table == TwoTable(2).(frags := TwoTable(2).frags[IA() := Fr(3, 2)])
    requires |w.out.vers| >= 2 && |w.out.seg| == 1 && |prev.seg| == 2
    ensures var s := ReuseGroup(MakeEnv({}), w, prev, TwoDoc, 1, [1]);
            s.ok && s.work.out.seg == w.out.seg + [prev.seg[1]]
  {
    hide Walk, Entries, ChannelRefs, MakeEnv, Refs, Base, KX, SA, IA, KX2, SB, IB;
    Names();
    NamesDiffer();
    TwoRefs();
    ChannelRefsAgree(TwoDoc, 1, [1]);
    ThreeTouched(w.table, TwoDoc, Refs(TwoDoc, 1, [[1]]), KX(), SB(), IB());
  }

  /**
   * Why the keys matter: with one CRID in two channels, which no delivered document has, a build that
   * changes only the other channel publishes another container when it reuses this one.
   */
  lemma SharedCridDrifts()
    ensures var env := MakeEnv({});
            var first := Build(env, Start, TwoDoc, 0, [[0], [1]], true);
            var full := Build(env, first.ctx, TwoDoc, 0, [[], [1]], false);
            var reused := Build(env, first.ctx, TwoDoc, 0, [[], [1]], true);
            && first.ok && full.ok && reused.ok
            && |full.ctx.out.seg| == |reused.ctx.out.seg| == 2 && full.ctx.out.seg[1] != reused.ctx.out.seg[1]
  {
    hide EncodeGroup, ReuseGroup, Groups, Group, Finish, MakeEnv, KX, SA, IA, KX2, SB, IB, Plan, BoundsOk, Begin,
         Build, Prune, Same;
    var env, sels := MakeEnv({}), [[], [1]];
    FirstBuild();
    FirstEqual();
    var ctx := Build(env, Start, TwoDoc, 0, [[0], [1]], true).ctx;
    TwoBounds(env, TwoDoc, sels);
    PlainEnv();
    SecondBegin(ctx);
    var w := Begin(ctx, sels, [0, 1, 2], 0);
    SecondA(w);
    PlainGroup(env, w, ctx.out, TwoDoc, sels, 0, false);
    PlainGroup(env, w, ctx.out, TwoDoc, sels, 0, true);
    var w1 := EncodeGroup(env, w, TwoDoc, 0, 0, [[]]).work;
    SecondB(w1);
    PlainGroup(env, w1, ctx.out, TwoDoc, sels, 1, false);
    TwoBuild(env, ctx, TwoDoc, 0, sels, false, w1, EncodeGroup(env, w1, TwoDoc, 1, 1, [[1]]));
    ReusedB(w1, ctx.out);
    SameCarries(ctx.out, w.out, w1.out, 1);
    SameGroup(env, w1, ctx.out, TwoDoc, sels, 1);
    TwoBuild(env, ctx, TwoDoc, 0, sels, true, w1, ReuseGroup(env, w1, ctx.out, TwoDoc, 1, [1]));
    var x, y := w1.out.seg + [[1, 5, 6]], w1.out.seg + [[4, 5, 6]];
    assert x[1] == [1, 5, 6] && y[1] == [4, 5, 6] && x[1][0] != y[1][0];
  }

  /** Nothing is reused in a first build. */
  lemma FirstEqual()
    ensures Build(MakeEnv({}), Start, TwoDoc, 0, [[0], [1]], true)
            == Build(MakeEnv({}), Start, TwoDoc, 0, [[0], [1]], false)
  {
    hide EncodeGroup, Groups, Finish, MakeEnv, Plan, BoundsOk, Begin, Build, Prune;
    var env, sels := MakeEnv({}), [[0], [1]];
    TwoBounds(env, TwoDoc, sels);
    PlainEnv();
    FirstBegin();
    var w := Begin(Start, sels, [0, 1, 2], 0);
    FirstA(w);
    PlainGroup(env, w, Start.out, TwoDoc, sels, 0, true);
    PlainGroup(env, w, Start.out, TwoDoc, sels, 0, false);
    var w1 := EncodeGroup(env, w, TwoDoc, 0, 0, [[0]]).work;
    FirstB(w1);
    PlainGroup(env, w1, Start.out, TwoDoc, sels, 1, true);
    PlainGroup(env, w1, Start.out, TwoDoc, sels, 1, false);
    var w2 := EncodeGroup(env, w1, TwoDoc, 1, 1, [[1]]).work;
    TwoBuild(env, Start, TwoDoc, 0, sels, false, w1, Step(w2, true));
    TwoBuild(env, Start, TwoDoc, 0, sels, true, w1, Step(w2, true));
  }

  // ----- A failed reload -----

  const DriftSource := Source([RawChannel("A", true), RawChannel("B", false)], [RawProgramme("B", "", None)])
  const DriftReload := Source([RawChannel("A", true), RawChannel("B", true)], [RawProgramme("B", "", None)])

  function Versions(slots: seq<Slot>): Bytes {
    seq(|slots|, i requires 0 <= i < |slots| => slots[i].version)
  }

  /**
   * Channel A's service has content 1, and content 2 once channel B is announced. B's own service is
   * then too large for a container. A container is its fragments' contents and versions.
   */
  function DriftEnv(): Env {
    Env(false, {},
        (doc: Doc, from: nat, sels: Selection) =>
          Some(if from == 0 then Unit([if Announced(doc, 1) then 2 else 1], [], [Offset(0, 0)])
               else if Announced(doc, 1) then Unit(seq(REPO_MAX + 1, _ => 0), [], [Offset(0, 0)])
               else Unit([], [], [])),
        None,
        (au: Bytes, strs: Bytes, slots: seq<Slot>) => Some(au + Versions(slots)),
        (b: Bytes) => Some(b),
        (entries: multiset<IndexEntry>, first: nat) => Some([]),
        (doc: Doc, sel: seq<nat>) => None,
        (doc: Doc, sels: Selection) => None)
  }

  /** Two channels A and B, of which A is announced. */
  ghost predicate DriftDoc(doc: Doc, both: bool) {
    |doc.channels| == 2 && Id(doc, 0) == "A" && Announced(doc, 0) && (Announced(doc, 1) <==> both)
  }

  lemma DriftChannels(both: bool)
    ensures var cs := [RawChannel("A", true), RawChannel("B", both)]; FirstOnly(cs) == cs
  {
    var cs := [RawChannel("A", true), RawChannel("B", both)];
    assert cs[..1] == [cs[0]] && cs[..1][..0] == [];
    assert !Has([], "A") && "A"[0] != "B"[0];
    assert FirstOnly(cs[..1]) == [cs[0]];
    assert !Has(cs[..1], "B");
  }

  lemma DriftDelivered(utc: string -> Option<string>)
    ensures DriftDoc(Deliver(utc, DriftSource), false) && DriftDoc(Deliver(utc, DriftReload), true)
    ensures Split(DriftSource, []) == [[], []] && Split(DriftReload, []) == [[], []]
    ensures Split(DriftSource, [0]) == [[], [0]]
  {
    DriftChannels(false);
    DriftChannels(true);
    hide BuildCrid, FirstOnly;
    assert "A"[0] != "B"[0];
    assert OfChannel(DriftSource, "A", [0][1..]) == [] && OfChannel(DriftSource, "B", [0][1..]) == [];
    assert OfChannel(DriftSource, "A", [0]) == [] && OfChannel(DriftSource, "B", [0]) == [0];
  }

  lemma DriftRefs(doc: Doc, both: bool, sel: seq<nat>)
    requires DriftDoc(doc, both)
    ensures Refs(doc, 0, [[]]) == [Service(0)] == ChannelRefs(doc, 0, []) && Base(doc, Service(0)) == IA()
    ensures !both ==> Refs(doc, 1, [sel]) == []
    ensures both ==> Refs(doc, 1, [[]]) == [Service(1)]
  {
    ChannelRefsAgree(doc, 0, []);
    ChannelRefsAgree(doc, 1, sel);
    ChannelRefsAgree(doc, 1, []);
  }

  /** The table with channel A's service under identifier 1. */
  function DriftTable(gen: nat, now: nat, ver: Version): Table {
    Table(map[IA() := Frag(1, gen, ver)], 1, now)
  }

  /** Channel A's service is walked: made, or given its next version when its content changes. */
  lemma DriftWalk(t: Table, doc: Doc, both: bool, gen: nat, ver: Version, now: nat)
    requires DriftDoc(doc, both) && gen < now
    requires t == DriftTable(gen, now, ver) || (t == Table(map[], 0, now) && ver == Unset)
    ensures var u := Unit([if both then 2 else 1], [], [Offset(0, 0)]);
            var v := SetVersion(ver, [if both then 2 else 1], 255);
            && UnitOk(u, 1)
            && Walk(t, doc, [Service(0)], Some(u), 1)
               == Walked(DriftTable(now, now, v), true, [FragRef(Service(0), Offset(0, 0), 1, v.number)])
  {
    DriftRefs(doc, both, []);
    hide Refs, ChannelRefs, IA, Announced;
    assert |IA()| <= KEY_MAX by { NamesDiffer(); }
    var u := Unit([if both then 2 else 1], [], [Offset(0, 0)]);
    assert Piece(u, 0) == u.au;
    assert !Emitted(t, IA());
    PlainKey(t, IA());
    hide FreeKey, Base, SetVersion;
    var m := Mark(t, IA());
    assert m.table.frags == map[IA() := Frag(1, now, ver)];
    assert Walk(t, doc, [Service(0)], Some(u), 0) == Walked(t, true, []);
    assert Record(m.table, IA(), u.au).frags == map[IA() := Frag(1, now, SetVersion(ver, u.au, 255))];
  }

  lemma OneSlot(r: FragRef)
    ensures Versions(Slots(SortById([r]))) == [r.version]
  {
    assert [r][1..] == [];
  }

  /** What encoding a container does, given its parts. */
  lemma EncodeDoes(env: Env, w: Work, doc: Doc, g: nat, from: nat, sels: Selection, u: Unit, a: Walked, cont: Bytes)
    requires g < |w.out.vers| && Encode(env, doc, from, sels) == Some(u) && Fits(u)
    requires a == Walk(w.table, doc, Refs(doc, from, sels), Some(u), |Refs(doc, from, sels)|) && a.ok
    requires env.container(u.au, u.strs, Slots(SortById(a.refs))) == Some(cont) && env.wrap(cont) == Some(cont)
    ensures var s := EncodeGroup(env, w, doc, g, from, sels);
            && s.ok && s.work.table == a.table && s.work.out.seg == w.out.seg + [cont]
            && s.work.out.sels == w.out.sels && s.work.out.srcGen == w.out.srcGen && s.work.out.mainSeg == w.out.mainSeg
            && |s.work.out.vers| == |w.out.vers|
  {
    hide Encode, Fits, Walk, Refs, SortById, Slots, Entries;
  }

  lemma DriftEncode(doc: Doc, both: bool, sel: seq<nat>)
    requires DriftDoc(doc, both)
    ensures var u := Unit([if both then 2 else 1], [], [Offset(0, 0)]);
            Encode(DriftEnv(), doc, 0, [[]]) == Some(u) && Fits(u)
    ensures both ==> Encode(DriftEnv(), doc, 1, [[]]).Some? && !Fits(Encode(DriftEnv(), doc, 1, [[]]).value)
    ensures !both ==> Encode(DriftEnv(), doc, 1, [sel]) == Some(Unit([], [], []))
  {
    DriftRefs(doc, both, sel);
    hide Refs, ChannelRefs, Announced;
  }

  /** Channel A encoded: its content and the version of its fragment. */
  lemma DriftA(w: Work, doc: Doc, both: bool, gen: nat, ver: Version, now: nat)
    requires DriftDoc(doc, both) && gen < now && |w.out.vers| >= 2
    requires w.table == DriftTable(gen, now, ver) || (w.table == Table(map[], 0, now) && ver == Unset)
    ensures var content := if both then 2 else 1;
            var v := SetVersion(ver, [content], 255);
            var s := EncodeGroup(DriftEnv(), w, doc, 0, 0, [[]]);
            && s.ok && s.work.table == DriftTable(now, now, v) && s.work.out.seg == w.out.seg + [[content, v.number]]
            && s.work.out.sels == w.out.sels && s.work.out.srcGen == w.out.srcGen && s.work.out.mainSeg == w.out.mainSeg
            && |s.work.out.vers| == |w.out.vers|
  {
    hide Refs, ChannelRefs, Walk, SortById, Slots, Versions, SetVersion, Base, DriftTable, Encode, Fits, EncodeGroup,
         DriftDoc;
    var content := if both then 2 else 1;
    var v := SetVersion(ver, [content], 255);
    var u := Unit([content], [], [Offset(0, 0)]);
    DriftRefs(doc, both, []);
    DriftEncode(doc, both, []);
    DriftWalk(w.table, doc, both, gen, ver, now);
    OneSlot(FragRef(Service(0), Offset(0, 0), 1, v.number));
    var a := Walk(w.table, doc, [Service(0)], Some(u), 1);
    assert [content] + [v.number] == [content, v.number];
    EncodeDoes(DriftEnv(), w, doc, 0, 0, [[]], u, a, [content, v.number]);
  }

  /** Channel B while it is not announced: an empty container. */
  lemma DriftB(w: Work, doc: Doc, sel: seq<nat>)
    requires DriftDoc(doc, false) && |w.out.vers| >= 2
    ensures var s := EncodeGroup(DriftEnv(), w, doc, 1, 1, [sel]);
            && s.ok && s.work.table == w.table && s.work.out.seg == w.out.seg + [[]]
            && s.work.out.sels == w.out.sels && s.work.out.srcGen == w.out.srcGen && s.work.out.mainSeg == w.out.mainSeg
            && |s.work.out.vers| == |w.out.vers|
  {
    DriftRefs(doc, false, sel);
    DriftEncode(doc, false, sel);
    var a := Walk(w.table, doc, Refs(doc, 1, [sel]), Some(Unit([], [], [])), 0);
    assert SortById([]) == [] && Versions(Slots([])) == [];
    hide Refs, ChannelRefs, Encode, Fits, EncodeGroup, DriftDoc, SortById, Slots, Versions;
    EncodeDoes(DriftEnv(), w, doc, 1, 1, [sel], Unit([], [], []), a, []);
  }

  /** Channel B once it is announced: too large, before anything of it is recorded. */
  lemma DriftTooLarge(w: Work, doc: Doc)
    requires DriftDoc(doc, true) && |w.out.vers| >= 2
    ensures EncodeGroup(DriftEnv(), w, doc, 1, 1, [[]]) == Step(w, false)
  {
    DriftEncode(doc, true, []);
    hide Encode, Fits;
  }

  /** Channel A copied. */
  lemma DriftCopy(w: Work, prev: Out, doc: Doc, gen: nat, ver: Version, now: nat)
    requires DriftDoc(doc, false) && gen < now && |w.out.vers| >= 2 && |prev.seg| >= 2
    requires w.table == DriftTable(gen, now, ver)
    ensures var s := ReuseGroup(DriftEnv(), w, prev, doc, 0, []);
            && s.ok && s.work.out.seg == w.out.seg + [prev.seg[0]] && |s.work.out.vers| == |w.out.vers|
            && s.work.out.sels == w.out.sels && s.work.out.srcGen == w.out.srcGen
  {
    DriftRefs(doc, false, []);
    NamesDiffer();
    var t := w.table;
    assert !Emitted(t, IA()) && |IA()| <= KEY_MAX;
    PlainKey(t, IA());
    hide Refs, ChannelRefs, Entries, FreeKey, IA, DriftDoc;
    assert Walk(t, doc, [Service(0)], None, 0) == Walked(t, true, []);
    assert Walk(t, doc, [Service(0)], None, 1).ok;
  }

  const DriftV1 := Version(1, true, Some([1]))
  const DriftV2 := Version(2, true, Some([2]))

  /** What is published after the first build, and stays published when the reload fails. */
  ghost predicate DriftPublished(o: Out) {
    && o.seg == [[1, 1], []] && o.sels == Some([[], []]) && o.srcGen == 0 && |o.vers| == 2 && o.mainSeg == None
  }

  lemma DriftEnvPlain()
    ensures !DriftEnv().publisher && DriftEnv().kinds == {}
  {
  }

  lemma DriftPrunes(now: nat, ver: Version)
    ensures Prune(DriftTable(now, now, ver)) == DriftTable(now, now, ver)
  {
    assert Prune(DriftTable(now, now, ver)).frags == DriftTable(now, now, ver).frags;
  }

  lemma DriftFirst(doc: Doc, reuse: bool)
    requires DriftDoc(doc, false)
    ensures var r := Build(DriftEnv(), Start, doc, 0, [[], []], reuse);
            r.ok && r.ctx.table == DriftTable(1, 1, DriftV1) && DriftPublished(r.ctx.out)
  {
    hide DriftEnv, EncodeGroup, DriftDoc, DriftTable, Plan, BoundsOk, Build, Prune, Group, Same, Begin;
    var env, sels := DriftEnv(), [[], []];
    TwoBounds(env, doc, sels);
    DriftEnvPlain();
    var w := Begin(Start, sels, [0, 1, 2], 0);
    StartBegins();
    DriftA(w, doc, false, 0, Unset, 1);
    PlainGroup(env, w, Start.out, doc, sels, 0, reuse);
    var w1 := EncodeGroup(env, w, doc, 0, 0, [[]]).work;
    DriftB(w1, doc, []);
    NeverSame(w1.out, 1);
    PlainGroup(env, w1, Start.out, doc, sels, 1, reuse);
    TwoBuild(env, Start, doc, 0, sels, reuse, w1, EncodeGroup(env, w1, doc, 1, 1, [[]]));
    DriftPrunes(1, DriftV1);
  }

  lemma NeverSame(o: Out, g: nat)
    ensures !Same(Start.out, o, g)
  {
  }

  lemma StartBegins()
    ensures var w := Begin(Start, [[], []], [0, 1, 2], 0);
            && w.table == Table(map[], 0, 1) && |w.out.vers| == 2 && w.out.seg == []
            && w.out.sels == Some([[], []]) && w.out.srcGen == 0 && w.out.mainSeg == None && !Same(Start.out, w.out, 0)
  {
  }

  lemma DriftBegins(ctx: Ctx, sels: Selection, gen: nat, now: nat, ver: Version, srcGen: nat)
    requires ctx.table == DriftTable(gen, now, ver) && DriftPublished(ctx.out) && |sels| == 2
    ensures var w := Begin(ctx, sels, [0, 1, 2], srcGen);
            && w.table == DriftTable(gen, now + 1, ver) && |w.out.vers| == 2 && w.out.seg == []
            && w.out.sels == Some(sels) && w.out.srcGen == srcGen && w.out.mainSeg == None
  {
  }

  /** The reload records channel A's new content and fails on channel B. */
  lemma DriftFails(ctx: Ctx, doc: Doc, reuse: bool)
    requires DriftDoc(doc, true) && ctx.table == DriftTable(1, 1, DriftV1) && DriftPublished(ctx.out)
    ensures Build(DriftEnv(), ctx, doc, 1, [[], []], reuse) == Built(Ctx(DriftTable(2, 2, DriftV2), ctx.out), false)
  {
    hide DriftEnv, EncodeGroup, DriftDoc, DriftTable, Plan, BoundsOk, Build, Prune, Group, Begin;
    var env, sels := DriftEnv(), [[], []];
    TwoBounds(env, doc, sels);
    DriftEnvPlain();
    var w := Begin(ctx, sels, [0, 1, 2], 1);
    DriftBegins(ctx, sels, 1, 1, DriftV1, 1);
    DriftA(w, doc, true, 1, DriftV1, 2);
    PlainGroup(env, w, ctx.out, doc, sels, 0, reuse);
    var w1 := EncodeGroup(env, w, doc, 0, 0, [[]]).work;
    DriftTooLarge(w1, doc);
    PlainGroup(env, w1, ctx.out, doc, sels, 1, reuse);
    TwoBuild(env, ctx, doc, 1, sels, reuse, w1, EncodeGroup(env, w1, doc, 1, 1, [[]]));
  }

  /** The next cycle, of the old document. */
  lemma DriftReturns(ctx: Ctx, doc: Doc)
    requires DriftDoc(doc, false) && ctx.table == DriftTable(2, 2, DriftV2) && DriftPublished(ctx.out)
    ensures var full, reused := Build(DriftEnv(), ctx, doc, 0, [[], [0]], false),
            Build(DriftEnv(), ctx, doc, 0, [[], [0]], true);
            full.ok && reused.ok && full.ctx.out.seg == [[1, 3], []] && reused.ctx.out.seg == [[1, 1], []]
  {
    hide DriftEnv, EncodeGroup, ReuseGroup, DriftDoc, DriftTable, Plan, BoundsOk, Build, Prune, Group, Begin;
    var env, sels := DriftEnv(), [[], [0]];
    TwoBounds(env, doc, sels);
    DriftEnvPlain();
    var w := Begin(ctx, sels, [0, 1, 2], 0);
    DriftBegins(ctx, sels, 2, 2, DriftV2, 0);
    DriftA(w, doc, false, 2, DriftV2, 3);
    PlainGroup(env, w, ctx.out, doc, sels, 0, false);
    var w1 := EncodeGroup(env, w, doc, 0, 0, [[]]).work;
    DriftB(w1, doc, [0]);
    PlainGroup(env, w1, ctx.out, doc, sels, 1, false);
    TwoBuild(env, ctx, doc, 0, sels, false, w1, EncodeGroup(env, w1, doc, 1, 1, [[0]]));
    DriftCopy(w, ctx.out, doc, 2, DriftV2, 3);
    SameGroup(env, w, ctx.out, doc, sels, 0);
    var w2 := ReuseGroup(env, w, ctx.out, doc, 0, []).work;
    DriftB(w2, doc, [0]);
    PlainGroup(env, w2, ctx.out, doc, sels, 1, true);
    TwoBuild(env, ctx, doc, 0, sels, true, w2, EncodeGroup(env, w2, doc, 1, 1, [[0]]));
  }

  const DriftEvents := [Cycle([]), Reload(DriftReload, []), Cycle([0])]

  /** The state after the first build, and the one after the failed reload. */
  function DriftState(utc: string -> Option<string>, failed: bool): System {
    var ctx := Build(DriftEnv(), Start, Deliver(utc, DriftSource), 0, [[], []], true).ctx;
    System(DriftSource, 0, if failed then Ctx(DriftTable(2, 2, DriftV2), ctx.out) else ctx)
  }

  lemma DriftNext1(utc: string -> Option<string>, reuse: bool)
    ensures var p, s := Setup(utc, DriftEnv()), System(DriftSource, 0, Start);
            BuildOf(p, s, Cycle([]), reuse).ok && Next(p, s, Cycle([]), reuse) == DriftState(utc, false)
    ensures var s1 := DriftState(utc, false); s1.ctx.table == DriftTable(1, 1, DriftV1) && DriftPublished(s1.ctx.out)
  {
    DriftDelivered(utc);
    hide DriftEnv, DriftDoc, DriftTable, DriftPublished, Build, Deliver, Split;
    DriftFirst(Deliver(utc, DriftSource), true);
    FirstAlike(Deliver(utc, DriftSource));
  }

  lemma DriftNext2(utc: string -> Option<string>, reuse: bool)
    ensures var p, s, e := Setup(utc, DriftEnv()), DriftState(utc, false), Reload(DriftReload, []);
            !BuildOf(p, s, e, reuse).ok && Next(p, s, e, reuse) == DriftState(utc, true)
  {
    DriftDelivered(utc);
    DriftNext1(utc, true);
    hide DriftEnv, DriftDoc, DriftTable, DriftPublished, Build, Deliver, Split;
    DriftFails(DriftState(utc, false).ctx, Deliver(utc, DriftReload), reuse);
  }

  lemma DriftNext3(utc: string -> Option<string>)
    ensures var p, s, e := Setup(utc, DriftEnv()), DriftState(utc, true), Cycle([0]);
            Next(p, s, e, false).ctx.out.seg == [[1, 3], []] && Next(p, s, e, true).ctx.out.seg == [[1, 1], []]
  {
    DriftDelivered(utc);
    DriftNext1(utc, true);
    hide DriftEnv, DriftDoc, DriftTable, DriftPublished, Build, Deliver, Split;
    DriftReturns(DriftState(utc, true).ctx, Deliver(utc, DriftSource));
  }

  /**
   * A first build, a reload that fails on its second channel, and a cycle of the old document that
   * selects the same for the first channel: the program copies that channel's container with a
   * version of its fragment that the table no longer has, where encoding it gives the next one.
   */
  lemma FailedReloadDrifts(utc: string -> Option<string>)
    ensures var p, s := Setup(utc, DriftEnv()), System(DriftSource, 0, Start);
            && BuildOf(p, s, DriftEvents[0], true).ok
            && !BuildOf(p, Run(p, s, DriftEvents[..1], true), DriftEvents[1], true).ok
            && Run(p, s, DriftEvents[..2], true) == Run(p, s, DriftEvents[..2], false)
            && Run(p, s, DriftEvents, false).ctx.out.seg == [[1, 3], []]
            && Run(p, s, DriftEvents, true).ctx.out.seg == [[1, 1], []]
  {
    hide DriftEnv, DriftState, BuildOf, Next, Run;
    var p, s := Setup(utc, DriftEnv()), System(DriftSource, 0, Start);
    RunOne(p, s, DriftEvents, true);
    RunOne(p, s, DriftEvents, false);
    DriftNext1(utc, true);
    DriftNext1(utc, false);
    DriftNext2(utc, true);
    DriftNext2(utc, false);
    DriftNext3(utc);
  }

  /** Runs of three events, step by step. */
  lemma RunOne(p: Setup, s: System, events: seq<Event>, reuse: bool)
    requires |events| == 3
    ensures Run(p, s, events[..1], reuse) == Next(p, s, events[0], reuse)
    ensures Run(p, s, events[..2], reuse) == Next(p, Run(p, s, events[..1], reuse), events[1], reuse)
    ensures Run(p, s, events, reuse) == Next(p, Run(p, s, events[..2], reuse), events[2], reuse)
  {
    hide Next;
    assert events[..1][..0] == [] && events[..2][..1] == events[..1] && events[..3] == events;
    assert Run(p, s, [], reuse) == s;
  }

  /** Nothing is reused in the first build. */
  lemma FirstAlike(doc: Doc)
    requires DriftDoc(doc, false)
    ensures Build(DriftEnv(), Start, doc, 0, [[], []], true) == Build(DriftEnv(), Start, doc, 0, [[], []], false)
  {
    hide DriftEnv, EncodeGroup, DriftDoc, Plan, BoundsOk, Build, Prune, Group, Same, Begin;
    var env, sels := DriftEnv(), [[], []];
    TwoBounds(env, doc, sels);
    DriftEnvPlain();
    var w := Begin(Start, sels, [0, 1, 2], 0);
    StartBegins();
    DriftA(w, doc, false, 0, Unset, 1);
    var w1 := EncodeGroup(env, w, doc, 0, 0, [[]]).work;
    NeverSame(w1.out, 1);
    forall reuse: bool
      ensures Build(env, Start, doc, 0, sels, reuse)
           == var s2 := EncodeGroup(env, w1, doc, 1, 1, [[]]);
              if s2.ok then Built(Ctx(Prune(s2.work.table), s2.work.out), true)
                else Built(Ctx(s2.work.table, Start.out), false)
    {
      PlainGroup(env, w, Start.out, doc, sels, 0, reuse);
      PlainGroup(env, w1, Start.out, doc, sels, 1, reuse);
      TwoBuild(env, Start, doc, 0, sels, reuse, w1, EncodeGroup(env, w1, doc, 1, 1, [[]]));
    }
  }
}
