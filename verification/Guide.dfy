/**
 * Building the guide (src/dipibcg/announce/run.c, segment.c).
 *
 * A build cuts the guide into containers, gives every fragment its identifier and version,
 * collects index entries and advances container versions whose content changed. With one
 * container per channel, a channel whose programme selection did not change is not encoded
 * again: its previous container is copied and its fragments are only marked as emitted.
 *
 * `Build` describes both ways: `reuse` switches the shortcut on or off.
 */
module Guide {
  import opened Wrappers
  import opened Fragments

  const MAX_SEGMENTS := 0xFFFF
  const REPO_MAX := 0xFFFF

  // ----- Documents and the fragments of a channel -----

  datatype Programme = Programme(crid: string, title: Option<string>)
  datatype Channel = Channel(id: string, announced: bool)
  datatype Doc = Doc(channels: seq<Channel>, programmes: seq<Programme>)

  /** The selected programmes of each channel, as positions in the document. */
  type Selection = seq<seq<nat>>

  datatype Ref = Program(index: nat) | Schedule(channel: nat, sel: seq<nat>) | Service(channel: nat) | Main

  function Crid(doc: Doc, j: nat): string {
    if j < |doc.programmes| then doc.programmes[j].crid else ""
  }

  function Title(doc: Doc, j: nat): Option<string> {
    if j < |doc.programmes| then doc.programmes[j].title else None
  }

  function Id(doc: Doc, c: nat): string {
    if c < |doc.channels| then doc.channels[c].id else ""
  }

  predicate Announced(doc: Doc, c: nat) {
    c < |doc.channels| && doc.channels[c].announced
  }

  function Base(doc: Doc, r: Ref): string {
    match r
    case Program(j) => "P:" + Crid(doc, j)
    case Schedule(c, _) => "S:" + Id(doc, c)
    case Service(c) => "I:" + Id(doc, c)
    case Main => "M:"
  }

  function Programs(sel: seq<nat>): (r: seq<Ref>)
    ensures |r| == |sel|
  {
    seq(|sel|, i requires 0 <= i < |sel| => Program(sel[i]))
  }

  function ProgramRefs(doc: Doc, from: nat, sels: Selection): (refs: seq<Ref>)
    ensures forall r :: r in refs ==> r.Program?
    decreases |sels|
  {
    if sels == [] then []
    else (if Announced(doc, from) then Programs(sels[0]) else []) + ProgramRefs(doc, from + 1, sels[1..])
  }

  function ScheduleRefs(doc: Doc, from: nat, sels: Selection): (refs: seq<Ref>)
    ensures forall r :: r in refs ==> r.Schedule?
    decreases |sels|
  {
    if sels == [] then []
    else
      (if Announced(doc, from) && sels[0] != [] then [Schedule(from, sels[0])] else [])
      + ScheduleRefs(doc, from + 1, sels[1..])
  }

  function ServiceRefs(doc: Doc, from: nat, sels: Selection): (refs: seq<Ref>)
    ensures forall r :: r in refs ==> r.Service?
    decreases |sels|
  {
    if sels == [] then []
    else (if Announced(doc, from) then [Service(from)] else []) + ServiceRefs(doc, from + 1, sels[1..])
  }

  /** Fragments of the channels from, from + 1, ... in the order the encoder emits them. */
  function Refs(doc: Doc, from: nat, sels: Selection): seq<Ref> {
    ProgramRefs(doc, from, sels) + ScheduleRefs(doc, from, sels) + ServiceRefs(doc, from, sels)
  }

  /** The same for one channel, as the reuse path lists them. */
  function ChannelRefs(doc: Doc, c: nat, sel: seq<nat>): seq<Ref> {
    if !Announced(doc, c) then []
    else Programs(sel) + (if sel != [] then [Schedule(c, sel)] else []) + [Service(c)]
  }

  lemma ChannelRefsAgree(doc: Doc, c: nat, sel: seq<nat>)
    ensures ChannelRefs(doc, c, sel) == Refs(doc, c, [sel])
  {
    assert [sel][1..] == [];
    assert ProgramRefs(doc, c, [sel]) == if Announced(doc, c) then Programs(sel) else [];
    assert ScheduleRefs(doc, c, [sel]) == if Announced(doc, c) && sel != [] then [Schedule(c, sel)] else [];
    assert ServiceRefs(doc, c, [sel]) == if Announced(doc, c) then [Service(c)] else [];
  }

  // ----- What the libraries compute, as functions -----

  datatype Offset = Offset(au: nat, str: nat)

  /** An encoded container body: both repositories, and where each fragment begins. */
  datatype Unit = Unit(au: Bytes, strs: Bytes, offs: seq<Offset>)

  datatype Slot = Slot(off: Offset, id: nat, version: nat)

  datatype Kind = ByCrid | ByTitle | ByTime | ByShowing

  datatype IndexEntry = IndexEntry(kind: Kind, key: string, second: Option<string>, container: nat, fragment: nat)

  datatype Env = Env(
    publisher: bool,
    kinds: set<Kind>,
    encode: (Doc, nat, Selection) -> Option<Unit>,
    encodeMain: Option<Unit>,
    container: (Bytes, Bytes, seq<Slot>) -> Option<Bytes>,
    wrap: Bytes -> Option<Bytes>,
    index: (multiset<IndexEntry>, nat) -> Option<seq<Bytes>>,
    scheduleEnd: (Doc, seq<nat>) -> Option<string>,
    plan: (Doc, Selection) -> Option<seq<nat>>
  )

  function AuEnd(u: Unit, i: nat): nat {
    if i + 1 < |u.offs| then u.offs[i + 1].au else |u.au|
  }

  function StrEnd(u: Unit, i: nat): nat {
    if i + 1 < |u.offs| then u.offs[i + 1].str else |u.strs|
  }

  /** n fragments, one after the other. */
  predicate UnitOk(u: Unit, n: nat) {
    && |u.offs| == n
    && forall i :: 0 <= i < n ==> u.offs[i].au <= AuEnd(u, i) <= |u.au| && u.offs[i].str <= StrEnd(u, i) <= |u.strs|
  }

  /** The bytes of fragment i: its part of the access unit and its strings. */
  function Piece(u: Unit, i: nat): Bytes
    requires UnitOk(u, |u.offs|) && i < |u.offs|
  {
    u.au[u.offs[i].au..AuEnd(u, i)] + u.strs[u.offs[i].str..StrEnd(u, i)]
  }

  /** The encoder; a result with another number of fragments counts as a failure. */
  function Encode(env: Env, doc: Doc, from: nat, sels: Selection): (u: Option<Unit>)
    ensures u.Some? ==> UnitOk(u.value, |Refs(doc, from, sels)|)
  {
    var u := env.encode(doc, from, sels);
    if u.Some? && UnitOk(u.value, |Refs(doc, from, sels)|) then u else None
  }

  predicate Fits(u: Unit) {
    |u.au| <= REPO_MAX && |u.strs| <= REPO_MAX
  }

  // ----- Identifiers and versions for a container's fragments -----

  datatype FragRef = FragRef(ref: Ref, off: Offset, id: nat, version: nat)

  datatype Walked = Walked(table: Table, ok: bool, refs: seq<FragRef>)

  /**
   * The first n fragments of a container. With an encoding, `frag_assign`: contents recorded;
   * without, `frag_touch`: fragments only marked as emitted.
   */
  function Walk(t: Table, doc: Doc, refs: seq<Ref>, unit: Option<Unit>, n: nat): (w: Walked)
    requires n <= |refs| && (unit.Some? ==> UnitOk(unit.value, |refs|))
    ensures w.ok ==> |w.refs| == n
  {
    if n == 0 then Walked(t, true, [])
    else
      var w := Walk(t, doc, refs, unit, n - 1);
      if !w.ok then w
      else
        var m := Mark(w.table, Base(doc, refs[n - 1]));
        if m.key.None? then Walked(w.table, false, w.refs)
        else
          var k := m.key.value;
          var t' := if unit.Some? then Record(m.table, k, Piece(unit.value, n - 1)) else m.table;
          var off := if unit.Some? then unit.value.offs[n - 1] else Offset(0, 0);
          Walked(t', true, w.refs + [FragRef(refs[n - 1], off, t'.frags[k].id, t'.frags[k].ver.number)])
  }

  function Insert(r: FragRef, s: seq<FragRef>): seq<FragRef> {
    if s == [] || r.id <= s[0].id then [r] + s else [s[0]] + Insert(r, s[1..])
  }

  /** References in a container are in order of fragment identifier. */
  function SortById(s: seq<FragRef>): seq<FragRef> {
    if s == [] then [] else Insert(s[0], SortById(s[1..]))
  }

  function Slots(s: seq<FragRef>): seq<Slot> {
    seq(|s|, i requires 0 <= i < |s| => Slot(s[i].off, s[i].id, s[i].version))
  }

  // ----- Index entries -----

  function Titles(doc: Doc, sel: seq<nat>, container: nat, id: nat): seq<IndexEntry> {
    if sel == [] then []
    else
      (if Title(doc, sel[0]).Some? then [IndexEntry(ByShowing, Title(doc, sel[0]).value, None, container, id)] else [])
      + Titles(doc, sel[1..], container, id)
  }

  function EntryList(env: Env, doc: Doc, r: Ref, container: nat, id: nat): seq<IndexEntry> {
    match r
    case Program(j) =>
      (if ByCrid in env.kinds then [IndexEntry(ByCrid, Crid(doc, j), None, container, id)] else [])
      + (if ByTitle in env.kinds && Title(doc, j).Some?
         then [IndexEntry(ByTitle, Title(doc, j).value, None, container, id)] else [])
    case Schedule(c, sel) =>
      var end := env.scheduleEnd(doc, sel);
      (if ByTime in env.kinds && end.Some? then [IndexEntry(ByTime, end.value, Some(Id(doc, c)), container, id)]
       else [])
      + (if ByShowing in env.kinds then Titles(doc, sel, container, id) else [])
    case _ => []
  }

  function Entries(env: Env, doc: Doc, refs: seq<FragRef>, container: nat): multiset<IndexEntry> {
    if refs == [] then multiset{}
    else multiset(EntryList(env, doc, refs[0].ref, container, refs[0].id)) + Entries(env, doc, refs[1..], container)
  }

  // ----- One build -----

  datatype Out = Out(
    seg: seq<Bytes>,
    vers: seq<Version>,
    iseg: seq<Bytes>,
    ivers: seq<Version>,
    mainSeg: Option<Bytes>,
    mainVer: Version,
    nfuu: nat,
    sels: Option<Selection>,
    srcGen: nat
  )

  /** Fragment table and published output between builds. */
  datatype Ctx = Ctx(table: Table, out: Out)

  /** A build under way: the output is a staged copy. */
  datatype Work = Work(table: Table, entries: multiset<IndexEntry>, out: Out)

  datatype Step = Step(work: Work, ok: bool)

  function Grow(vs: seq<Version>, n: nat): (r: seq<Version>)
    ensures |r| == if n <= |vs| then |vs| else n
    ensures forall i :: 0 <= i < |r| ==> r[i] == if i < |vs| then vs[i] else Unset
  {
    if n <= |vs| then vs else vs + seq(n - |vs|, _ => Unset)
  }

  /** `group_xmltv`: container g encoded from its channels. */
  function EncodeGroup(env: Env, w: Work, doc: Doc, g: nat, from: nat, sels: Selection): (s: Step)
    requires g < |w.out.vers|
    ensures |s.work.out.vers| == |w.out.vers|
  {
    var u := Encode(env, doc, from, sels);
    if u.None? || !Fits(u.value) then Step(w, false)
    else
      var refs := Refs(doc, from, sels);
      var a := Walk(w.table, doc, refs, u, |refs|);
      if !a.ok then Step(w.(table := a.table), false) else PutContainer(env, w, doc, g, u.value, a)
  }

  /** Index entries, then `build_segment`. */
  function PutContainer(env: Env, w: Work, doc: Doc, g: nat, u: Unit, a: Walked): (s: Step)
    requires g < |w.out.vers|
    ensures |s.work.out.vers| == |w.out.vers|
  {
    var sorted := SortById(a.refs);
    var w' := w.(table := a.table, entries := w.entries + Entries(env, doc, sorted, g + 1));
    var cont := env.container(u.au, u.strs, Slots(sorted));
    if cont.None? then Step(w', false)
    else
      var o := w'.out.(vers := w'.out.vers[g := SetVersion(w'.out.vers[g], cont.value, 256)]);
      var seg := env.wrap(cont.value);
      if seg.None? then Step(w'.(out := o), false)
      else Step(w'.(out := o.(seg := o.seg + [seg.value], nfuu := o.nfuu + |a.refs|)), true)
  }

  /** `group_reuse`: container g copied from the previous build. */
  function ReuseGroup(env: Env, w: Work, prev: Out, doc: Doc, g: nat, sel: seq<nat>): (s: Step)
    requires g < |w.out.vers| && g < |prev.seg|
    ensures |s.work.out.vers| == |w.out.vers|
  {
    var refs := ChannelRefs(doc, g, sel);
    var a := Walk(w.table, doc, refs, None, |refs|);
    if !a.ok then Step(w.(table := a.table), false)
    else
      var o := w.out;
      Step(Work(a.table, w.entries + Entries(env, doc, a.refs, g + 1),
                o.(seg := o.seg + [prev.seg[g]], nfuu := o.nfuu + |refs|)), true)
  }

  /** `group_same`. */
  predicate Same(prev: Out, st: Out, g: nat) {
    && prev.sels.Some? && st.sels.Some? && prev.srcGen == st.srcGen && g < |prev.seg|
    && g < |prev.sels.value| && g < |st.sels.value| && prev.sels.value[g] == st.sels.value[g]
  }

  predicate BoundsOk(b: seq<nat>, n: nat) {
    && |b| >= 2 && b[0] == 0 && b[|b| - 1] == n && |b| - 1 <= MAX_SEGMENTS
    && forall i, j :: 0 <= i < j < |b| ==> b[i] <= b[j]
  }

  /** One container per channel while the segment numbers last. */
  function Plan(env: Env, doc: Doc, sels: Selection): (b: Option<seq<nat>>)
    ensures b.Some? ==> BoundsOk(b.value, |sels|)
    ensures 0 < |sels| <= MAX_SEGMENTS ==>
              b.Some? && PerChannel(b.value, |sels|) && forall i :: 0 <= i <= |sels| ==> b.value[i] == i
  {
    var n := |sels|;
    if n <= MAX_SEGMENTS then Some(if n == 0 then [0, 0] else seq(n + 1, i => i))
    else
      var b := env.plan(doc, sels);
      if b.Some? && BoundsOk(b.value, n) then b else None
  }

  predicate PerChannel(b: seq<nat>, n: nat) {
    n > 0 && |b| - 1 == n
  }

  /** The containers 0 .. k - 1. */
  function Groups(env: Env, w: Work, prev: Out, doc: Doc, sels: Selection, b: seq<nat>, reuse: bool, k: nat): (s: Step)
    requires BoundsOk(b, |sels|) && k < |b| && |b| - 1 <= |w.out.vers|
    ensures |s.work.out.vers| == |w.out.vers|
  {
    if k == 0 then Step(w, true)
    else
      var s := Groups(env, w, prev, doc, sels, b, reuse, k - 1);
      if !s.ok then s
      else Group(env, s.work, prev, doc, sels, b, reuse, k - 1)
  }

  function Group(env: Env, w: Work, prev: Out, doc: Doc, sels: Selection, b: seq<nat>, reuse: bool, g: nat): (s: Step)
    requires BoundsOk(b, |sels|) && g + 1 < |b| && |b| - 1 <= |w.out.vers|
    ensures |s.work.out.vers| == |w.out.vers|
  {
    if reuse && PerChannel(b, |sels|) && Same(prev, w.out, g) && g < |sels|
    then ReuseGroup(env, w, prev, doc, g, sels[g])
    else EncodeGroup(env, w, doc, g, b[g], sels[b[g]..b[g + 1]])
  }

  /** `build_tva_main`: the operator fragment, constant for a schema. */
  function MainGroup(env: Env, w: Work, prev: Out, doc: Doc, reuse: bool): Step {
    if !env.publisher then Step(w, true)
    else if reuse && prev.mainSeg.Some? then
      var a := Walk(w.table, doc, [Main], None, 1);
      if !a.ok then Step(w.(table := a.table), false)
      else Step(w.(table := a.table, out := w.out.(mainSeg := prev.mainSeg)), true)
    else if env.encodeMain.None? || !UnitOk(env.encodeMain.value, 1) then Step(w, false)
    else
      var u := env.encodeMain.value;
      var a := Walk(w.table, doc, [Main], Some(u), 1);
      if !a.ok then Step(w.(table := a.table), false)
      else
        var cont := env.container(u.au, u.strs, Slots(SortById(a.refs)));
        if cont.None? then Step(w.(table := a.table), false)
        else
          var o := w.out.(mainVer := SetVersion(w.out.mainVer, cont.value, 256));
          var seg := env.wrap(cont.value);
          if seg.None? then Step(w.(table := a.table, out := o), false)
          else Step(w.(table := a.table, out := o.(mainSeg := Some(seg.value))), true)
  }

  function WrapAll(env: Env, conts: seq<Bytes>): Option<seq<Bytes>> {
    if conts == [] then Some([])
    else
      var front := WrapAll(env, conts[..|conts| - 1]);
      var last := env.wrap(conts[|conts| - 1]);
      if front.None? || last.None? then None else Some(front.value + [last.value])
  }

  function StageAll(vs: seq<Version>, conts: seq<Bytes>): seq<Version>
    requires |conts| <= |vs|
  {
    seq(|vs|, i requires 0 <= i < |vs| => if i < |conts| then SetVersion(vs[i], conts[i], 256) else vs[i])
  }

  /** `index_build`. */
  function IndexGroup(env: Env, w: Work, first: nat): Step {
    if env.kinds == {} then Step(w, true)
    else
      var conts := env.index(w.entries, first);
      if conts.None? then Step(w, false)
      else
        var o := w.out.(ivers := StageAll(Grow(w.out.ivers, |conts.value|), conts.value));
        var segs := WrapAll(env, conts.value);
        if segs.None? then Step(w.(out := o), false)
        else Step(w.(out := o.(iseg := segs.value)), true)
  }

  function Stage(o: Out, n: nat, sels: Option<Selection>, srcGen: nat): (st: Out)
    ensures |st.vers| >= n
  {
    Out([], Grow(o.vers, n), [], o.ivers, None, o.mainVer, 0, sels, srcGen)
  }

  function Begin(ctx: Ctx, sels: Selection, b: seq<nat>, srcGen: nat): (w: Work)
    requires |b| >= 1
    ensures |w.out.vers| >= |b| - 1
  {
    Work(ctx.table.(gen := ctx.table.gen + 1), multiset{},
         Stage(ctx.out, |b| - 1, if PerChannel(b, |sels|) then Some(sels) else None, srcGen))
  }

  datatype Built = Built(ctx: Ctx, ok: bool)

  /** `announce_build`. A failed build leaves the published output, not the fragment table. */
  function Build(env: Env, ctx: Ctx, doc: Doc, srcGen: nat, sels: Selection, reuse: bool): Built {
    var b := Plan(env, doc, sels);
    if b.None? then Built(ctx, false)
    else
      var s := Groups(env, Begin(ctx, sels, b.value, srcGen), ctx.out, doc, sels, b.value, reuse, |b.value| - 1);
      if !s.ok then Built(Ctx(s.work.table, ctx.out), false)
      else Finish(env, s.work, ctx.out, doc, |b.value|, reuse)
  }

  function Finish(env: Env, w: Work, prev: Out, doc: Doc, first: nat, reuse: bool): Built {
    var m := MainGroup(env, w, prev, doc, reuse);
    if !m.ok then Built(Ctx(m.work.table, prev), false)
    else
      var t := Prune(m.work.table);
      var x := IndexGroup(env, m.work, first);
      if !x.ok then Built(Ctx(t, prev), false) else Built(Ctx(t, x.work.out), true)
  }
}
