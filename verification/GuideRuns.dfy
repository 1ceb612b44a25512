/**
 * Runs of the announcer (src/dipibcg/announce/run.c): cycles, reloads and sends of documents as the
 * reader delivers them, going on after a build or a reload has failed.
 *
 * Reuse makes no difference along any run whose failed builds selected for each channel what is
 * published. In general, at any point of any run, it makes none exactly while the fragment table
 * holds what is published.
 */
module GuideRuns {
  import opened Wrappers
  import opened Fragments
  import opened Guide
  import opened GuideReuse
  import opened GuideBuilds
  import opened GuideKept
  import opened GuideSource
  import opened GuideIndex

  /** A new selection of the same document, a new document, a container sent. */
  datatype Event = Cycle(sel: seq<nat>) | Reload(src: Source, sel: seq<nat>) | Sent(container: nat)

  /** The source of the guide, its number, and the announcer's state. */
  datatype System = System(src: Source, srcGen: nat, ctx: Ctx)

  const Start: Ctx := Ctx(Table(map[], 0, 0), Out([], [], [], [], None, Unset, 0, None, 0))

  /** How the reader takes times apart, and the libraries the builder calls. */
  datatype Setup = Setup(utc: string -> Option<string>, env: Env)

  function MarkSent(o: Out, c: nat): Out {
    if c < |o.vers| then o.(vers := o.vers[c := o.vers[c].(unsent := false)]) else o
  }

  /** The document and the number a build works on. */
  function Input(s: System, e: Event): (Source, nat)
    requires !e.Sent?
  {
    if e.Reload? then (e.src, s.srcGen + 1) else (s.src, s.srcGen)
  }

  /** The build of a cycle or a reload. */
  function BuildOf(p: Setup, s: System, e: Event, reuse: bool): Built
    requires !e.Sent?
  {
    var (src, srcGen) := Input(s, e);
    Build(p.env, s.ctx, Deliver(p.utc, src), srcGen, Split(src, e.sel), reuse)
  }

  /**
   * A failed cycle keeps what is published, a failed reload the document and its number as well. Of
   * both the fragment table keeps the traces.
   */
  function Next(p: Setup, s: System, e: Event, reuse: bool): System {
    match e
    case Sent(c) => s.(ctx := s.ctx.(out := MarkSent(s.ctx.out, c)))
    case Cycle(_) => s.(ctx := BuildOf(p, s, e, reuse).ctx)
    case Reload(src, _) =>
      var r := BuildOf(p, s, e, reuse);
      if r.ok then System(src, s.srcGen + 1, r.ctx) else s.(ctx := r.ctx)
  }

  function Run(p: Setup, s: System, events: seq<Event>, reuse: bool): System {
    if events == [] then s else Next(p, Run(p, s, events[..|events| - 1], reuse), events[|events| - 1], reuse)
  }

  // ----- What every run keeps -----

  ghost predicate SystemLive(p: Setup, s: System) {
    Live(p.env, s.ctx, Deliver(p.utc, s.src), s.srcGen)
  }

  /** Every published channel moreover is recorded, as after a successful build. */
  ghost predicate SystemOk(p: Setup, s: System) {
    Inv(p.env, s.ctx, Deliver(p.utc, s.src), s.srcGen)
  }

  /** The announcer starts with nothing published. */
  lemma StartOk(p: Setup, src: Source)
    ensures SystemOk(p, System(src, 0, Start))
  {
    hide Deliver;
  }

  /** A reload gets a source number that nothing published has. */
  lemma NewSource(env: Env, ctx: Ctx, doc: Doc, doc': Doc, srcGen: nat)
    requires Live(env, ctx, doc, srcGen)
    ensures Inv(env, ctx, doc', srcGen + 1)
  {
    hide MainOk, TableOk;
    MainAnyDoc(env, ctx.table, doc, doc', ctx.out);
  }

  /** What is published of the old document is still that when a build of a new one has failed. */
  lemma OldSource(env: Env, ctx: Ctx, ctx': Ctx, doc: Doc, doc': Doc, srcGen: nat)
    requires Live(env, ctx, doc, srcGen) && Live(env, ctx', doc', srcGen + 1) && ctx'.out == ctx.out
    ensures Live(env, ctx', doc, srcGen)
  {
    hide MainOk, TableOk;
    MainAnyDoc(env, ctx'.table, doc', doc, ctx'.out);
  }

  lemma SentKeeps(env: Env, ctx: Ctx, doc: Doc, srcGen: nat, c: nat)
    requires Live(env, ctx, doc, srcGen)
    ensures Live(env, ctx.(out := MarkSent(ctx.out, c)), doc, srcGen)
    ensures Inv(env, ctx, doc, srcGen) ==> Inv(env, ctx.(out := MarkSent(ctx.out, c)), doc, srcGen)
  {
    var o, o2 := ctx.out, MarkSent(ctx.out, c);
    MainSameOut(env, ctx.table, doc, o, o2);
    hide MainOk, TableOk;
    if o.sels.Some? && o.srcGen == srcGen {
      forall g | 0 <= g < |o.seg| ensures Made(env, doc, g, o.sels.value[g], o2.vers[g], o.seg[g]) {
        MadeSent(env, doc, g, o.sels.value[g], o.vers[g], o2.vers[g], o.seg[g]);
      }
      if PublishedOk(env, ctx.table, doc, srcGen, o) {
        forall g | 0 <= g < |o.seg| ensures ChannelOk(env, ctx.table, doc, g, o.sels.value[g], o2.vers[g], o.seg[g]) {
          assert ChannelOk(env, ctx.table, doc, g, o.sels.value[g], o.vers[g], o.seg[g]);
          hide Refs, Encode, Recorded, Fits, UnitOk, Made;
        }
      }
    }
  }

  lemma MadeSent(env: Env, doc: Doc, c: nat, sel: seq<nat>, ver: Version, ver': Version, seg: Bytes)
    requires Made(env, doc, c, sel, ver, seg) && ver'.last == ver.last
    ensures Made(env, doc, c, sel, ver', seg)
  {
    hide Encode, Fits;
    var u := Encode(env, doc, c, [sel]).value;
    var slots :| Lists(env, u, ver, slots);
    assert Lists(env, u, ver', slots);
  }

  /** Every step of the announcer, failed or not, with or without reuse. */
  lemma NextLive(p: Setup, s: System, e: Event, reuse: bool)
    requires SystemLive(p, s)
    ensures SystemLive(p, Next(p, s, e, reuse))
  {
    hide Live, Inv, Build, MarkSent, Deliver, Split;
    var doc := Deliver(p.utc, s.src);
    match e
    case Sent(c) =>
      SentKeeps(p.env, s.ctx, doc, s.srcGen, c);
    case Cycle(sel) =>
      BuildKeepsLive(p.env, s.ctx, doc, s.srcGen, Split(s.src, sel), reuse);
    case Reload(src, sel) =>
      NewSource(p.env, s.ctx, doc, Deliver(p.utc, src), s.srcGen);
      InvIsLive(p.env, s.ctx, Deliver(p.utc, src), s.srcGen + 1);
      BuildKeepsLive(p.env, s.ctx, Deliver(p.utc, src), s.srcGen + 1, Split(src, sel), reuse);
      if !BuildOf(p, s, e, reuse).ok {
        OldSource(p.env, s.ctx, BuildOf(p, s, e, reuse).ctx, doc, Deliver(p.utc, src), s.srcGen);
      }
  }

  lemma InvIsLive(env: Env, ctx: Ctx, doc: Doc, srcGen: nat)
    requires Inv(env, ctx, doc, srcGen)
    ensures Live(env, ctx, doc, srcGen)
  {
    hide Live, PublishedOk;
  }

  lemma {:induction false} RunLive(p: Setup, s: System, events: seq<Event>, reuse: bool)
    requires SystemLive(p, s)
    ensures SystemLive(p, Run(p, s, events, reuse))
  {
    hide SystemLive, Next;
    if events != [] {
      RunLive(p, s, events[..|events| - 1], reuse);
      NextLive(p, Run(p, s, events[..|events| - 1], reuse), events[|events| - 1], reuse);
    }
  }

  /** The setting of the builds of a live system. */
  lemma BuildLive(p: Setup, s: System, e: Event)
    requires SystemLive(p, s) && !e.Sent?
    ensures var (src, srcGen) := Input(s, e);
            && Live(p.env, s.ctx, Deliver(p.utc, src), srcGen)
            && Distinct(p.env, Deliver(p.utc, src), Split(src, e.sel))
  {
    hide Live, Inv, Distinct, Deliver, Split;
    DeliveredDistinct(p.env, p.utc, Input(s, e).0, e.sel);
    if e.Reload? {
      NewSource(p.env, s.ctx, Deliver(p.utc, s.src), Deliver(p.utc, e.src), s.srcGen);
      InvIsLive(p.env, s.ctx, Deliver(p.utc, e.src), s.srcGen + 1);
    }
  }

  // ----- When reuse makes no difference -----

  /** What this build would reuse is still held as published. */
  ghost predicate HeldFor(p: Setup, s: System, e: Event)
    requires !e.Sent?
  {
    var (src, srcGen) := Input(s, e);
    var doc, sels := Deliver(p.utc, src), Split(src, e.sel);
    var b := Plan(p.env, doc, sels);
    b.Some? && PerChannel(b.value, |sels|) ==> AllHeld(p.env, s.ctx, doc, srcGen, sels)
  }

  ghost predicate KeptFor(p: Setup, s: System, e: Event)
    requires !e.Sent?
  {
    var (src, srcGen) := Input(s, e);
    ReuseKept(p.env, s.ctx, Deliver(p.utc, src), srcGen, Split(src, e.sel))
  }

  lemma KeptForIffHeldFor(p: Setup, s: System, e: Event)
    requires SystemLive(p, s) && !e.Sent? && OneContainer(p.env)
    ensures KeptFor(p, s, e) <==> HeldFor(p, s, e)
  {
    hide Live, Distinct, Deliver, Split, Plan, AllHeld, Kept, OneContainer, PerChannel, SystemLive;
    BuildLive(p, s, e);
    var (src, srcGen) := Input(s, e);
    KeptIffHeld(p.env, s.ctx, Deliver(p.utc, src), srcGen, Split(src, e.sel));
  }

  /**
   * At any point of any run of the announcer, whatever has failed before: a build that would succeed
   * by encoding everything gives the same with reuse if and only if the fragment table still holds
   * every channel it would reuse as published.
   */
  lemma ReuseEqualIffHeld(p: Setup, src: Source, events: seq<Event>, reuse: bool, e: Event)
    requires !e.Sent? && OneContainer(p.env)
    requires BuildOf(p, Run(p, System(src, 0, Start), events, reuse), e, false).ok
    ensures var s := Run(p, System(src, 0, Start), events, reuse);
            BuildOf(p, s, e, true) == BuildOf(p, s, e, false) <==> HeldFor(p, s, e)
  {
    hide Run, Live, Inv, Distinct, Deliver, Split, Build, HeldFor, OneContainer, SystemLive, ReuseKept;
    var s0, s := System(src, 0, Start), Run(p, System(src, 0, Start), events, reuse);
    StartOk(p, src);
    OkIsLive(p, s0);
    RunLive(p, s0, events, reuse);
    BuildLive(p, s, e);
    var (src', srcGen) := Input(s, e);
    BuildEqualIffKept(p.env, s.ctx, Deliver(p.utc, src'), srcGen, Split(src', e.sel));
    KeptForIffHeldFor(p, s, e);
  }

  lemma OkIsLive(p: Setup, s: System)
    requires SystemOk(p, s)
    ensures SystemLive(p, s)
  {
    hide Live, PublishedOk, Deliver;
  }

  /** No build of the run finds a channel lost that it would reuse. */
  ghost predicate KeptRun(p: Setup, s: System, events: seq<Event>) {
    forall i :: 0 <= i < |events| && !events[i].Sent? ==> KeptFor(p, Run(p, s, events[..i], false), events[i])
  }

  lemma {:induction false} KeptRunEqual(p: Setup, s: System, events: seq<Event>)
    requires SystemLive(p, s) && KeptRun(p, s, events)
    ensures Run(p, s, events, true) == Run(p, s, events, false)
  {
    if events != [] {
      hide SystemLive, KeptFor;
      var front, e := events[..|events| - 1], events[|events| - 1];
      forall i | 0 <= i < |front| && !front[i].Sent? ensures KeptFor(p, Run(p, s, front[..i], false), front[i]) {
        assert front[..i] == events[..i] && front[i] == events[i];
      }
      KeptRunEqual(p, s, front);
      RunLive(p, s, front, false);
      if !e.Sent? {
        KeptNext(p, Run(p, s, front, false), e);
      }
    }
  }

  lemma KeptNext(p: Setup, s: System, e: Event)
    requires SystemLive(p, s) && !e.Sent? && KeptFor(p, s, e)
    ensures BuildOf(p, s, e, true) == BuildOf(p, s, e, false)
  {
    hide Live, Distinct, Deliver, Split, Build, SystemLive, ReuseKept;
    BuildLive(p, s, e);
    var (src, srcGen) := Input(s, e);
    BuildEqual(p.env, s.ctx, Deliver(p.utc, src), srcGen, Split(src, e.sel));
  }

  // ----- Failures that do no harm -----

  /** A build that succeeds, or a cycle that selects for each channel what is published for it. */
  predicate Harmless(p: Setup, s: System, e: Event) {
    || e.Sent?
    || BuildOf(p, s, e, false).ok
    || (e.Cycle? && (s.ctx.out.sels.Some? ==> s.ctx.out.sels.value == Split(s.src, e.sel)))
  }

  /** No failure before the last event of the run does harm. */
  ghost predicate HarmlessRun(p: Setup, s: System, events: seq<Event>) {
    forall i :: 0 <= i < |events| - 1 ==> Harmless(p, Run(p, s, events[..i], false), events[i])
  }

  lemma HarmlessNext(p: Setup, s: System, e: Event)
    requires SystemOk(p, s) && Harmless(p, s, e)
    ensures SystemOk(p, Next(p, s, e, false))
  {
    hide Live, Distinct, Deliver, Split, Build, Inv, MarkSent;
    var doc := Deliver(p.utc, s.src);
    InvIsLive(p.env, s.ctx, doc, s.srcGen);
    if e.Sent? {
      SentKeeps(p.env, s.ctx, doc, s.srcGen, e.container);
    } else {
      BuildLive(p, s, e);
      var (src, srcGen) := Input(s, e);
      if BuildOf(p, s, e, false).ok {
        BuildKeepsInv(p.env, s.ctx, Deliver(p.utc, src), srcGen, Split(src, e.sel));
      } else {
        FailedKeepsAll(p.env, s.ctx, doc, s.srcGen, Split(s.src, e.sel));
      }
    }
  }

  lemma {:induction false} HarmlessRunOk(p: Setup, s: System, events: seq<Event>, n: nat)
    requires SystemOk(p, s) && HarmlessRun(p, s, events) && n < |events|
    ensures SystemOk(p, Run(p, s, events[..n], false))
  {
    hide SystemOk, Harmless, Next;
    if n > 0 {
      HarmlessRunOk(p, s, events, n - 1);
      assert events[..n][..n - 1] == events[..n - 1] && events[..n][n - 1] == events[n - 1];
      HarmlessNext(p, Run(p, s, events[..n - 1], false), events[n - 1]);
    }
  }

  lemma OkIsKept(p: Setup, s: System, e: Event)
    requires SystemOk(p, s) && !e.Sent?
    ensures KeptFor(p, s, e)
  {
    hide Live, Deliver, Split, Plan, Kept, PublishedOk;
    var (src, srcGen) := Input(s, e);
    var doc := Deliver(p.utc, src);
    if e.Reload? {
      NewSource(p.env, s.ctx, Deliver(p.utc, s.src), doc, s.srcGen);
    }
    PublishedIsKept(p.env, s.ctx.table, doc, Split(src, e.sel), srcGen, s.ctx.out);
  }

  /**
   * Along any run of cycles, reloads and sends, of any documents and selections, that goes on after
   * failed builds: as long as each failed build selected for each channel what is published, reusing
   * unchanged channels and encoding every channel end in the same state - the same containers,
   * identifiers, versions and index, and the same builds failing.
   */
  lemma IncrementalIsFull(p: Setup, s: System, events: seq<Event>)
    requires SystemOk(p, s) && HarmlessRun(p, s, events)
    ensures Run(p, s, events, true) == Run(p, s, events, false)
  {
    hide SystemOk, SystemLive, Run, HarmlessRun, KeptFor;
    OkIsLive(p, s);
    forall i | 0 <= i < |events| && !events[i].Sent? ensures KeptFor(p, Run(p, s, events[..i], false), events[i]) {
      HarmlessRunOk(p, s, events, i);
      OkIsKept(p, Run(p, s, events[..i], false), events[i]);
    }
    KeptRunEqual(p, s, events);
  }

  /**
   * At any point of any run, the index of a build that reuses only what is recorded leads back to the
   * fragments its containers list, and no container lists an identifier twice.
   */
  lemma IndexAlongRuns(p: Setup, src: Source, events: seq<Event>, reuse: bool, e: Event)
    returns (b: seq<nat>, lists: seq<seq<FragRef>>, entries: multiset<IndexEntry>)
    requires !e.Sent? && KeptFor(p, Run(p, System(src, 0, Start), events, reuse), e)
    requires BuildOf(p, Run(p, System(src, 0, Start), events, reuse), e, true).ok
    ensures var s := Run(p, System(src, 0, Start), events, reuse); var (src', srcGen) := Input(s, e);
            var doc, sels := Deliver(p.utc, src'), Split(src', e.sel);
            var o := BuildOf(p, s, e, true).ctx.out;
            && Plan(p.env, doc, sels) == Some(b) && |b| >= 2 && |lists| == |b| - 1
            && Indexed(p.env, doc, sels, b, o.seg, entries, lists)
            && (p.env.kinds != {} ==> Writes(p.env, entries, |b|, o.iseg))
            && (PerChannel(b, |sels|) ==> AllDiffer(lists))
  {
    hide Run, Live, Inv, Distinct, Deliver, Split, Build, SystemLive, ReuseKept, Indexed, Writes, AllDiffer, Plan,
         BoundsOk;
    var s0, s := System(src, 0, Start), Run(p, System(src, 0, Start), events, reuse);
    StartOk(p, src);
    OkIsLive(p, s0);
    RunLive(p, s0, events, reuse);
    BuildLive(p, s, e);
    var (src', srcGen) := Input(s, e);
    b, lists, entries := ReusedIndexLeadsBack(p.env, s.ctx, Deliver(p.utc, src'), srcGen, Split(src', e.sel));
  }
}
