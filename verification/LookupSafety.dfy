/** What every step of the channel index protocol keeps, and what follows for every run. */
module LookupSafety {
  import opened Wrappers
  import opened LookupProtocol
  import opened IndexInvariant

  // ---- what each thread knows ----

  ghost predicate ResultOk(ix: Index, k: Key, res: Option<nat>) {
    res.Some? ==> res.value < |ix.slots| && ix.slots[res.value] == Live(k)
  }

  ghost predicate ThreadOk(c: Config, ix: Index, reaps: nat, pc: Pc)
    requires |ix.buckets| == c.size && PcShape(c, pc)
  {
    match pc
    case Scan(k, n, avail) => ScanOk(c, ix, k, n, avail)
    case Inspect(k, n, avail, i) =>
      ScanOk(c, ix, k, n, avail)
        && (BucketAt(c, ix, k, n) == Chan(i) || (avail.Some? && ScanOk(c, ix, k, n + 1, avail)))
        && i < |ix.slots| && !ix.slots[i].Dying?
    case Cas(k, a, _) => CasOk(c, ix, k, a)
    case Exit(k, res, epoch) => epoch <= reaps && (epoch == reaps ==> ResultOk(ix, k, res))
    case Done(k, res, epoch) => epoch <= reaps && (epoch == reaps ==> ResultOk(ix, k, res))
    case _ => true
  }

  ghost predicate ThreadsOk(c: Config, s: State)
    requires Shape(c, s)
  {
    forall t {:trigger s.threads[t]} :: 0 <= t < |s.threads| ==> ThreadOk(c, s.ix, s.reaps, s.threads[t])
  }

  // ---- claims and half-built channels belong to exactly the threads working on them ----

  ghost predicate ThreadLinks(c: Config, ix: Index, t: nat, pc: Pc)
    requires |ix.buckets| == c.size && |ix.slots| == c.maxChannels && PcShape(c, pc)
  {
    && (HasClaim(pc) ==> BucketAt(c, ix, pc.k, pc.a) == Claiming(t, pc.k, pc.wasTomb))
    && (pc.Init? ==> ix.slots[pc.j] == Building(t))
    && (pc.Publish? ==>
          ix.slots[pc.j] == Live(pc.k) && forall b :: 0 <= b < |ix.buckets| ==> ix.buckets[b] != Chan(pc.j))
  }

  ghost predicate ClaimLinked(c: Config, threads: seq<Pc>, b: nat, cl: Bucket)
    requires cl.Claiming?
  {
    && cl.holder < |threads| && HasClaim(threads[cl.holder]) && PcShape(c, threads[cl.holder])
    && threads[cl.holder].k == cl.wanted && threads[cl.holder].wasTomb == cl.fromTomb
    && c.Pos(cl.wanted, threads[cl.holder].a) == b
  }

  ghost predicate Links(c: Config, s: State)
    requires Shape(c, s)
  {
    && (forall t {:trigger s.threads[t]} :: 0 <= t < |s.threads| ==> ThreadLinks(c, s.ix, t, s.threads[t]))
    && (forall b {:trigger s.ix.buckets[b]} :: 0 <= b < |s.ix.buckets| && s.ix.buckets[b].Claiming? ==>
          ClaimLinked(c, s.threads, b, s.ix.buckets[b]))
  }

  ghost predicate Placed(s: State, i: nat) {
    || (exists b :: 0 <= b < |s.ix.buckets| && s.ix.buckets[b] == Chan(i))
    || (exists t :: 0 <= t < |s.threads| && s.threads[t].Publish? && s.threads[t].j == i)
  }

  ghost predicate AllPlaced(s: State, lim: nat) {
    forall i: nat :: i < lim && i < |s.ix.slots| && s.ix.slots[i].Live? ==> Placed(s, i)
  }

  // ---- the gate: hash_active_writers and hash_rebuild_active ----

  function CountIn(ts: seq<Pc>): (n: nat) {
    if ts == [] then 0 else CountIn(ts[..|ts| - 1]) + if Counted(ts[|ts| - 1]) then 1 else 0
  }

  ghost predicate OneRebuilder(s: State) {
    && (forall t, u ::
        0 <= t < |s.threads| && 0 <= u < |s.threads| && Rebuilder(s.threads[t]) && Rebuilder(s.threads[u]) ==> t == u)
    && (forall t :: 0 <= t < |s.threads| && Rebuilder(s.threads[t]) ==> s.rebuilding)
  }

  /** No bucket operation is in flight while a rebuild body runs. */
  ghost predicate Exclusion(s: State) {
    forall t, u :: 0 <= t < |s.threads| && 0 <= u < |s.threads| && InBody(s.threads[t]) ==> !InSection(s.threads[u])
  }

  ghost predicate Gate(s: State) {
    s.writers == CountIn(s.threads) && OneRebuilder(s) && Exclusion(s)
  }

  // ---- rebuild progress ----

  ghost predicate BodyOk(c: Config, s: State, pc: Pc)
    requires Shape(c, s) && PcShape(c, pc)
  {
    match pc
    case RbClear(h) => forall b :: 0 <= b < h ==> s.ix.buckets[b] == Empty
    case RbInsert(i) => Rebuilt(c, s, i)
    case RbProbe(i, n) =>
      && Rebuilt(c, s, i) && s.ix.slots[i].Live?
      && forall m: nat :: m < n ==> BucketAt(c, s.ix, s.ix.slots[i].key, m) != Empty
    case RbRelease => Rebuilt(c, s, c.maxChannels)
    case _ => true
  }

  ghost predicate Rebuilt(c: Config, s: State, lim: nat)
    requires Shape(c, s)
  {
    Table(c, s.ix, lim) && OnlyChans(s.ix) && AllPlaced(s, lim)
  }

  ghost predicate BodiesOk(c: Config, s: State)
    requires Shape(c, s)
  {
    forall t {:trigger s.threads[t]} :: 0 <= t < |s.threads| ==> BodyOk(c, s, s.threads[t])
  }

  ghost predicate Settled(s: State) {
    forall t :: 0 <= t < |s.threads| ==> !InBody(s.threads[t])
  }

  ghost predicate TableOk(c: Config, s: State)
    requires Shape(c, s)
  {
    Table(c, s.ix, c.maxChannels) && AllPlaced(s, c.maxChannels)
  }

  ghost predicate Inv(c: Config, s: State) {
    && Shape(c, s) && Gate(s) && Links(c, s) && LiveUnique(s.ix)
    && ThreadsOk(c, s) && BodiesOk(c, s)
    && (Settled(s) ==> TableOk(c, s))
  }

  lemma StartInv(c: Config)
    requires c.size >= 1
    ensures Inv(c, Start(c))
  {
    CountIdle(c.workers);
  }

  lemma {:induction false} CountIdle(n: nat)
    ensures CountIn(seq(n, _ => Idle)) == 0
  {
    if n > 0 {
      assert seq(n, _ => Idle)[..n - 1] == seq(n - 1, _ => Idle);
      CountIdle(n - 1);
    }
  }

  // ---- the gate is kept ----

  lemma {:induction false} CountUpdate(ts: seq<Pc>, t: nat, pc: Pc)
    requires t < |ts|
    ensures CountIn(ts[t := pc]) == CountIn(ts) + (if Counted(pc) then 1 else 0) - (if Counted(ts[t]) then 1 else 0)
  {
    hide Counted;
    var n := |ts| - 1;
    if t == n {
      assert ts[t := pc][..n] == ts[..n];
    } else {
      assert ts[t := pc][..n] == ts[..n][t := pc];
      CountUpdate(ts[..n], t, pc);
    }
  }

  lemma {:induction false} CountZero(ts: seq<Pc>, t: nat)
    requires t < |ts| && CountIn(ts) == 0
    ensures !Counted(ts[t])
  {
    hide Counted;
    if t < |ts| - 1 {
      CountZero(ts[..|ts| - 1], t);
    }
  }

  lemma CountMove(c: Config, s: State, t: nat, s': State)
    requires LocalTo(c, s, t, s') && t < |s.threads|
    ensures CountIn(s'.threads) == CountIn(s.threads)
              + (if Counted(s'.threads[t]) then 1 else 0) - (if Counted(s.threads[t]) then 1 else 0)
  {
    hide CountIn, Counted, PcShape;
    CountUpdate(s.threads, t, s'.threads[t]);
    assert s'.threads == s.threads[t := s'.threads[t]];
  }

  predicate SameRole(pc: Pc, pc': Pc) {
    Rebuilder(pc) == Rebuilder(pc') && InBody(pc) == InBody(pc')
  }

  /** Any move that accounts for its writer count, leaves the rebuild role alone and does not
      enter the section while a body runs keeps the gate. */
  lemma GateMove(c: Config, s: State, t: nat, s': State)
    requires Gate(s) && LocalTo(c, s, t, s') && t < |s.threads|
    requires s'.rebuilding == s.rebuilding && SameRole(s.threads[t], s'.threads[t])
    requires s'.writers - s.writers
             == (if Counted(s'.threads[t]) then 1 else 0) - (if Counted(s.threads[t]) then 1 else 0)
    requires InSection(s'.threads[t]) ==> InSection(s.threads[t]) || !s.rebuilding
    ensures Gate(s')
    ensures Settled(s') <==> Settled(s)
  {
    hide CountIn, InBody, InSection, Rebuilder, Counted, PcShape;
    CountMove(c, s, t, s');
    BodyRebuilds();
    assert forall u :: 0 <= u < |s.threads| ==> SameRole(s.threads[u], s'.threads[u]);
    forall u, v | 0 <= u < |s'.threads| && 0 <= v < |s'.threads| && InBody(s'.threads[u])
      ensures !InSection(s'.threads[v])
    {
      assert InBody(s.threads[u]) && s.rebuilding;
      assert !InSection(s.threads[v]);
    }
  }

  lemma BodyRebuilds()
    ensures forall pc :: InBody(pc) ==> Rebuilder(pc)
  {}

  // ---- moves that change neither buckets nor channels ----

  /** Holds the same claim or none, and no channel. */
  predicate SameClaim(pc: Pc, pc': Pc) {
    && HasClaim(pc) == HasClaim(pc') && !pc'.Init? && !pc'.Publish?
    && (HasClaim(pc) ==> pc.k == pc'.k && pc.a == pc'.a && pc.wasTomb == pc'.wasTomb)
  }

  lemma QuietLinks(c: Config, s: State, t: nat, s': State)
    requires Shape(c, s) && Shape(c, s') && Links(c, s) && t < |s.threads| && LocalTo(c, s, t, s') && s'.ix == s.ix
    requires SameClaim(s.threads[t], s'.threads[t])
    ensures Links(c, s')
  {
    hide PcShape;
    forall u | 0 <= u < |s'.threads| ensures PcShape(c, s'.threads[u]) && ThreadLinks(c, s'.ix, u, s'.threads[u]) {
      assert ThreadLinks(c, s.ix, u, s.threads[u]);
    }
    forall b | 0 <= b < |s'.ix.buckets| && s'.ix.buckets[b].Claiming?
      ensures ClaimLinked(c, s'.threads, b, s'.ix.buckets[b]) {
      assert ClaimLinked(c, s.threads, b, s.ix.buckets[b]);
    }
  }

  lemma QuietPlaced(c: Config, s: State, t: nat, s': State, lim: nat)
    requires t < |s.threads| && LocalTo(c, s, t, s') && s'.ix == s.ix && !s.threads[t].Publish? && AllPlaced(s, lim)
    ensures AllPlaced(s', lim)
  {
    hide PcShape;
    forall i: nat | i < lim && i < |s'.ix.slots| && s'.ix.slots[i].Live? ensures Placed(s', i) {
      assert Placed(s, i);
      if !(exists b :: 0 <= b < |s.ix.buckets| && s.ix.buckets[b] == Chan(i)) {
        var u :| 0 <= u < |s.threads| && s.threads[u].Publish? && s.threads[u].j == i;
        assert s'.threads[u] == s.threads[u];
      }
    }
  }

  lemma QuietBody(c: Config, s: State, t: nat, s': State, pc: Pc)
    requires Shape(c, s) && Shape(c, s') && t < |s.threads| && LocalTo(c, s, t, s') && s'.ix == s.ix
    requires !s.threads[t].Publish? && PcShape(c, pc) && BodyOk(c, s, pc)
    ensures BodyOk(c, s', pc)
  {
    hide Table, Shape, LocalTo, AllPlaced;
    if Rebuilt(c, s, c.maxChannels) { QuietPlaced(c, s, t, s', c.maxChannels); }
    if (pc.RbInsert? || pc.RbProbe?) && Rebuilt(c, s, pc.i) { QuietPlaced(c, s, t, s', pc.i); }
  }

  /** A move of one thread over an unchanged table: only the gate and that thread's own
      knowledge need an argument. */
  lemma QuietMove(c: Config, s: State, t: nat, s': State)
    requires Inv(c, s) && t < |s.threads| && LocalTo(c, s, t, s') && s'.ix == s.ix && !s.threads[t].Publish?
    requires Shape(c, s') && SameClaim(s.threads[t], s'.threads[t]) && Gate(s')
    requires ThreadOk(c, s.ix, s.reaps, s'.threads[t]) && BodyOk(c, s', s'.threads[t])
    requires Settled(s') ==> TableOk(c, s)
    ensures Inv(c, s')
  {
    hide PcShape, Gate, Links, ThreadOk, Table, BodyOk, AllPlaced, LiveUnique;
    QuietLinks(c, s, t, s');
    forall u | 0 <= u < |s'.threads|
      ensures ThreadOk(c, s'.ix, s'.reaps, s'.threads[u]) && BodyOk(c, s', s'.threads[u]) {
      if u != t {
        assert ThreadOk(c, s.ix, s.reaps, s.threads[u]) && BodyOk(c, s, s.threads[u]);
        QuietBody(c, s, t, s', s.threads[u]);
      }
    }
    if Settled(s') { QuietPlaced(c, s, t, s', c.maxChannels); }
  }

  lemma SectionSettled(s: State, t: nat)
    requires Exclusion(s) && t < |s.threads| && InSection(s.threads[t])
    ensures Settled(s)
  {
    hide InBody, InSection;
  }

  lemma GateInv(c: Config, s: State, t: nat)
    requires Inv(c, s) && t < |s.threads|
    requires var pc := s.threads[t]; !Finding(pc) && !HasClaim(pc) && !pc.RbTry? && !Rebuilder(pc)
    ensures Inv(c, GateStep(c, s, t))
  {
    hide PcShape, Links, Table, AllPlaced, LiveUnique, CountIn, OneRebuilder, Exclusion, Settled;
    var s' := GateStep(c, s, t);
    LocalShape(c, s, t, s');
    assert ThreadOk(c, s.ix, s.reaps, s.threads[t]);
    GateMove(c, s, t, s');
    QuietMove(c, s, t, s');
  }

  lemma FindQuietInv(c: Config, s: State, t: nat)
    requires Inv(c, s) && t < |s.threads| && Finding(s.threads[t])
    requires FindStep(c, s, t).ix == s.ix
    ensures Inv(c, FindStep(c, s, t))
  {
    hide PcShape, Links, Owner, Prefix, LiveUnique, CountIn, OneRebuilder, Exclusion, Settled, Solid, Placed, ScanOk,
         CasOk, AllPlaced, BodyOk;
    var s', pc := FindStep(c, s, t), s.threads[t];
    LocalShape(c, s, t, s');
    SectionSettled(s, t);
    assert ThreadOk(c, s.ix, s.reaps, pc);
    GateMove(c, s, t, s') by { hide *; FindGate(c, s, t); }
    FindKnows(c, s, t);
    NoBody(c, s', s'.threads[t]);
    QuietMove(c, s, t, s');
  }

  /** What a search knows after its next step. */
  lemma FindKnows(c: Config, s: State, t: nat)
    requires Shape(c, s) && t < |s.threads| && Finding(s.threads[t]) && ThreadOk(c, s.ix, s.reaps, s.threads[t])
    requires FindStep(c, s, t).ix == s.ix && ChansLive(s.ix, c.maxChannels) && Chains(c, s.ix)
    ensures ThreadOk(c, s.ix, s.reaps, FindStep(c, s, t).threads[t])
  {
    hide Owner, Prefix, Solid, LocalTo, OneChange;
    match s.threads[t]
    case Scan(k, n, avail) =>
      if BucketAt(c, s.ix, k, n).Empty? { EmptyEndsSearch(c, s.ix, k, n, avail); }
      ScanAdvance(c, s.ix, k, n, avail);
    case Inspect(k, n, avail, i) =>
      ScanAdvance(c, s.ix, k, n, avail);
      if avail.Some? && ScanOk(c, s.ix, k, n + 1, avail) { ScanWraps(c, s.ix, k, n, avail); }
    case Cas(k, a, _) =>
      ScanStarts(c, s.ix, k);
  }

  lemma ScanStarts(c: Config, ix: Index, k: Key)
    requires |ix.buckets| == c.size
    ensures ScanOk(c, ix, k, 0, None)
  {
  }

  lemma FindGate(c: Config, s: State, t: nat)
    requires Shape(c, s) && t < |s.threads| && Finding(s.threads[t])
    ensures var s' := FindStep(c, s, t);
            && s'.rebuilding == s.rebuilding && s'.writers == s.writers && SameRole(s.threads[t], s'.threads[t])
            && Counted(s'.threads[t]) && Counted(s.threads[t]) && InSection(s.threads[t])
  {}

  // ---- moves inside the writer section that change the table ----

  ghost predicate OthersKnow(c: Config, s: State, t: nat, ix: Index)
    requires Shape(c, s) && |ix.buckets| == c.size
  {
    forall u {:trigger s.threads[u]} :: 0 <= u < |s.threads| && u != t ==> ThreadOk(c, ix, s.reaps, s.threads[u])
  }

  lemma WorkMove(c: Config, s: State, t: nat, s': State)
    requires Inv(c, s) && t < |s.threads| && LocalTo(c, s, t, s') && Shape(c, s')
    requires InSection(s.threads[t]) && InSection(s'.threads[t])
    requires s'.rebuilding == s.rebuilding && s'.writers == s.writers
    requires Links(c, s') && LiveUnique(s'.ix) && TableOk(c, s')
    requires OthersKnow(c, s, t, s'.ix) && ThreadOk(c, s'.ix, s.reaps, s'.threads[t])
    ensures Inv(c, s')
  {
    SectionRole(s.threads[t], s'.threads[t]);
    SectionSettled(s, t);
    GateMove(c, s, t, s');
    hide PcShape, Gate, Links, ThreadOk, TableOk, LiveUnique, InBody, BodyOk;
    forall u | 0 <= u < |s'.threads|
      ensures ThreadOk(c, s'.ix, s'.reaps, s'.threads[u]) && BodyOk(c, s', s'.threads[u]) {
      if u != t {
        assert ThreadOk(c, s'.ix, s.reaps, s.threads[u]);
      }
      assert !InBody(s'.threads[u]);
      NoBody(c, s', s'.threads[u]);
    }
  }

  lemma SectionRole(pc: Pc, pc': Pc)
    requires InSection(pc) && InSection(pc')
    ensures SameRole(pc, pc') && Counted(pc) && Counted(pc')
  {}

  lemma NoBody(c: Config, s: State, pc: Pc)
    requires Shape(c, s) && PcShape(c, pc) && !InBody(pc)
    ensures BodyOk(c, s, pc)
  {}

  // -- the claiming CAS --

  lemma ClaimOthers(c: Config, s: State, t: nat, k: Key, a: nat, w: bool)
    requires Shape(c, s) && ThreadsOk(c, s) && a < c.size && CanClaim(c, s.ix, k, a, w)
    ensures OthersKnow(c, s, t, Set(s.ix, c.Pos(k, a), Claiming(t, k, w)))
  {
    hide CanClaim, ScanOk, CasOk;
    var ix' := Set(s.ix, c.Pos(k, a), Claiming(t, k, w));
    forall u | 0 <= u < |s.threads| ensures ThreadOk(c, ix', s.reaps, s.threads[u]) {
      var pc := s.threads[u];
      assert ThreadOk(c, s.ix, s.reaps, pc);
      if pc.Scan? || pc.Inspect? {
        ClaimScan(c, s.ix, k, a, t, w, pc.k, pc.n, pc.avail);
        if pc.Inspect? {
          if BucketAt(c, s.ix, pc.k, pc.n).Chan? { ClaimKeepsChan(c, s.ix, k, a, t, w, pc.k, pc.n); }
          if ScanOk(c, s.ix, pc.k, pc.n + 1, pc.avail) { ClaimScan(c, s.ix, k, a, t, w, pc.k, pc.n + 1, pc.avail); }
        }
      } else if pc.Cas? {
        ClaimCas(c, s.ix, k, a, t, w, pc.k, pc.a);
      }
    }
  }

  lemma ClaimKeepsChan(c: Config, ix: Index, k: Key, a: nat, t: nat, w: bool, q: Key, n: nat)
    requires CanClaim(c, ix, k, a, w) && n < c.size && BucketAt(c, ix, q, n).Chan?
    ensures BucketAt(c, Set(ix, c.Pos(k, a), Claiming(t, k, w)), q, n) == BucketAt(c, ix, q, n)
  {}

  lemma ClaimLinks(c: Config, s: State, t: nat, k: Key, a: nat, w: bool, s': State)
    requires Shape(c, s) && Shape(c, s') && Links(c, s) && t < |s.threads| && LocalTo(c, s, t, s')
    requires s.threads[t] == Cas(k, a, w) && s'.threads[t] == Alloc(k, a, w, 0)
    requires CanClaim(c, s.ix, k, a, w) && s'.ix == Set(s.ix, c.Pos(k, a), Claiming(t, k, w))
    ensures Links(c, s')
  {
    forall u | 0 <= u < |s'.threads| ensures ThreadLinks(c, s'.ix, u, s'.threads[u]) {
      assert ThreadLinks(c, s.ix, u, s.threads[u]);
    }
    forall b | 0 <= b < |s'.ix.buckets| && s'.ix.buckets[b].Claiming?
      ensures ClaimLinked(c, s'.threads, b, s'.ix.buckets[b]) {
      if b != c.Pos(k, a) {
        assert ClaimLinked(c, s.threads, b, s.ix.buckets[b]);
      }
    }
  }

  /** Buckets are only added to what is placed, unless they carried a channel. */
  lemma PlacedKept(c: Config, s: State, t: nat, s': State, p: nat, b: Bucket, lim: nat)
    requires t < |s.threads| && LocalTo(c, s, t, s') && p < |s.ix.buckets| && s'.ix == Set(s.ix, p, b)
    requires !s.ix.buckets[p].Chan? && AllPlaced(s, lim)
    requires s.threads[t].Publish? ==> b == Chan(s.threads[t].j)
    ensures AllPlaced(s', lim)
  {
    hide PcShape;
    forall i: nat | i < lim && i < |s'.ix.slots| && s'.ix.slots[i].Live? ensures Placed(s', i) {
      assert Placed(s, i);
      if q :| 0 <= q < |s.ix.buckets| && s.ix.buckets[q] == Chan(i) {
        assert s'.ix.buckets[q] == Chan(i);
      } else {
        var u :| 0 <= u < |s.threads| && s.threads[u].Publish? && s.threads[u].j == i;
        if u == t {
          assert s'.ix.buckets[p] == Chan(i);
        } else {
          assert s'.threads[u] == s.threads[u];
        }
      }
    }
  }

  lemma CasInv(c: Config, s: State, t: nat)
    requires Inv(c, s) && t < |s.threads| && s.threads[t].Cas? && FindStep(c, s, t).ix != s.ix
    ensures Inv(c, FindStep(c, s, t))
  {
    var s', k, a, w := FindStep(c, s, t), s.threads[t].k, s.threads[t].a, s.threads[t].wasTomb;
    LocalShape(c, s, t, s');
    SectionSettled(s, t);
    assert ThreadOk(c, s.ix, s.reaps, s.threads[t]);
    assert CanClaim(c, s.ix, k, a, w);
    hide PcShape, Links, CasOk, ScanOk, LocalTo, Gate, Table, Placed, AllPlaced, CanClaim, ThreadsOk, BodiesOk, Settled;
    ClaimTable(c, s.ix, k, a, t, w, c.maxChannels);
    ClaimOthers(c, s, t, k, a, w);
    ClaimLinks(c, s, t, k, a, w, s');
    PlacedKept(c, s, t, s', c.Pos(k, a), Claiming(t, k, w), c.maxChannels);
    WorkMove(c, s, t, s');
  }

  // -- taking and filling a channel --

  lemma SlotOthers(c: Config, s: State, t: nat, j: nat, v: Slot)
    requires Shape(c, s) && ThreadsOk(c, s) && j < |s.ix.slots| && Hidden(c, s.ix, j) && !v.Dying?
    ensures OthersKnow(c, s, t, SetSlot(s.ix, j, v))
  {
    var ix' := SetSlot(s.ix, j, v);
    forall u | 0 <= u < |s.threads| ensures ThreadOk(c, ix', s.reaps, s.threads[u]) {
      hide Hidden, ScanOk, CasOk;
      var pc := s.threads[u];
      assert ThreadOk(c, s.ix, s.reaps, pc);
      if pc.Scan? || pc.Inspect? {
        SlotSearch(c, s.ix, j, v, pc.k, pc.n, pc.avail);
        if pc.Inspect? { SlotSearch(c, s.ix, j, v, pc.k, pc.n + 1, pc.avail); }
      } else if pc.Cas? {
        SlotSearch(c, s.ix, j, v, pc.k, pc.a, None);
      }
    }
  }

  lemma AllocLinks(c: Config, s: State, t: nat, s': State)
    requires Shape(c, s) && Shape(c, s') && Links(c, s) && t < |s.threads| && LocalTo(c, s, t, s')
    requires var pc := s.threads[t];
             && pc.Alloc? && pc.j < c.maxChannels && s.ix.slots[pc.j] == Free
             && s'.threads[t] == Init(pc.k, pc.a, pc.wasTomb, pc.j) && s'.ix == SetSlot(s.ix, pc.j, Building(t))
    ensures Links(c, s')
  {
    forall u | 0 <= u < |s'.threads| ensures ThreadLinks(c, s'.ix, u, s'.threads[u]) {
      assert ThreadLinks(c, s.ix, u, s.threads[u]);
    }
    forall b | 0 <= b < |s'.ix.buckets| && s'.ix.buckets[b].Claiming?
      ensures ClaimLinked(c, s'.threads, b, s'.ix.buckets[b]) {
      assert ClaimLinked(c, s.threads, b, s.ix.buckets[b]);
    }
  }

  lemma InitLinks(c: Config, s: State, t: nat, s': State)
    requires Shape(c, s) && Shape(c, s') && Links(c, s) && t < |s.threads| && LocalTo(c, s, t, s')
    requires var pc := s.threads[t];
             && pc.Init? && Hidden(c, s.ix, pc.j)
             && s'.threads[t] == Publish(pc.k, pc.a, pc.wasTomb, pc.j) && s'.ix == SetSlot(s.ix, pc.j, Live(pc.k))
    ensures Links(c, s')
  {
    assert ThreadLinks(c, s.ix, t, s.threads[t]);
    forall u | 0 <= u < |s'.threads| ensures ThreadLinks(c, s'.ix, u, s'.threads[u]) {
      assert ThreadLinks(c, s.ix, u, s.threads[u]);
    }
    forall b | 0 <= b < |s'.ix.buckets| && s'.ix.buckets[b].Claiming?
      ensures ClaimLinked(c, s'.threads, b, s'.ix.buckets[b]) {
      assert ClaimLinked(c, s.threads, b, s.ix.buckets[b]);
    }
  }

  lemma SlotPlaced(c: Config, s: State, t: nat, s': State, j: nat, v: Slot, lim: nat)
    requires t < |s.threads| && LocalTo(c, s, t, s') && j < |s.ix.slots| && s'.ix == SetSlot(s.ix, j, v)
    requires AllPlaced(s, lim) && !s.threads[t].Publish?
    requires v.Live? ==> s'.threads[t].Publish? && s'.threads[t].j == j
    ensures AllPlaced(s', lim)
  {
    hide PcShape;
    forall i: nat | i < lim && i < |s'.ix.slots| && s'.ix.slots[i].Live? ensures Placed(s', i) {
      if i != j {
        assert Placed(s, i);
        if q :| 0 <= q < |s.ix.buckets| && s.ix.buckets[q] == Chan(i) {
          assert s'.ix.buckets[q] == Chan(i);
        } else {
          var u :| 0 <= u < |s.threads| && s.threads[u].Publish? && s.threads[u].j == i;
          assert s'.threads[u] == s.threads[u];
        }
      }
    }
  }

  lemma AllocInv(c: Config, s: State, t: nat)
    requires Inv(c, s) && t < |s.threads| && s.threads[t].Alloc?
    ensures Inv(c, ClaimStep(c, s, t))
  {
    var s', pc := ClaimStep(c, s, t), s.threads[t];
    LocalShape(c, s, t, s');
    SectionSettled(s, t);
    if pc.j < c.maxChannels && s.ix.slots[pc.j] == Free {
      assert Hidden(c, s.ix, pc.j);
      AllocLinks(c, s, t, s');
      hide PcShape, Links, LocalTo, Gate, Placed, AllPlaced, ThreadsOk, BodiesOk, Settled, Hidden, Chains, OneOwner;
      SlotTable(c, s.ix, pc.j, Building(t));
      SlotOthers(c, s, t, pc.j, Building(t));
      SlotPlaced(c, s, t, s', pc.j, Building(t), c.maxChannels);
      WorkMove(c, s, t, s');
    } else {
      hide Links, LocalTo, Placed, AllPlaced, ThreadsOk, Settled, Table;
      GateMove(c, s, t, s');
      QuietMove(c, s, t, s');
    }
  }

  /** The holder of a key's claim is the only one about to bring a channel of that key to life. */
  lemma ClaimMeansFresh(c: Config, s: State, t: nat, i: nat)
    requires Shape(c, s) && Links(c, s) && TableOk(c, s) && t < |s.threads|
    requires HasClaim(s.threads[t]) && i < |s.ix.slots| && s.ix.slots[i] == Live(s.threads[t].k)
    ensures s.threads[t].Publish? && s.threads[t].j == i
  {
    var k := s.threads[t].k;
    assert ThreadLinks(c, s.ix, t, s.threads[t]);
    assert Owner(c, s.ix, k, s.threads[t].a);
    forall b | 0 <= b < |s.ix.buckets| ensures s.ix.buckets[b] != Chan(i) {
      var e := DistanceTo(c, k, b);
      assert Owner(c, s.ix, k, e) ==> e == s.threads[t].a;
    }
    assert Placed(s, i);
    var u :| 0 <= u < |s.threads| && s.threads[u].Publish? && s.threads[u].j == i;
    assert ThreadLinks(c, s.ix, u, s.threads[u]);
    assert Owner(c, s.ix, k, s.threads[u].a);
  }

  lemma InitInv(c: Config, s: State, t: nat)
    requires Inv(c, s) && t < |s.threads| && s.threads[t].Init?
    ensures Inv(c, ClaimStep(c, s, t))
  {
    var s', pc := ClaimStep(c, s, t), s.threads[t];
    LocalShape(c, s, t, s');
    SectionSettled(s, t);
    assert ThreadLinks(c, s.ix, t, pc);
    assert Hidden(c, s.ix, pc.j);
    forall i: nat | i < |s.ix.slots| ensures s.ix.slots[i] != Live(pc.k) {
      if s.ix.slots[i] == Live(pc.k) { ClaimMeansFresh(c, s, t, i); }
    }
    InitLinks(c, s, t, s');
    hide PcShape, Links, LocalTo, Gate, Placed, AllPlaced, ThreadsOk, BodiesOk, Settled, Hidden, Chains, OneOwner,
         ThreadLinks;
    SlotTable(c, s.ix, pc.j, Live(pc.k));
    SlotOthers(c, s, t, pc.j, Live(pc.k));
    SlotPlaced(c, s, t, s', pc.j, Live(pc.k), c.maxChannels);
    WorkMove(c, s, t, s');
  }

  // -- publishing and rolling back --

  lemma PublishOthers(c: Config, s: State, t: nat, k: Key, a: nat, j: nat)
    requires Shape(c, s) && ThreadsOk(c, s) && a < c.size && CanPublish(c, s.ix, k, a, j)
    ensures OthersKnow(c, s, t, Set(s.ix, c.Pos(k, a), Chan(j)))
  {
    var ix' := Set(s.ix, c.Pos(k, a), Chan(j));
    forall u | 0 <= u < |s.threads| ensures ThreadOk(c, ix', s.reaps, s.threads[u]) {
      hide ScanOk, CasOk;
      var pc := s.threads[u];
      assert ThreadOk(c, s.ix, s.reaps, pc);
      if pc.Scan? || pc.Inspect? {
        PublishSearch(c, s.ix, k, a, j, pc.k, pc.n, pc.avail);
        if pc.Inspect? { PublishSearch(c, s.ix, k, a, j, pc.k, pc.n + 1, pc.avail); }
      } else if pc.Cas? {
        PublishSearch(c, s.ix, k, a, j, pc.k, pc.a, None);
      }
    }
  }

  lemma PublishLinks(c: Config, s: State, t: nat, s': State)
    requires Shape(c, s) && Shape(c, s') && Links(c, s) && TableOk(c, s) && t < |s.threads| && LocalTo(c, s, t, s')
    requires s.threads[t].Publish? && !HasClaim(s'.threads[t])
    requires s'.ix == Set(s.ix, c.Pos(s.threads[t].k, s.threads[t].a), Chan(s.threads[t].j))
    ensures Links(c, s')
  {
    assert ThreadLinks(c, s.ix, t, s.threads[t]);
    forall u | 0 <= u < |s'.threads| ensures ThreadLinks(c, s'.ix, u, s'.threads[u]) {
      assert ThreadLinks(c, s.ix, u, s.threads[u]);
      if u != t && s.threads[u].Publish? && s.threads[u].j == s.threads[t].j {
        assert Owner(c, s.ix, s.threads[t].k, s.threads[u].a) && Owner(c, s.ix, s.threads[t].k, s.threads[t].a);
      }
    }
    forall b | 0 <= b < |s'.ix.buckets| && s'.ix.buckets[b].Claiming?
      ensures ClaimLinked(c, s'.threads, b, s'.ix.buckets[b]) {
      assert ClaimLinked(c, s.threads, b, s.ix.buckets[b]);
    }
  }

  lemma PublishInv(c: Config, s: State, t: nat)
    requires Inv(c, s) && t < |s.threads| && s.threads[t].Publish?
    ensures Inv(c, ClaimStep(c, s, t))
  {
    var s', pc := ClaimStep(c, s, t), s.threads[t];
    LocalShape(c, s, t, s');
    SectionSettled(s, t);
    assert ThreadLinks(c, s.ix, t, pc);
    assert CanPublish(c, s.ix, pc.k, pc.a, pc.j);
    PublishLinks(c, s, t, s');
    hide PcShape, Links, LocalTo, Gate, Placed, AllPlaced, ThreadsOk, BodiesOk, Settled, Table, ThreadLinks, CanPublish;
    PublishTable(c, s.ix, pc.k, pc.a, pc.j);
    PublishOthers(c, s, t, pc.k, pc.a, pc.j);
    PlacedKept(c, s, t, s', c.Pos(pc.k, pc.a), Chan(pc.j), c.maxChannels);
    WorkMove(c, s, t, s');
  }

  lemma UnclaimOthers(c: Config, s: State, t: nat, k: Key, a: nat, w: bool)
    requires Shape(c, s) && ThreadsOk(c, s) && a < c.size && CanUnclaim(c, s.ix, k, a, w)
    ensures OthersKnow(c, s, t, Unclaimed(c, s.ix, k, a, w))
  {
    var ix' := Unclaimed(c, s.ix, k, a, w);
    forall u | 0 <= u < |s.threads| ensures ThreadOk(c, ix', s.reaps, s.threads[u]) {
      hide ScanOk, CasOk;
      var pc := s.threads[u];
      assert ThreadOk(c, s.ix, s.reaps, pc);
      if pc.Scan? || pc.Inspect? {
        UnclaimSearch(c, s.ix, k, a, w, pc.k, pc.n, pc.avail);
        if pc.Inspect? { UnclaimSearch(c, s.ix, k, a, w, pc.k, pc.n + 1, pc.avail); }
      } else if pc.Cas? {
        UnclaimSearch(c, s.ix, k, a, w, pc.k, pc.a, None);
      }
    }
  }

  lemma RollbackLinks(c: Config, s: State, t: nat, s': State)
    requires Shape(c, s) && Shape(c, s') && Links(c, s) && TableOk(c, s) && t < |s.threads| && LocalTo(c, s, t, s')
    requires s.threads[t].Rollback? && !HasClaim(s'.threads[t])
    requires s'.ix == Unclaimed(c, s.ix, s.threads[t].k, s.threads[t].a, s.threads[t].wasTomb)
    ensures Links(c, s')
  {
    assert ThreadLinks(c, s.ix, t, s.threads[t]);
    forall u | 0 <= u < |s'.threads| ensures ThreadLinks(c, s'.ix, u, s'.threads[u]) {
      assert ThreadLinks(c, s.ix, u, s.threads[u]);
    }
    forall b | 0 <= b < |s'.ix.buckets| && s'.ix.buckets[b].Claiming?
      ensures ClaimLinked(c, s'.threads, b, s'.ix.buckets[b]) {
      assert ClaimLinked(c, s.threads, b, s.ix.buckets[b]);
    }
  }

  lemma RollbackInv(c: Config, s: State, t: nat)
    requires Inv(c, s) && t < |s.threads| && s.threads[t].Rollback?
    ensures Inv(c, ClaimStep(c, s, t))
  {
    var s', pc := ClaimStep(c, s, t), s.threads[t];
    LocalShape(c, s, t, s');
    SectionSettled(s, t);
    assert ThreadLinks(c, s.ix, t, pc);
    assert CanUnclaim(c, s.ix, pc.k, pc.a, pc.wasTomb);
    RollbackLinks(c, s, t, s');
    hide PcShape, Links, LocalTo, Gate, Placed, AllPlaced, ThreadsOk, BodiesOk, Settled, Table, ThreadLinks, CanUnclaim;
    UnclaimTable(c, s.ix, pc.k, pc.a, pc.wasTomb, c.maxChannels);
    UnclaimOthers(c, s, t, pc.k, pc.a, pc.wasTomb);
    PlacedKept(c, s, t, s', c.Pos(pc.k, pc.a), if pc.wasTomb then Tomb else Empty, c.maxChannels);
    WorkMove(c, s, t, s');
  }

  // ---- the rebuild ----

  /** A step of the rebuild body: with nobody in the section only its own progress matters. */
  lemma BodyMove(c: Config, s: State, t: nat, s': State)
    requires Inv(c, s) && t < |s.threads| && LocalTo(c, s, t, s') && Shape(c, s')
    requires InBody(s.threads[t]) && InBody(s'.threads[t])
    requires s'.rebuilding == s.rebuilding && s'.writers == s.writers && s'.ix.slots == s.ix.slots
    requires forall b {:trigger s'.ix.buckets[b]} :: 0 <= b < |s'.ix.buckets| && s'.ix.buckets[b].Claiming? ==>
             s'.ix.buckets[b] == s.ix.buckets[b]
    requires BodyOk(c, s', s'.threads[t])
    ensures Inv(c, s')
  {
    GateMove(c, s, t, s');
    assert !Settled(s');
    forall u | 0 <= u < |s'.threads|
      ensures ThreadOk(c, s'.ix, s'.reaps, s'.threads[u]) && BodyOk(c, s', s'.threads[u])
              && ThreadLinks(c, s'.ix, u, s'.threads[u])
    {
      hide BodyOk, Gate, Links, LiveUnique;
      assert !InSection(s'.threads[u]);
      if u != t {
        assert ThreadOk(c, s.ix, s.reaps, s.threads[u]);
        assert !InBody(s'.threads[u]);
        NoBody(c, s', s'.threads[u]);
      }
    }
    forall b | 0 <= b < |s'.ix.buckets| ensures !s'.ix.buckets[b].Claiming? {
      assert s.ix.buckets[b].Claiming? ==> ClaimLinked(c, s.threads, b, s.ix.buckets[b]);
    }
  }

  /** Opening a rebuild: the CAS makes at most one thread the rebuilder. */
  lemma TryInv(c: Config, s: State, t: nat)
    requires Inv(c, s) && t < |s.threads| && s.threads[t].RbTry?
    ensures Inv(c, RebuildStep(c, s, t))
  {
    var s' := RebuildStep(c, s, t);
    LocalShape(c, s, t, s');
    TryGate(c, s, t);
    SettledBack(c, s, t, s');
    hide Links, Table, AllPlaced, LiveUnique, CountIn, Settled, PcShape, Gate;
    QuietMove(c, s, t, s');
  }

  lemma TryGate(c: Config, s: State, t: nat)
    requires Shape(c, s) && Gate(s) && t < |s.threads| && s.threads[t].RbTry?
    ensures Gate(RebuildStep(c, s, t))
  {
    CountMove(c, s, t, RebuildStep(c, s, t));
    hide PcShape, CountIn;
  }

  lemma SettledBack(c: Config, s: State, t: nat, s': State)
    requires LocalTo(c, s, t, s') && !InBody(s.threads[t])
    ensures Settled(s') ==> Settled(s)
  {
    hide InBody, PcShape;
    if Settled(s') {
      forall u | 0 <= u < |s.threads| ensures !InBody(s.threads[u]) {
        assert u != t ==> s'.threads[u] == s.threads[u];
      }
    }
  }

  /** Entering the body: a zero writer count means the section is empty, and it stays so. */
  lemma WaitInv(c: Config, s: State, t: nat)
    requires Inv(c, s) && t < |s.threads| && s.threads[t].RbWait?
    ensures Inv(c, RebuildStep(c, s, t))
  {
    var s' := RebuildStep(c, s, t);
    LocalShape(c, s, t, s');
    CountMove(c, s, t, s');
    if s.writers == 0 {
      forall u | 0 <= u < |s.threads| ensures !InSection(s.threads[u]) { CountZero(s.threads, u); }
      hide Links, Table, AllPlaced, LiveUnique, CountIn, PcShape;
      assert !Settled(s') by { assert InBody(s'.threads[t]); }
      QuietMove(c, s, t, s');
    }
  }

  /** Closing a rebuild: the finished table is the table of the settled state. */
  lemma ReleaseInv(c: Config, s: State, t: nat)
    requires Inv(c, s) && t < |s.threads| && s.threads[t].RbRelease?
    ensures Inv(c, RebuildStep(c, s, t))
  {
    var s' := RebuildStep(c, s, t);
    LocalShape(c, s, t, s');
    CountMove(c, s, t, s');
    assert BodyOk(c, s, s.threads[t]);
    hide Links, Table, AllPlaced, LiveUnique, CountIn, Settled, PcShape;
    QuietMove(c, s, t, s');
  }

  lemma ClearInv(c: Config, s: State, t: nat)
    requires Inv(c, s) && t < |s.threads| && s.threads[t].RbClear?
    ensures Inv(c, RebuildStep(c, s, t))
  {
    var s', pc := RebuildStep(c, s, t), s.threads[t];
    LocalShape(c, s, t, s');
    assert BodyOk(c, s, pc);
    hide Gate, Links, LiveUnique, Settled, TableOk;
    BodyMove(c, s, t, s');
  }

  lemma WiderTable(c: Config, s: State, s': State, i: nat)
    requires Shape(c, s) && Shape(c, s') && Rebuilt(c, s, i) && s'.ix == s.ix && i < |s.ix.slots|
             && !s.ix.slots[i].Live?
    requires forall u :: 0 <= u < |s.threads| ==> !s.threads[u].Publish?
    ensures Rebuilt(c, s', i + 1)
  {
    assert forall j: nat :: Placed(s, j) ==> Placed(s', j);
  }

  lemma StillRebuilt(c: Config, s: State, s': State, i: nat)
    requires Shape(c, s) && Shape(c, s') && Rebuilt(c, s, i) && s'.ix == s.ix
    requires forall u :: 0 <= u < |s.threads| ==> !s.threads[u].Publish?
    ensures Rebuilt(c, s', i)
  {
    assert forall j: nat :: Placed(s, j) ==> Placed(s', j);
  }

  lemma InsertRebuilt(c: Config, s: State, s': State, i: nat, n: nat)
    requires Shape(c, s) && Shape(c, s') && Rebuilt(c, s, i) && LiveUnique(s.ix)
    requires forall u :: 0 <= u < |s.threads| ==> !s.threads[u].Publish?
    requires i < |s.ix.slots| && n < c.size && s.ix.slots[i].Live?
    requires BucketAt(c, s.ix, s.ix.slots[i].key, n) == Empty
    requires forall m: nat :: m < n ==> BucketAt(c, s.ix, s.ix.slots[i].key, m) != Empty
    requires s'.ix == Set(s.ix, c.Pos(s.ix.slots[i].key, n), Chan(i))
    ensures Rebuilt(c, s', i + 1)
  {
    InsertTable(c, s.ix, i, n);
    hide Table, OnlyChans, LiveUnique;
    forall j: nat | j < i + 1 && j < |s'.ix.slots| && s'.ix.slots[j].Live? ensures Placed(s', j) {
      if j == i {
        assert s'.ix.buckets[c.Pos(s.ix.slots[i].key, n)] == Chan(i);
      } else {
        assert Placed(s, j);
        var b :| 0 <= b < |s.ix.buckets| && s.ix.buckets[b] == Chan(j);
        assert s'.ix.buckets[b] == Chan(j);
      }
    }
  }

  lemma BodyNoPublish(s: State, t: nat)
    requires Exclusion(s) && t < |s.threads| && InBody(s.threads[t])
    ensures forall u :: 0 <= u < |s.threads| ==> !s.threads[u].Publish?
  {
    assert forall pc: Pc :: pc.Publish? ==> InSection(pc);
    hide InBody, InSection;
  }

  lemma InsertInv(c: Config, s: State, t: nat)
    requires Inv(c, s) && t < |s.threads| && (s.threads[t].RbInsert? || s.threads[t].RbProbe?) && !MeetsDying(s, t)
    ensures Inv(c, RebuildStep(c, s, t))
  {
    var s', pc := RebuildStep(c, s, t), s.threads[t];
    LocalShape(c, s, t, s');
    assert BodyOk(c, s, pc);
    BodyNoPublish(s, t);
    hide Gate, Links, LiveUnique, Settled, TableOk, Table, AllPlaced, OnlyChans;
    if pc.RbInsert? {
      if pc.i < c.maxChannels && !s.ix.slots[pc.i].Live? {
        WiderTable(c, s, s', pc.i);
      } else {
        StillRebuilt(c, s, s', pc.i);
      }
    } else if BucketAt(c, s.ix, s.ix.slots[pc.i].key, pc.n) == Empty {
      InsertRebuilt(c, s, s', pc.i, pc.n);
    } else {
      StillRebuilt(c, s, s', pc.i);
    }
    BodyMove(c, s, t, s');
  }

  // ---- reaping, and actions of idle threads ----

  /** A tombstone ahead of every search disturbs none of them. */
  lemma ReapInv(c: Config, s: State, i: nat)
    requires Inv(c, s) && Reapable(c, s, i)
    ensures Inv(c, HalfReap(s, i))
  {
    var s' := HalfReap(s, i);
    assert Settled(s);
    ReapTable(c, s, i, Dying(s.ix.slots[i].key));
    ReapLinks(c, s, i);
    ReapPlaced(c, s, i);
    forall u | 0 <= u < |s'.threads|
      ensures ThreadOk(c, s'.ix, s'.reaps, s'.threads[u]) && BodyOk(c, s', s'.threads[u]) {
      ReapKnows(c, s, i, u);
    }
    hide Table, CountIn, Links, AllPlaced;
  }

  lemma ReapLinks(c: Config, s: State, i: nat)
    requires Inv(c, s) && Reapable(c, s, i)
    ensures Shape(c, HalfReap(s, i)) && Links(c, HalfReap(s, i))
  {
    hide Table, CountIn, ThreadOk, BodyOk, AllPlaced, LiveUnique, Gate;
    var s' := HalfReap(s, i);
    forall u | 0 <= u < |s'.threads| ensures ThreadLinks(c, s'.ix, u, s'.threads[u]) {
      assert ThreadLinks(c, s.ix, u, s.threads[u]);
    }
    forall b | 0 <= b < |s'.ix.buckets| && s'.ix.buckets[b].Claiming?
      ensures ClaimLinked(c, s'.threads, b, s'.ix.buckets[b]) {
      assert ClaimLinked(c, s.threads, b, s.ix.buckets[b]);
    }
  }

  lemma ReapPlaced(c: Config, s: State, i: nat)
    requires Inv(c, s) && Reapable(c, s, i) && Settled(s)
    ensures AllPlaced(HalfReap(s, i), c.maxChannels)
  {
    hide Table, CountIn, ThreadOk, BodyOk, Links, LiveUnique, Gate, PcShape, Ahead;
    var s' := HalfReap(s, i);
    forall j: nat | j < |s'.ix.slots| && s'.ix.slots[j].Live? ensures Placed(s', j) {
      assert Placed(s, j);
      if b :| 0 <= b < |s.ix.buckets| && s.ix.buckets[b] == Chan(j) {
        assert s'.ix.buckets[b] == Chan(j);
      }
    }
  }

  lemma ReapKnows(c: Config, s: State, i: nat, u: nat)
    requires Inv(c, s) && Reapable(c, s, i) && u < |s.threads| && Shape(c, HalfReap(s, i))
    ensures ThreadOk(c, HalfReap(s, i).ix, s.reaps + 1, s.threads[u]) && BodyOk(c, HalfReap(s, i), s.threads[u])
  {
    hide Table, CountIn, Links, AllPlaced, LiveUnique, Gate, ScanOk, CasOk;
    var pc, gone := s.threads[u], Dying(s.ix.slots[i].key);
    assert ThreadOk(c, s.ix, s.reaps, pc) && !InBody(pc) && Ahead(c, s.ix, pc, i);
    if pc.Scan? {
      ReapScan(c, s, i, gone, pc.k, pc.n, pc.avail);
    } else if pc.Inspect? {
      ReapScan(c, s, i, gone, pc.k, pc.n, pc.avail);
      ReapInspect(c, s, i, gone, pc.k, pc.n, pc.avail, pc.i);
    } else if pc.Cas? {
      ReapCas(c, s, i, gone, pc.k, pc.a);
    }
  }

  /** The end of a reap: a channel no bucket shows becomes free. */
  lemma ReleaseSlotInv(c: Config, s: State, i: nat)
    requires Inv(c, s) && i < |s.ix.slots| && s.ix.slots[i].Dying?
    ensures Inv(c, Released(s, i))
  {
    var s' := Released(s, i);
    assert s'.ix == SetSlot(s.ix, i, Free);
    hide Table, CountIn, LiveUnique, AllPlaced, Links, ThreadOk, BodyOk, PcShape;
    ReleaseLinks(c, s, i);
    forall u | 0 <= u < |s'.threads|
      ensures ThreadOk(c, s'.ix, s'.reaps, s'.threads[u]) && BodyOk(c, s', s'.threads[u]) {
      assert ThreadOk(c, s.ix, s.reaps, s.threads[u]) && BodyOk(c, s, s.threads[u]);
      ReleaseKnows(c, s, i, u);
    }
    if Settled(s) {
      DeadTable(c, s.ix, i, Free, c.maxChannels);
      ReleasePlaced(c, s, i, c.maxChannels);
    }
  }

  lemma ReleaseLinks(c: Config, s: State, i: nat)
    requires Shape(c, s) && Links(c, s) && LiveUnique(s.ix) && i < |s.ix.slots| && s.ix.slots[i].Dying?
    ensures Shape(c, Released(s, i)) && Links(c, Released(s, i)) && LiveUnique(Released(s, i).ix)
  {
    var s' := Released(s, i);
    forall u | 0 <= u < |s'.threads| ensures ThreadLinks(c, s'.ix, u, s'.threads[u]) {
      assert ThreadLinks(c, s.ix, u, s.threads[u]);
    }
    forall b | 0 <= b < |s'.ix.buckets| && s'.ix.buckets[b].Claiming?
      ensures ClaimLinked(c, s'.threads, b, s'.ix.buckets[b]) {
      assert ClaimLinked(c, s.threads, b, s.ix.buckets[b]);
    }
  }

  lemma ReleasePlaced(c: Config, s: State, i: nat, lim: nat)
    requires Shape(c, s) && AllPlaced(s, lim) && i < |s.ix.slots|
    ensures AllPlaced(Released(s, i), lim)
  {
    hide PcShape;
    var s' := Released(s, i);
    forall j: nat | j < lim && j < |s'.ix.slots| && s'.ix.slots[j].Live? ensures Placed(s', j) {
      assert Placed(s, j);
    }
  }

  lemma ReleaseKnows(c: Config, s: State, i: nat, u: nat)
    requires Shape(c, s) && i < |s.ix.slots| && s.ix.slots[i].Dying? && u < |s.threads| && Shape(c, Released(s, i))
    requires ThreadOk(c, s.ix, s.reaps, s.threads[u]) && BodyOk(c, s, s.threads[u])
    ensures ThreadOk(c, Released(s, i).ix, s.reaps, s.threads[u]) && BodyOk(c, Released(s, i), s.threads[u])
  {
    var pc := s.threads[u];
    ReleaseSearch(c, s, i, pc);
    hide ThreadOk, Table, AllPlaced, OnlyChans;
    match pc
    case RbInsert(j) => ReleaseRebuilt(c, s, i, j);
    case RbProbe(j, n) =>
      ReleaseRebuilt(c, s, i, j);
      forall m: nat | m < n ensures BucketAt(c, Released(s, i).ix, s.ix.slots[j].key, m) != Empty {
        assert BucketAt(c, s.ix, s.ix.slots[j].key, m) != Empty;
      }
    case RbRelease => ReleaseRebuilt(c, s, i, c.maxChannels);
    case _ =>
  }

  lemma ReleaseSearch(c: Config, s: State, i: nat, pc: Pc)
    requires Shape(c, s) && i < |s.ix.slots| && s.ix.slots[i].Dying? && PcShape(c, pc)
    requires ThreadOk(c, s.ix, s.reaps, pc)
    ensures ThreadOk(c, Released(s, i).ix, s.reaps, pc)
  {
    hide ScanOk, CasOk;
    if pc.Scan? {
      DeadSearch(c, s.ix, i, Free, pc.k, pc.n, pc.avail);
    } else if pc.Inspect? {
      DeadSearch(c, s.ix, i, Free, pc.k, pc.n, pc.avail);
      DeadSearch(c, s.ix, i, Free, pc.k, pc.n + 1, pc.avail);
    } else if pc.Cas? {
      DeadSearch(c, s.ix, i, Free, pc.k, pc.a, None);
    }
  }

  lemma ReleaseRebuilt(c: Config, s: State, i: nat, lim: nat)
    requires Shape(c, s) && i < |s.ix.slots| && s.ix.slots[i].Dying? && Rebuilt(c, s, lim) && Shape(c, Released(s, i))
    ensures Rebuilt(c, Released(s, i), lim)
  {
    hide Table, AllPlaced;
    DeadTable(c, s.ix, i, Free, lim);
    ReleasePlaced(c, s, i, lim);
  }

  lemma ThreadInv(c: Config, s: State, t: nat)
    requires Shape(c, s) && Inv(c, s) && t < |s.threads| && !MeetsDying(s, t)
    ensures Inv(c, ThreadStep(c, s, t))
  {
    hide Inv, MeetsDying;
    var pc := s.threads[t];
    if Finding(pc) {
      if FindStep(c, s, t).ix == s.ix { FindQuietInv(c, s, t); } else { CasInv(c, s, t); }
    } else if pc.Alloc? { AllocInv(c, s, t);
    } else if pc.Init? { InitInv(c, s, t);
    } else if pc.Publish? { PublishInv(c, s, t);
    } else if pc.Rollback? { RollbackInv(c, s, t);
    } else if pc.RbClear? { ClearInv(c, s, t);
    } else if pc.RbInsert? || pc.RbProbe? { InsertInv(c, s, t);
    } else if pc.RbTry? { TryInv(c, s, t);
    } else if pc.RbWait? { WaitInv(c, s, t);
    } else if pc.RbRelease? { ReleaseInv(c, s, t);
    } else { GateInv(c, s, t); }
  }

  lemma StartsInv(c: Config, s: State, t: nat, pc: Pc)
    requires Inv(c, s) && t < |s.threads| && s.threads[t].Idle? && (pc.Enter? || pc.RbTry?)
    ensures Inv(c, Goto(s, t, pc))
  {
    var s' := Goto(s, t, pc);
    hide Links, Table, AllPlaced, LiveUnique, CountIn, Settled, OneRebuilder, Exclusion;
    LocalShape(c, s, t, s');
    GateMove(c, s, t, s');
    QuietMove(c, s, t, s');
  }

  lemma ActInv(c: Config, s: State, a: Action)
    requires Shape(c, s) && Inv(c, s)
    ensures Inv(c, Act(c, s, a))
  {
    hide Inv, ThreadStep, HalfReap, Released, MeetsDying;
    match a
    case Lookup(t, k) => if t < |s.threads| && s.threads[t].Idle? { StartsInv(c, s, t, Enter(k)); }
    case Rebuild(t) => if t < |s.threads| && s.threads[t].Idle? { StartsInv(c, s, t, RbTry); }
    case Step(t) => if t < |s.threads| && !MeetsDying(s, t) { ThreadInv(c, s, t); }
    case Reap(i) => if Reapable(c, s, i) { ReapInv(c, s, i); }
    case Release(i) => if i < |s.ix.slots| && s.ix.slots[i].Dying? { ReleaseSlotInv(c, s, i); }
  }

  lemma {:induction false} ExecInv(c: Config, s0: State, acts: seq<Action>)
    requires Shape(c, s0) && Inv(c, s0)
    ensures Inv(c, Exec(c, s0, acts))
  {
    hide Inv, Act, Shape;
    if acts != [] {
      ExecInv(c, s0, acts[..|acts| - 1]);
      ActInv(c, Exec(c, s0, acts[..|acts| - 1]), acts[|acts| - 1]);
    }
  }

  lemma RunInv(c: Config, acts: seq<Action>)
    requires c.size >= 1
    ensures Inv(c, Run(c, acts))
  {
    hide Inv, Exec;
    StartInv(c);
    ExecInv(c, Start(c), acts);
  }

  // ---- results over every run ----

  /** At most one channel per key that is not being reaped, in every reachable state. */
  lemma KeyUnique(c: Config, acts: seq<Action>, i: nat, j: nat)
    requires c.size >= 1
    requires var ix := Run(c, acts).ix;
             i < |ix.slots| && j < |ix.slots| && ix.slots[i].Live? && ix.slots[i] == ix.slots[j]
    ensures i == j
  {
    RunInv(c, acts);
  }

  /** Two lookups of the same key that returned since the last reap returned the same channel,
      and it is the live channel of that key. */
  lemma CallersAgree(c: Config, acts: seq<Action>, t: nat, u: nat)
    requires c.size >= 1
    requires var s := Run(c, acts);
             && t < |s.threads| && u < |s.threads| && s.threads[t].Done? && s.threads[u].Done?
             && s.threads[t].k == s.threads[u].k && s.threads[t].epoch == s.reaps && s.threads[u].epoch == s.reaps
             && s.threads[t].res.Some? && s.threads[u].res.Some?
    ensures var s := Run(c, acts);
            && s.threads[t].res == s.threads[u].res
            && s.threads[t].res.value < |s.ix.slots| && s.ix.slots[s.threads[t].res.value] == Live(s.threads[t].k)
  {
    var s := Run(c, acts);
    RunInv(c, acts);
    assert ThreadOk(c, s.ix, s.reaps, s.threads[t]) && ThreadOk(c, s.ix, s.reaps, s.threads[u]);
  }

  /** A rebuild body and a bucket operation never overlap, and bodies never overlap each other. */
  lemma RebuildExclusive(c: Config, acts: seq<Action>, t: nat, u: nat)
    requires c.size >= 1
    requires var s := Run(c, acts); t < |s.threads| && u < |s.threads| && InBody(s.threads[t])
    ensures var s := Run(c, acts); !InSection(s.threads[u]) && (InBody(s.threads[u]) ==> t == u)
  {
    RunInv(c, acts);
  }

  /** Whatever claims were made and rolled back, a live channel that is not just being published
      stays reachable: probing from its home bucket meets it before any empty bucket. */
  lemma ChainsUnbroken(c: Config, acts: seq<Action>, i: nat) returns (e: nat)
    requires c.size >= 1
    requires var s := Run(c, acts);
             && Settled(s) && i < |s.ix.slots| && s.ix.slots[i].Live?
             && forall t :: 0 <= t < |s.threads| ==> !(s.threads[t].Publish? && s.threads[t].j == i)
    ensures var s := Run(c, acts); var k := s.ix.slots[i].key;
            && e < c.size && BucketAt(c, s.ix, k, e) == Chan(i)
            && forall m: nat :: m < e ==> BucketAt(c, s.ix, k, m) != Empty
  {
    var s := Run(c, acts);
    var k := s.ix.slots[i].key;
    RunInv(c, acts);
    assert Placed(s, i);
    var b :| 0 <= b < |s.ix.buckets| && s.ix.buckets[b] == Chan(i);
    e := DistanceTo(c, k, b);
    assert Owner(c, s.ix, k, e);
  }
}
