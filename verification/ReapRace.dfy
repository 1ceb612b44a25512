/**
 Why a reap must stay ahead of every search. `LookupSafety` admits the reap of a channel as long
 as no search is past its bucket. Here is the other half: if a search for an unowned key is past
 it, there is a continuation after which the key has two live channels. A second lookup takes the
 new tombstone, and the search that is past it takes a later bucket.
 */
module ReapRace {
  import opened Wrappers
  import opened LookupProtocol
  import opened IndexInvariant
  import opened LookupSafety

  lemma Then(c: Config, s0: State, acts: seq<Action>, s: State, a: Action) returns (acts': seq<Action>, s': State)
    requires Shape(c, s0) && s == Exec(c, s0, acts)
    ensures s' == Act(c, s, a) == Exec(c, s0, acts') && Shape(c, s')
  {
    hide Act, Shape;
    acts', s' := acts + [a], Act(c, s, a);
    assert acts'[..|acts|] == acts;
  }

  lemma NothingDone(c: Config, s: State)
    requires Shape(c, s)
    ensures Exec(c, s, []) == s
  {
  }

  // ---- running one search to its claim ----

  /** A search passes the bucket: a tombstone, or a channel of another key. */
  predicate Passable(c: Config, ix: Index, k: Key, m: nat)
    requires |ix.buckets| == c.size && m < c.size
  {
    match BucketAt(c, ix, k, m)
    case Tomb => true
    case Chan(i) => i < |ix.slots| && !Bears(ix.slots[i], k)
    case _ => false
  }

  /** The bucket a search from distance n takes when it meets the first empty bucket at e. */
  ghost predicate Takes(c: Config, ix: Index, k: Key, n: nat, avail: Option<nat>, e: nat, a: nat, w: bool)
    requires |ix.buckets| == c.size
  {
    && n <= e < c.size && a < c.size
    && match avail
       case Some(x) => a == x && w
       case None =>
         && n <= a <= e && (w <==> a < e)
         && (w ==> BucketAt(c, ix, k, a) == Tomb)
         && forall m: nat :: n <= m < a ==> BucketAt(c, ix, k, m) != Tomb
  }

  /** Undisturbed, a search goes on to its claim. */
  lemma {:induction false} SearchRuns(c: Config, s0: State, done: seq<Action>, s: State, t: nat, k: Key, n: nat,
                                      avail: Option<nat>, e: nat)
    returns (acts: seq<Action>, s': State, a: nat, w: bool)
    requires Shape(c, s0) && s == Exec(c, s0, done) && t < |s.threads| && s.threads[t] == Scan(k, n, avail)
    requires n <= e < c.size && BucketAt(c, s.ix, k, e) == Empty
    requires forall m: nat :: n <= m < e ==> Passable(c, s.ix, k, m)
    ensures s' == Exec(c, s0, acts) && s' == Goto(s, t, Cas(k, a, w)) && Takes(c, s.ix, k, n, avail, e, a, w)
    decreases e - n
  {
    hide Exec;
    acts, s' := Then(c, s0, done, s, Step(t));
    if n == e {
      a, w := if avail.Some? then avail.value else n, avail.Some?;
    } else {
      assert Passable(c, s.ix, k, n);
      var next := if BucketAt(c, s.ix, k, n) == Tomb && avail.None? then Some(n) else avail;
      if BucketAt(c, s.ix, k, n).Chan? {
        acts, s' := Then(c, s0, acts, s', Step(t));
      }
      assert s' == Goto(s, t, Scan(k, n + 1, next));
      var s1 := s';
      acts, s', a, w := SearchRuns(c, s0, acts, s1, t, k, n + 1, next, e);
      assert s' == Goto(s, t, Cas(k, a, w));
    }
  }

  // ---- from the claim to a live channel ----

  /** The state when the claimed bucket has its channel, just before it is published. */
  function Made(c: Config, s: State, t: nat, k: Key, a: nat, w: bool, j: nat): State
    requires Shape(c, s) && t < |s.threads| && a < c.size && j < |s.ix.slots|
  {
    s.(ix := Index(s.ix.buckets[c.Pos(k, a) := Claiming(t, k, w)], s.ix.slots[j := Live(k)]),
       threads := s.threads[t := Publish(k, a, w, j)])
  }

  lemma {:induction false} AllocRuns(c: Config, s0: State, done: seq<Action>, s: State, t: nat, k: Key, a: nat,
                                     w: bool, j: nat, f: nat)
    returns (acts: seq<Action>, s': State, x: nat)
    requires Shape(c, s0) && s == Exec(c, s0, done) && t < |s.threads| && s.threads[t] == Alloc(k, a, w, j)
    requires j <= f < |s.ix.slots| && s.ix.slots[f] == Free
    ensures s' == Exec(c, s0, acts) && x < |s.ix.slots| && s.ix.slots[x] == Free && a < c.size
    ensures s' == s.(ix := s.ix.(slots := s.ix.slots[x := Live(k)]), threads := s.threads[t := Publish(k, a, w, x)])
    decreases f - j
  {
    hide Exec;
    acts, s' := Then(c, s0, done, s, Step(t));
    if s.ix.slots[j] == Free {
      x := j;
      acts, s' := Then(c, s0, acts, s', Step(t));
    } else {
      acts, s', x := AllocRuns(c, s0, acts, s', t, k, a, w, j + 1, f);
    }
  }

  lemma ClaimRuns(c: Config, s0: State, done: seq<Action>, s: State, t: nat, k: Key, a: nat, w: bool, f: nat)
    returns (acts: seq<Action>, s': State, x: nat)
    requires Shape(c, s0) && s == Exec(c, s0, done) && t < |s.threads| && s.threads[t] == Cas(k, a, w)
    requires a < c.size && BucketAt(c, s.ix, k, a) == (if w then Tomb else Empty)
    requires f < |s.ix.slots| && s.ix.slots[f] == Free
    ensures s' == Exec(c, s0, acts) && x < |s.ix.slots| && s.ix.slots[x] == Free && s' == Made(c, s, t, k, a, w, x)
  {
    hide Exec;
    acts, s' := Then(c, s0, done, s, Step(t));
    var s1 := s';
    acts, s', x := AllocRuns(c, s0, acts, s1, t, k, a, w, 0, f);
  }

  /** A lookup by an idle thread, up to the start of its search. */
  lemma EnterRuns(c: Config, s0: State, done: seq<Action>, s: State, u: nat, k: Key)
    returns (acts: seq<Action>, s': State)
    requires Shape(c, s0) && s == Exec(c, s0, done) && u < |s.threads| && s.threads[u].Idle? && !s.rebuilding
    ensures s' == Exec(c, s0, acts) && s' == Goto(s.(writers := s.writers + 1), u, Scan(k, 0, None))
  {
    hide Exec;
    acts, s' := Then(c, s0, done, s, Lookup(u, k));
    acts, s' := Then(c, s0, acts, s', Step(u));
    acts, s' := Then(c, s0, acts, s', Step(u));
  }

  // ---- a search past a fresh tombstone ----

  ghost predicate Unowned(ix: Index, k: Key) {
    forall j :: 0 <= j < |ix.slots| ==> ix.slots[j] != Live(k)
  }

  /** No lookup holds a claim. */
  ghost predicate Unclaimed(ix: Index) {
    forall b :: 0 <= b < |ix.buckets| ==> !ix.buckets[b].Claiming?
  }

  ghost predicate Doubled(ix: Index, k: Key) {
    exists x, y :: 0 <= x < y < |ix.slots| && ix.slots[x] == Live(k) && ix.slots[y] == Live(k)
  }

  lemma {:induction false} FirstEmpty(c: Config, ix: Index, k: Key, n: nat, b: nat) returns (e: nat)
    requires |ix.buckets| == c.size && n <= b < c.size && BucketAt(c, ix, k, b) == Empty
    ensures n <= e <= b && BucketAt(c, ix, k, e) == Empty
    ensures forall m: nat :: n <= m < e ==> BucketAt(c, ix, k, m) != Empty
    decreases b - n
  {
    if BucketAt(c, ix, k, n) == Empty {
      e := n;
    } else {
      e := FirstEmpty(c, ix, k, n + 1, b);
    }
  }

  /** The key's probe sequence has a tombstone at p, its first, behind a search at distance n. */
  ghost predicate Behind(c: Config, ix: Index, k: Key, p: nat, n: nat, avail: Option<nat>)
    requires |ix.buckets| == c.size
  {
    && p < n <= c.size && BucketAt(c, ix, k, p) == Tomb
    && (forall m: nat :: m < p ==> BucketAt(c, ix, k, m).Chan?)
    && (forall m: nat :: m < n ==> BucketAt(c, ix, k, m) != Empty)
    && (avail.Some? ==> p < avail.value < c.size && BucketAt(c, ix, k, avail.value) == Tomb)
  }

  /** Enough room for both: an empty bucket ends every search, and two channels are free. */
  ghost predicate Room(s: State, b: nat, f: nat, g: nat) {
    && b < |s.ix.buckets| && s.ix.buckets[b] == Empty
    && f < |s.ix.slots| && g < |s.ix.slots| && f != g && s.ix.slots[f] == Free && s.ix.slots[g] == Free
  }

  lemma PassableBefore(c: Config, ix: Index, k: Key, n: nat, e: nat)
    requires |ix.buckets| == c.size && |ix.slots| == c.maxChannels && n <= e <= c.size
    requires Unclaimed(ix) && Unowned(ix, k) && ChansLive(ix, c.maxChannels)
    requires forall m: nat :: n <= m < e ==> BucketAt(c, ix, k, m) != Empty
    ensures forall m: nat :: n <= m < e ==> Passable(c, ix, k, m)
  {
    forall m: nat | n <= m < e ensures Passable(c, ix, k, m) {
      assert BucketAt(c, ix, k, m) != Empty;
    }
  }

  /** A second lookup takes the tombstone behind the search. */
  lemma SecondTakes(c: Config, s: State, u: nat, k: Key, p: nat, n: nat, avail: Option<nat>, e: nat, f: nat)
    returns (acts: seq<Action>, s': State, x: nat)
    requires Shape(c, s) && u < |s.threads| && s.threads[u].Idle? && !s.rebuilding
    requires Unclaimed(s.ix) && Unowned(s.ix, k) && ChansLive(s.ix, c.maxChannels)
    requires Behind(c, s.ix, k, p, n, avail) && n <= e < c.size && BucketAt(c, s.ix, k, e) == Empty
    requires forall m: nat :: m < e ==> BucketAt(c, s.ix, k, m) != Empty
    requires f < |s.ix.slots| && s.ix.slots[f] == Free
    ensures s' == Exec(c, s, acts) && x < |s.ix.slots| && s.ix.slots[x] == Free
    ensures s' == Made(c, s.(writers := s.writers + 1), u, k, p, true, x)
  {
    hide Exec, ChansLive;
    NothingDone(c, s);
    acts, s' := EnterRuns(c, s, [], s, u, k);
    var s1 := s';
    PassableBefore(c, s.ix, k, 0, e);
    var a, w;
    acts, s', a, w := SearchRuns(c, s, acts, s1, u, k, 0, None, e);
    assert a <= p;
    assert a == p && w;
    var s2 := s';
    acts, s', x := ClaimRuns(c, s, acts, s2, u, k, p, true, f);
  }

  /** The search behind which the tombstone lies never sees it and takes another bucket. */
  lemma FirstTakes(c: Config, s: State, done: seq<Action>, s3: State, t: nat, u: nat, k: Key, p: nat, n: nat,
                   avail: Option<nat>, e: nat, x: nat, f: nat)
    returns (acts: seq<Action>, s': State, y: nat)
    requires Shape(c, s) && t < |s.threads| && u < |s.threads| && t != u && s.threads[t] == Scan(k, n, avail)
    requires Unclaimed(s.ix) && Unowned(s.ix, k) && ChansLive(s.ix, c.maxChannels)
    requires Behind(c, s.ix, k, p, n, avail) && n <= e < c.size && BucketAt(c, s.ix, k, e) == Empty
    requires forall m: nat :: m < e ==> BucketAt(c, s.ix, k, m) != Empty
    requires x < |s.ix.slots| && s.ix.slots[x] == Free
             && s3 == Made(c, s.(writers := s.writers + 1), u, k, p, true, x) == Exec(c, s, done)
    requires f < |s.ix.slots| && f != x && s.ix.slots[f] == Free
    ensures s' == Exec(c, s, acts) && y < |s.ix.slots| && y != x && s'.ix.slots == s3.ix.slots[y := Live(k)]
  {
    hide Exec;
    forall m: nat | n <= m < e ensures Passable(c, s3.ix, k, m) {
      assert BucketAt(c, s.ix, k, m) != Empty && m != p;
      if c.Pos(k, m) == c.Pos(k, p) { PosInjective(c, k, m, p); }
      assert BucketAt(c, s3.ix, k, m) == BucketAt(c, s.ix, k, m);
    }
    if c.Pos(k, e) == c.Pos(k, p) { PosInjective(c, k, e, p); }
    var a, w;
    acts, s', a, w := SearchRuns(c, s, done, s3, t, k, n, avail, e);
    if c.Pos(k, a) == c.Pos(k, p) { PosInjective(c, k, a, p); }
    var s4 := s';
    hide ChansLive, Unclaimed, Unowned;
    acts, s', y := ClaimRuns(c, s, acts, s4, t, k, a, w, f);
  }

  lemma TombBehindDoubles(c: Config, s: State, t: nat, u: nat, k: Key, p: nat, n: nat, avail: Option<nat>, b: nat,
                          f: nat, g: nat)
    returns (acts: seq<Action>)
    requires Shape(c, s) && t < |s.threads| && u < |s.threads| && t != u && s.threads[t] == Scan(k, n, avail)
    requires s.threads[u].Idle? && !s.rebuilding && Room(s, b, f, g)
    requires Unclaimed(s.ix) && Unowned(s.ix, k) && ChansLive(s.ix, c.maxChannels) && Behind(c, s.ix, k, p, n, avail)
    ensures Doubled(Exec(c, s, acts).ix, k)
  {
    hide Exec, Unclaimed, Unowned, ChansLive;
    var d := DistanceTo(c, k, b);
    var e := FirstEmpty(c, s.ix, k, 0, d);
    var s3, x, s', y;
    acts, s3, x := SecondTakes(c, s, u, k, p, n, avail, e, f);
    acts, s', y := FirstTakes(c, s, acts, s3, t, u, k, p, n, avail, e, x, if x == f then g else f);
    assert s'.ix.slots[x] == Live(k) && s'.ix.slots[y] == Live(k);
    if x < y {
      assert Doubled(s'.ix, k);
    } else {
      assert y < x && s'.ix.slots[y] == Live(k);
    }
  }

  /** The same for a search about to claim. */
  lemma TombBehindClaim(c: Config, s: State, t: nat, u: nat, k: Key, p: nat, a: nat, w: bool, b: nat, f: nat, g: nat)
    returns (acts: seq<Action>)
    requires Shape(c, s) && t < |s.threads| && u < |s.threads| && t != u && s.threads[t] == Cas(k, a, w)
    requires s.threads[u].Idle? && !s.rebuilding && Room(s, b, f, g)
    requires Unclaimed(s.ix) && Unowned(s.ix, k) && ChansLive(s.ix, c.maxChannels) && Behind(c, s.ix, k, p, a, None)
    requires a < c.size && BucketAt(c, s.ix, k, a) == if w then Tomb else Empty
    ensures Doubled(Exec(c, s, acts).ix, k)
  {
    hide Exec, Unclaimed, Unowned, ChansLive;
    var d := DistanceTo(c, k, b);
    var e := FirstEmpty(c, s.ix, k, 0, d);
    var s3, x, s', y;
    acts, s3, x := SecondTakes(c, s, u, k, p, a, None, e, f);
    if c.Pos(k, a) == c.Pos(k, p) { PosInjective(c, k, a, p); }
    acts, s', y := ClaimRuns(c, s, acts, s3, t, k, a, w, if x == f then g else f);
    assert s'.ix.slots[x] == Live(k) && s'.ix.slots[y] == Live(k) && x != y;
    if x < y {
      assert Doubled(s'.ix, k);
    } else {
      assert y < x && s'.ix.slots[y] == Live(k);
    }
  }

  // ---- the converse of `Reapable` ----

  /**
   * The search is past the bucket of channel `i`, at distance p, and will claim further on. A
   * search that has noted a tombstone, or is about to claim, still finds that bucket unclaimed.
   */
  predicate Past(c: Config, ix: Index, pc: Pc, i: nat, p: nat)
    requires |ix.buckets| == c.size && PcShape(c, pc)
  {
    && Finding(pc) && p < c.size && BucketAt(c, ix, pc.k, p) == Chan(i)
    && match pc
       case Scan(k, n, None) => p < n
       case Scan(k, n, Some(a)) => p < n && p < a && BucketAt(c, ix, k, a) == Tomb
       case Inspect(k, n, None, _) => p <= n
       case Inspect(k, n, Some(a), _) => p <= n && p < a && BucketAt(c, ix, k, a) == Tomb
       case Cas(k, a, w) => p < a && BucketAt(c, ix, k, a) == if w then Tomb else Empty
  }

  /** For a search that has noted no tombstone, being past the bucket is what `Ahead` denies. */
  lemma PastIffNotAhead(c: Config, ix: Index, pc: Pc, i: nat)
    requires |ix.buckets| == c.size && PcShape(c, pc)
    requires (pc.Scan? || pc.Inspect?) && pc.avail.None?
    ensures !Ahead(c, ix, pc, i) <==> exists p: nat :: Past(c, ix, pc, i, p)
  {
    if !Ahead(c, ix, pc, i) {
      var m: nat :| m < Reach(pc) && BucketAt(c, ix, pc.k, m) == Chan(i);
      assert Past(c, ix, pc, i, m);
    }
    if p: nat :| Past(c, ix, pc, i, p) {
      assert p < Reach(pc);
    }
  }

  lemma PastBehind(c: Config, s: State, t: nat, i: nat, p: nat)
    requires Inv(c, s) && t < |s.threads| && i < |s.ix.slots| && Past(c, s.ix, s.threads[t], i, p)
    ensures Shape(c, ReapSlot(s, i)) && ChansLive(ReapSlot(s, i).ix, c.maxChannels)
    ensures var pc, ix := s.threads[t], ReapSlot(s, i).ix;
            match pc
            case Scan(k, n, avail) => Behind(c, ix, k, p, n, avail)
            case Inspect(k, n, avail, j) =>
              Behind(c, ix, k, p, n + 1, avail) && j < |ix.slots| && !ix.slots[j].Dying?
            case Cas(k, a, w) => Behind(c, ix, k, p, a, None) && BucketAt(c, ix, k, a) == BucketAt(c, s.ix, k, a)
            case _ => true
  {
    hide Links, CountIn, AllPlaced, BodyOk, OneRebuilder, LiveUnique;
    SectionSettled(s, t);
    assert Table(c, s.ix, c.maxChannels);
    ReapTable(c, s, i, Free);
    var pc := s.threads[t];
    assert ThreadOk(c, s.ix, s.reaps, pc);
    hide Table, OneOwner, Chains;
    ReapOwners(c, s, i, Free, pc.k);
    var x := if pc.Cas? then pc.a else if pc.avail.Some? then pc.avail.value else pc.n;
    assert Prefix(c, s.ix, pc.k, x);
    forall m: nat | m < p ensures BucketAt(c, ReapSlot(s, i).ix, pc.k, m).Chan? {
      assert Other(s.ix, BucketAt(c, s.ix, pc.k, m), pc.k);
      OnceOnly(c, s.ix, pc.k, m, p, i);
    }
    forall m: nat | m < x ensures BucketAt(c, ReapSlot(s, i).ix, pc.k, m) != Empty {
      assert Other(s.ix, BucketAt(c, s.ix, pc.k, m), pc.k);
    }
  }

  lemma OnceOnly(c: Config, ix: Index, k: Key, m: nat, p: nat, i: nat)
    requires |ix.buckets| == c.size && m < p < c.size && ChansOnce(ix) && BucketAt(c, ix, k, p) == Chan(i)
    ensures BucketAt(c, ix, k, m) != Chan(i)
  {
    if c.Pos(k, m) == c.Pos(k, p) { PosInjective(c, k, m, p); }
  }

  /**
   * Reaping a channel whose bucket a search is past, with the searched key unowned, leads to two
   * live channels of that key - given an idle thread, no claim and no rebuild under way, an empty
   * bucket and one more free channel.
   */
  lemma PassedReapDoubles(c: Config, before: seq<Action>, t: nat, u: nat, i: nat, p: nat, b: nat, f: nat)
    returns (after: seq<Action>)
    requires c.size >= 1
    requires var s := Run(c, before);
             && t < |s.threads| && u < |s.threads| && i < |s.ix.slots| && s.ix.slots[i].Live?
             && Past(c, s.ix, s.threads[t], i, p) && s.threads[u].Idle? && !s.rebuilding
             && Unclaimed(s.ix) && Unowned(ReapSlot(s, i).ix, s.threads[t].k)
             && b < |s.ix.buckets| && s.ix.buckets[b] == Empty && f < |s.ix.slots| && s.ix.slots[f] == Free
    ensures var s := Run(c, before);
            Shape(c, ReapSlot(s, i)) && Doubled(Exec(c, ReapSlot(s, i), after).ix, s.threads[t].k)
  {
    hide Exec, Run, Inv;
    var s := Run(c, before);
    RunInv(c, before);
    InvShape(c, s);
    var s', pc := ReapSlot(s, i), s.threads[t];
    PastBehind(c, s, t, i, p);
    ReapRoom(s, i, b, f);
    hide ReapSlot, Behind;
    match pc {
      case Scan(k, n, avail) =>
        after := TombBehindDoubles(c, s', t, u, k, p, n, avail, b, f, i);
      case Inspect(k, n, avail, j) =>
        after := InspectDoubles(c, s', t, u, p, b, f, i);
      case Cas(k, a, w) =>
        after := TombBehindClaim(c, s', t, u, k, p, a, w, b, f, i);
    }
  }

  lemma InvShape(c: Config, s: State)
    requires Inv(c, s)
    ensures Shape(c, s)
  {
  }

  lemma ReapRoom(s: State, i: nat, b: nat, f: nat)
    requires i < |s.ix.slots| && s.ix.slots[i].Live? && b < |s.ix.buckets| && s.ix.buckets[b] == Empty
             && f < |s.ix.slots| && s.ix.slots[f] == Free
    ensures Room(ReapSlot(s, i), b, f, i)
    ensures ReapSlot(s, i).threads == s.threads && ReapSlot(s, i).rebuilding == s.rebuilding
    ensures Unclaimed(s.ix) ==> Unclaimed(ReapSlot(s, i).ix)
  {
  }

  /** A search that has read a bucket goes on to the next one. */
  lemma InspectDoubles(c: Config, s: State, t: nat, u: nat, p: nat, b: nat, f: nat, g: nat) returns (acts: seq<Action>)
    requires Shape(c, s) && t < |s.threads| && u < |s.threads| && s.threads[t].Inspect? && s.threads[u].Idle?
             && !s.rebuilding && Room(s, b, f, g)
    requires Unclaimed(s.ix) && Unowned(s.ix, s.threads[t].k) && ChansLive(s.ix, c.maxChannels)
    requires Behind(c, s.ix, s.threads[t].k, p, s.threads[t].n + 1, s.threads[t].avail)
             && s.threads[t].i < |s.ix.slots| && !s.ix.slots[s.threads[t].i].Dying?
    ensures Doubled(Exec(c, s, acts).ix, s.threads[t].k)
  {
    hide Exec, ChansLive, Unowned, Unclaimed;
    var k, n := s.threads[t].k, s.threads[t].n;
    var d := DistanceTo(c, k, b);
    assert BucketAt(c, s.ix, k, d) == Empty && d > n;
    InspectMoves(c, s, t);
    NothingDone(c, s);
    var first, s1 := Then(c, s, [], s, Step(t));
    var rest := TombBehindDoubles(c, s1, t, u, k, p, n + 1, s.threads[t].avail, b, f, g);
    acts := first + rest;
    ExecTwice(c, s, first, rest);
  }

  lemma InspectMoves(c: Config, s: State, t: nat)
    requires Shape(c, s) && t < |s.threads| && s.threads[t].Inspect? && Unowned(s.ix, s.threads[t].k)
             && s.threads[t].n + 1 < c.size && s.threads[t].i < |s.ix.slots| && !s.ix.slots[s.threads[t].i].Dying?
    ensures Act(c, s, Step(t)) == Goto(s, t, Scan(s.threads[t].k, s.threads[t].n + 1, s.threads[t].avail))
  {
    var pc := s.threads[t];
    assert PcShape(c, pc);
    assert s.ix.slots[pc.i] != Live(pc.k);
  }

  lemma {:induction false} ExecTwice(c: Config, s: State, a: seq<Action>, b: seq<Action>)
    requires Shape(c, s)
    ensures Exec(c, s, a + b) == Exec(c, Exec(c, s, a), b)
    decreases |b|
  {
    hide Act;
    if b == [] {
      assert a + b == a;
    } else {
      var front := b[..|b| - 1];
      assert (a + b)[..|a + b| - 1] == a + front;
      ExecTwice(c, s, a, front);
    }
  }

  /**
   * The bucket a search is about to claim counts as passed too: it was a tombstone, another key
   * has taken it, and reaping that key's channel makes it look untouched although the searched
   * key has found a bucket elsewhere meanwhile.
   */
  lemma ReclaimedReapDoubles(c: Config, before: seq<Action>, t: nat, i: nat, j: nat) returns (after: seq<Action>)
    requires c.size >= 1
    requires var s := Run(c, before);
             && t < |s.threads| && i < |s.ix.slots| && j < |s.ix.slots| && i != j && s.threads[t].Cas?
                && s.threads[t].wasTomb
             && s.threads[t].a < c.size && BucketAt(c, s.ix, s.threads[t].k, s.threads[t].a) == Chan(i)
             && s.ix.slots[j] == Live(s.threads[t].k)
    ensures var s := Run(c, before);
            Shape(c, ReapSlot(s, i)) && Doubled(Exec(c, ReapSlot(s, i), after).ix, s.threads[t].k)
  {
    hide Exec, Run;
    var s := Run(c, before);
    var s', k, a := ReapSlot(s, i), s.threads[t].k, s.threads[t].a;
    NothingDone(c, s');
    var s1, x;
    after, s1, x := ClaimRuns(c, s', [], s', t, k, a, true, i);
    assert s1.ix.slots[x] == Live(k) && s1.ix.slots[j] == Live(k) && x != j;
    if x < j {
      assert Doubled(s1.ix, k);
    } else {
      assert j < x && s1.ix.slots[j] == Live(k);
    }
  }

  // ---- between the two halves of a reap ----

  lemma WholeReap(s: State, i: nat)
    requires i < |s.ix.slots| && s.ix.slots[i].Live?
    ensures Released(HalfReap(s, i), i) == ReapSlot(s, i)
  {
    var k := s.ix.slots[i].key;
    assert s.ix.slots[i := Dying(k)][i := Free] == s.ix.slots[i := Free];
  }

  /** After the tombstone a search for the reaped key comes to no channel of that key. */
  lemma HalfReaped(c: Config, s: State, i: nat)
    requires Inv(c, s) && Reapable(c, s, i) && Unclaimed(s.ix)
    ensures var s', k := HalfReap(s, i), s.ix.slots[i].key;
            && Shape(c, s') && Unclaimed(s'.ix) && Unowned(s'.ix, k) && ChansLive(s'.ix, c.maxChannels)
            && s'.threads == s.threads && s'.rebuilding == s.rebuilding && s'.ix.slots[i] == Dying(k)
            && (forall b :: 0 <= b < |s.ix.buckets| && s.ix.buckets[b] == Empty ==> s'.ix.buckets[b] == Empty)
            && (forall j :: 0 <= j < |s.ix.slots| && s.ix.slots[j] == Free ==> s'.ix.slots[j] == Free)
  {
    assert Settled(s);
    ReapTable(c, s, i, Dying(s.ix.slots[i].key));
    hide Links, Gate, ThreadOk, BodyOk, AllPlaced, Reapable;
  }

  /**
   * However the reap respects every search: a lookup of the reaped key that starts before the
   * second half makes a new channel while the old one is still in use.
   */
  lemma HalfReapOverlaps(c: Config, before: seq<Action>, u: nat, i: nat, b: nat, f: nat)
    returns (after: seq<Action>, x: nat)
    requires c.size >= 1
    requires var s := Run(c, before);
             && Reapable(c, s, i) && u < |s.threads| && s.threads[u].Idle? && !s.rebuilding && Unclaimed(s.ix)
             && b < |s.ix.buckets| && s.ix.buckets[b] == Empty && f < |s.ix.slots| && s.ix.slots[f] == Free
    ensures Shape(c, Act(c, Run(c, before), Reap(i)))
    ensures var s := Run(c, before); var k, slots := s.ix.slots[i].key, Exec(c, Act(c, s, Reap(i)), after).ix.slots;
            x < |slots| && i < |slots| && x != i && slots[x] == Live(k) && slots[i] == Dying(k)
  {
    var s := Run(c, before);
    RunInv(c, before);
    hide Exec, Run, Inv, Reapable, HalfReap;
    var k, s1 := s.ix.slots[i].key, HalfReap(s, i);
    HalfReaped(c, s, i);
    assert Act(c, s, Reap(i)) == s1;
    var d := DistanceTo(c, k, b);
    var e := FirstEmpty(c, s1.ix, k, 0, d);
    PassableBefore(c, s1.ix, k, 0, e);
    hide Unclaimed, Unowned, ChansLive;
    NothingDone(c, s1);
    var s', a, w;
    after, s' := EnterRuns(c, s1, [], s1, u, k);
    var s2 := s';
    after, s', a, w := SearchRuns(c, s1, after, s2, u, k, 0, None, e);
    var s3 := s';
    after, s', x := ClaimRuns(c, s1, after, s3, u, k, a, w, f);
  }

  /** A rebuild that took a dying channel for a live one would leave a bucket naming a free channel. */
  lemma StaleRebuild(c: Config, s: State, t: nat, i: nat)
    requires Shape(c, s) && t < |s.threads| && s.threads[t] == RbInsert(i) && MeetsDying(s, t)
    requires BucketAt(c, s.ix, s.ix.slots[i].key, 0) == Empty
    ensures var s1 := RebuildStep(c, s, t);
            Shape(c, s1) && !ChansLive(Released(RebuildStep(c, s1, t), i).ix, c.maxChannels)
  {
    var s1, k := RebuildStep(c, s, t), s.ix.slots[i].key;
    LocalShape(c, s, t, s1);
    assert PcShape(c, s1.threads[t]);
    var ix := Released(RebuildStep(c, s1, t), i).ix;
    assert ix.buckets[c.Pos(k, 0)] == Chan(i) && ix.slots[i] == Free;
  }

  // ---- an instance ----

  const DemoConfig := Config(4, 2, 2, _ => 0)
  const DemoX := Key(2, [1], 1)
  const DemoK := Key(2, [2], 1)

  function DemoState(bucket: Bucket, slot: Slot, writers: int, first: Pc, second: Pc): State {
    State(Index([bucket, Empty, Empty, Empty], [slot, Free]), false, writers, [first, second], 0)
  }

  lemma DemoEnter(s0: State) returns (acts: seq<Action>, s': State)
    requires s0 == DemoState(Empty, Free, 0, Idle, Idle)
    ensures Shape(DemoConfig, s0) && s' == Exec(DemoConfig, s0, acts)
    ensures s' == DemoState(Empty, Free, 1, Cas(DemoX, 0, false), Idle)
  {
    hide Exec;
    NothingDone(DemoConfig, s0);
    acts, s' := EnterRuns(DemoConfig, s0, [], s0, 0, DemoX);
    acts, s' := Then(DemoConfig, s0, acts, s', Step(0));
  }

  lemma DemoMake(s0: State, done: seq<Action>, s: State) returns (acts: seq<Action>, s': State)
    requires Shape(DemoConfig, s0) && s == Exec(DemoConfig, s0, done)
             && s == DemoState(Empty, Free, 1, Cas(DemoX, 0, false), Idle)
    ensures s' == Exec(DemoConfig, s0, acts)
    ensures s' == DemoState(Chan(0), Live(DemoX), 1, Exit(DemoX, Some(0), 0), Idle)
  {
    hide Exec;
    acts, s' := Then(DemoConfig, s0, done, s, Step(0));
    assert s' == DemoState(Claiming(0, DemoX, false), Free, 1, Alloc(DemoX, 0, false, 0), Idle);
    acts, s' := Then(DemoConfig, s0, acts, s', Step(0));
    assert s' == DemoState(Claiming(0, DemoX, false), Building(0), 1, Init(DemoX, 0, false, 0), Idle);
    acts, s' := Then(DemoConfig, s0, acts, s', Step(0));
    assert s' == DemoState(Claiming(0, DemoX, false), Live(DemoX), 1, Publish(DemoX, 0, false, 0), Idle);
    acts, s' := Then(DemoConfig, s0, acts, s', Step(0));
  }

  lemma DemoLeave(s0: State, done: seq<Action>, s: State) returns (acts: seq<Action>, s': State)
    requires Shape(DemoConfig, s0) && s == Exec(DemoConfig, s0, done)
             && s == DemoState(Chan(0), Live(DemoX), 1, Exit(DemoX, Some(0), 0), Idle)
    ensures s' == Exec(DemoConfig, s0, acts) && s' == DemoState(Chan(0), Live(DemoX), 1, Idle, Scan(DemoK, 0, None))
  {
    hide Exec;
    acts, s' := Then(DemoConfig, s0, done, s, Step(0));
    acts, s' := Then(DemoConfig, s0, acts, s', Step(0));
    acts, s' := EnterRuns(DemoConfig, s0, acts, s', 1, DemoK);
  }

  lemma DemoPass(s0: State, done: seq<Action>, s: State) returns (acts: seq<Action>, s': State)
    requires Shape(DemoConfig, s0) && s == Exec(DemoConfig, s0, done)
             && s == DemoState(Chan(0), Live(DemoX), 1, Idle, Scan(DemoK, 0, None))
    ensures s' == Exec(DemoConfig, s0, acts) && s' == DemoState(Chan(0), Live(DemoX), 1, Idle, Scan(DemoK, 1, None))
  {
    hide Exec;
    acts, s' := Then(DemoConfig, s0, done, s, Step(1));
    assert s' == DemoState(Chan(0), Live(DemoX), 1, Idle, Inspect(DemoK, 0, None, 0));
    acts, s' := Then(DemoConfig, s0, acts, s', Step(1));
  }

  /** Such states are reached: one thread has made a channel, another search has just passed it. */
  lemma ReapDuringScan() returns (before: seq<Action>, after: seq<Action>)
    ensures var s := Run(DemoConfig, before);
            && |s.ix.slots| == 2 && s.ix.slots[0].Live? && |s.threads| == 2
               && Past(DemoConfig, s.ix, s.threads[1], 0, 0)
            && Shape(DemoConfig, ReapSlot(s, 0))
            && Doubled(Exec(DemoConfig, ReapSlot(s, 0), after).ix, s.threads[1].k)
  {
    hide Exec;
    var s0 := Start(DemoConfig);
    assert s0 == DemoState(Empty, Free, 0, Idle, Idle);
    var s;
    before, s := DemoEnter(s0);
    before, s := DemoMake(s0, before, s);
    before, s := DemoLeave(s0, before, s);
    before, s := DemoPass(s0, before, s);
    assert Run(DemoConfig, before) == s;
    assert Past(DemoConfig, s.ix, s.threads[1], 0, 0);
    assert ReapSlot(s, 0).ix.slots == [Free, Free];
    after := PassedReapDoubles(DemoConfig, before, 1, 0, 0, 0, 1, 1);
  }
}
