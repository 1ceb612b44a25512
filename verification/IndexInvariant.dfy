/**
 What one atomic change of the channel index keeps. The table invariant says that
 every key has at most one owning bucket and that the probe chain to it never
 crosses an empty bucket; `ScanOk` and `CasOk` say what a searching thread may
 rely on although buckets keep changing under it.
 */
module IndexInvariant {
  import opened Wrappers
  import opened LookupProtocol

  // ---- buckets seen from one key ----

  /** The bucket carries the live channel of `k`, or is claimed for it. */
  predicate OwnedBy(ix: Index, b: Bucket, k: Key) {
    match b
    case Chan(i) => i < |ix.slots| && ix.slots[i] == Live(k)
    case Claiming(_, wanted, _) => wanted == k
    case _ => false
  }

  predicate Owner(c: Config, ix: Index, k: Key, e: nat)
    requires |ix.buckets| == c.size
  {
    e < c.size && OwnedBy(ix, BucketAt(c, ix, k, e), k)
  }

  ghost predicate NoOwner(c: Config, ix: Index, k: Key)
    requires |ix.buckets| == c.size
  {
    forall e: nat :: !Owner(c, ix, k, e)
  }

  /** Will never become empty again while bucket operations run. */
  predicate Solid(b: Bucket) { b.Tomb? || b.Chan? || (b.Claiming? && b.fromTomb) }

  predicate Untaken(b: Bucket, k: Key) { !b.Chan? && !(b.Claiming? && b.wanted == k) }

  /** Carries a channel of another key. */
  predicate Other(ix: Index, b: Bucket, k: Key) {
    b.Chan? && b.i < |ix.slots| && ix.slots[b.i].Live? && ix.slots[b.i].key != k
  }

  ghost predicate Prefix(c: Config, ix: Index, k: Key, a: nat)
    requires |ix.buckets| == c.size && a <= c.size
  {
    forall m: nat :: m < a ==> Other(ix, BucketAt(c, ix, k, m), k)
  }

  // ---- what a searching thread knows ----

  ghost predicate ScanOk(c: Config, ix: Index, k: Key, n: nat, avail: Option<nat>)
    requires |ix.buckets| == c.size && n <= c.size && (avail.Some? ==> avail.value < c.size)
  {
    match avail
    case None => Prefix(c, ix, k, n)
    case Some(a) =>
      && Prefix(c, ix, k, a)
      && Solid(BucketAt(c, ix, k, a))
      && (forall m: nat :: m < n ==> Solid(BucketAt(c, ix, k, m)))
      && (Untaken(BucketAt(c, ix, k, a), k) ==> forall m: nat :: m < n ==> !Owner(c, ix, k, m))
  }

  ghost predicate CasOk(c: Config, ix: Index, k: Key, a: nat)
    requires |ix.buckets| == c.size && a < c.size
  {
    Prefix(c, ix, k, a) && (Untaken(BucketAt(c, ix, k, a), k) ==> NoOwner(c, ix, k))
  }

  // ---- the table ----

  ghost predicate ChansLive(ix: Index, lim: nat) {
    forall b {:trigger ix.buckets[b]} :: 0 <= b < |ix.buckets| && ix.buckets[b].Chan? ==>
      ix.buckets[b].i < lim && ix.buckets[b].i < |ix.slots| && ix.slots[ix.buckets[b].i].Live?
  }

  ghost predicate ChansOnce(ix: Index) {
    forall b, b' ::
      0 <= b < |ix.buckets| && 0 <= b' < |ix.buckets| && ix.buckets[b].Chan? && ix.buckets[b] == ix.buckets[b'] ==>
      b == b'
  }

  ghost predicate OneOwner(c: Config, ix: Index)
    requires |ix.buckets| == c.size
  {
    forall k, e: nat, e': nat :: Owner(c, ix, k, e) && Owner(c, ix, k, e') ==> e == e'
  }

  ghost predicate Chains(c: Config, ix: Index)
    requires |ix.buckets| == c.size
  {
    forall k, e: nat, m: nat :: Owner(c, ix, k, e) && m < e ==> Solid(BucketAt(c, ix, k, m))
  }

  ghost predicate Table(c: Config, ix: Index, lim: nat)
    requires |ix.buckets| == c.size
  {
    ChansLive(ix, lim) && ChansOnce(ix) && OneOwner(c, ix) && Chains(c, ix)
  }

  lemma PosInjective(c: Config, k: Key, m: nat, m': nat)
    requires m < c.size && m' < c.size && c.Pos(k, m) == c.Pos(k, m')
    ensures m == m'
  {}

  lemma DistanceTo(c: Config, k: Key, b: nat) returns (e: nat)
    requires b < c.size
    ensures e < c.size && c.Pos(k, e) == b
  {
    e := if b >= c.Home(k) then b - c.Home(k) else b + c.size - c.Home(k);
  }

  /** Moving past a tombstone or another key's channel. */
  lemma ScanAdvance(c: Config, ix: Index, k: Key, n: nat, avail: Option<nat>)
    requires |ix.buckets| == c.size && n < c.size && (avail.Some? ==> avail.value < c.size)
    requires ScanOk(c, ix, k, n, avail)
    ensures BucketAt(c, ix, k, n).Tomb? ==> ScanOk(c, ix, k, After(c, n), if avail.Some? then avail else Some(n))
    ensures Other(ix, BucketAt(c, ix, k, n), k) ==> ScanOk(c, ix, k, After(c, n), avail)
  {
    assert forall m: nat :: m < n && avail.None? ==> Other(ix, BucketAt(c, ix, k, m), k);
  }

  /** Coming to the end of the table starts over. */
  lemma ScanWraps(c: Config, ix: Index, k: Key, n: nat, avail: Option<nat>)
    requires |ix.buckets| == c.size && n < c.size && avail.Some? && avail.value < c.size
             && ScanOk(c, ix, k, n + 1, avail)
    ensures ScanOk(c, ix, k, After(c, n), avail)
  {
  }

  // ---- reading an empty bucket ----

  /** An empty bucket ends the search: nothing beyond it can belong to the key, so the chosen
      target is safe to claim as long as nobody has taken it. */
  lemma EmptyEndsSearch(c: Config, ix: Index, k: Key, n: nat, avail: Option<nat>)
    requires |ix.buckets| == c.size && n < c.size && (avail.Some? ==> avail.value < c.size)
    requires Chains(c, ix) && ScanOk(c, ix, k, n, avail) && BucketAt(c, ix, k, n) == Empty
    ensures CasOk(c, ix, k, if avail.Some? then avail.value else n)
  {
    var a := if avail.Some? then avail.value else n;
    if Untaken(BucketAt(c, ix, k, a), k) {
      forall e: nat ensures !Owner(c, ix, k, e) {
        assert Owner(c, ix, k, e) && e > n ==> Solid(BucketAt(c, ix, k, n));
        assert avail.None? && e < n ==> Other(ix, BucketAt(c, ix, k, e), k);
      }
    }
  }

  // ---- claiming a bucket ----

  function Set(ix: Index, p: nat, b: Bucket): Index
    requires p < |ix.buckets|
  {
    ix.(buckets := ix.buckets[p := b])
  }

  ghost predicate CanClaim(c: Config, ix: Index, k: Key, a: nat, w: bool) {
    && |ix.buckets| == c.size && a < c.size
    && CasOk(c, ix, k, a) && BucketAt(c, ix, k, a) == if w then Tomb else Empty
  }

  lemma ClaimTable(c: Config, ix: Index, k: Key, a: nat, t: nat, w: bool, lim: nat)
    requires CanClaim(c, ix, k, a, w) && Table(c, ix, lim)
    ensures Table(c, Set(ix, c.Pos(k, a), Claiming(t, k, w)), lim)
  {
    var p := c.Pos(k, a);
    var ix' := Set(ix, p, Claiming(t, k, w));
    assert NoOwner(c, ix, k);
    forall q, e: nat | Owner(c, ix', q, e)
      ensures q == k ==> e == a
      ensures q != k ==> Owner(c, ix, q, e)
    {
      if q == k && e != a {
        if c.Pos(k, e) == p { PosInjective(c, k, e, a); }
        assert Owner(c, ix, k, e);
      }
    }
    forall q, e: nat, m: nat | Owner(c, ix', q, e) && m < e
      ensures Solid(BucketAt(c, ix', q, m))
    {
      if q == k {
        assert Other(ix, BucketAt(c, ix, k, m), k);
      } else {
        assert Solid(BucketAt(c, ix, q, m));
      }
    }
  }

  /** Two searches for the same key never hold different free targets. */
  lemma ClaimOwners(c: Config, ix: Index, k: Key, a: nat, t: nat, w: bool, q: Key, x: nat, e: nat)
    requires CanClaim(c, ix, k, a, w) && x < c.size && Prefix(c, ix, q, x)
    requires var ix' := Set(ix, c.Pos(k, a), Claiming(t, k, w));
             Untaken(BucketAt(c, ix', q, x), q) && Owner(c, ix', q, e)
    ensures Owner(c, ix, q, e)
  {
    if q == k {
      assert x < a ==> Other(ix, BucketAt(c, ix, k, x), k);
      assert a < x ==> Other(ix, BucketAt(c, ix, k, a), k);
      if c.Pos(k, e) == c.Pos(k, a) { PosInjective(c, k, e, a); }
    }
  }

  lemma ClaimScan(c: Config, ix: Index, k: Key, a: nat, t: nat, w: bool, q: Key, n: nat, avail: Option<nat>)
    requires CanClaim(c, ix, k, a, w)
    requires n <= c.size && (avail.Some? ==> avail.value < c.size) && ScanOk(c, ix, q, n, avail)
    ensures ScanOk(c, Set(ix, c.Pos(k, a), Claiming(t, k, w)), q, n, avail)
  {
    hide Owner, Prefix, CasOk;
    var ix' := Set(ix, c.Pos(k, a), Claiming(t, k, w));
    ClaimPrefix(c, ix, k, a, t, w, q, if avail.Some? then avail.value else n);
    if avail.Some? {
      var x := avail.value;
      forall m: nat | m < n && Untaken(BucketAt(c, ix', q, x), q) ensures !Owner(c, ix', q, m) {
        if Owner(c, ix', q, m) { ClaimOwners(c, ix, k, a, t, w, q, x, m); }
      }
      forall m: nat | m < n ensures Solid(BucketAt(c, ix', q, m)) {
        assert Solid(BucketAt(c, ix, q, m));
      }
      assert Untaken(BucketAt(c, ix', q, x), q) ==> Untaken(BucketAt(c, ix, q, x), q);
    }
  }

  lemma ClaimPrefix(c: Config, ix: Index, k: Key, a: nat, t: nat, w: bool, q: Key, n: nat)
    requires CanClaim(c, ix, k, a, w) && n <= c.size && Prefix(c, ix, q, n)
    ensures Prefix(c, Set(ix, c.Pos(k, a), Claiming(t, k, w)), q, n)
  {
    forall m: nat | m < n
      ensures Other(Set(ix, c.Pos(k, a), Claiming(t, k, w)),
                    BucketAt(c, Set(ix, c.Pos(k, a), Claiming(t, k, w)), q, m), q)
    {
      assert Other(ix, BucketAt(c, ix, q, m), q);
    }
  }

  lemma ClaimCas(c: Config, ix: Index, k: Key, a: nat, t: nat, w: bool, q: Key, x: nat)
    requires CanClaim(c, ix, k, a, w) && x < c.size && CasOk(c, ix, q, x)
    ensures CasOk(c, Set(ix, c.Pos(k, a), Claiming(t, k, w)), q, x)
  {
    var ix' := Set(ix, c.Pos(k, a), Claiming(t, k, w));
    ClaimPrefix(c, ix, k, a, t, w, q, x);
    forall e: nat | Untaken(BucketAt(c, ix', q, x), q) ensures !Owner(c, ix', q, e) {
      if Owner(c, ix', q, e) { ClaimOwners(c, ix, k, a, t, w, q, x, e); }
    }
  }

  // ---- building a channel that no bucket shows yet ----

  function SetSlot(ix: Index, j: nat, v: Slot): Index
    requires j < |ix.slots|
  {
    ix.(slots := ix.slots[j := v])
  }

  ghost predicate Hidden(c: Config, ix: Index, j: nat) {
    |ix.buckets| == c.size && j < |ix.slots| && !ix.slots[j].Live? && ChansLive(ix, |ix.slots|)
  }

  lemma SlotOwners(c: Config, ix: Index, j: nat, v: Slot)
    requires Hidden(c, ix, j)
    ensures forall k, e: nat :: Owner(c, SetSlot(ix, j, v), k, e) <==> Owner(c, ix, k, e)
    ensures forall k, a: nat :: a <= c.size && Prefix(c, ix, k, a) ==> Prefix(c, SetSlot(ix, j, v), k, a)
  {
    var ix' := SetSlot(ix, j, v);
    forall k, a: nat | a <= c.size && Prefix(c, ix, k, a) ensures Prefix(c, ix', k, a) {
      forall m: nat | m < a ensures Other(ix', BucketAt(c, ix', k, m), k) {
        assert Other(ix, BucketAt(c, ix, k, m), k);
      }
    }
  }

  lemma SlotTable(c: Config, ix: Index, j: nat, v: Slot)
    requires Hidden(c, ix, j) && Table(c, ix, |ix.slots|)
    ensures Table(c, SetSlot(ix, j, v), |ix.slots|)
  {
    SlotOwners(c, ix, j, v);
    hide Owner;
    var ix' := SetSlot(ix, j, v);
    forall k, e: nat, m: nat | Owner(c, ix', k, e) && m < e ensures Solid(BucketAt(c, ix', k, m)) {
      assert Solid(BucketAt(c, ix, k, m));
    }
  }

  lemma SlotSearch(c: Config, ix: Index, j: nat, v: Slot, q: Key, n: nat, avail: Option<nat>)
    requires Hidden(c, ix, j)
    requires n <= c.size && (avail.Some? ==> avail.value < c.size)
    ensures ScanOk(c, ix, q, n, avail) ==> ScanOk(c, SetSlot(ix, j, v), q, n, avail)
    ensures n < c.size && CasOk(c, ix, q, n) ==> CasOk(c, SetSlot(ix, j, v), q, n)
  {
    SlotOwners(c, ix, j, v);
    hide Owner, Prefix;
    assert forall m: nat :: m < c.size ==> BucketAt(c, SetSlot(ix, j, v), q, m) == BucketAt(c, ix, q, m);
  }

  // ---- a slot that is not live before or after ----

  lemma DeadOwners(c: Config, ix: Index, j: nat, v: Slot)
    requires |ix.buckets| == c.size && j < |ix.slots| && !ix.slots[j].Live? && !v.Live?
    ensures forall k, e: nat :: Owner(c, SetSlot(ix, j, v), k, e) <==> Owner(c, ix, k, e)
    ensures forall b, k :: Other(SetSlot(ix, j, v), b, k) <==> Other(ix, b, k)
    ensures forall lim :: ChansLive(SetSlot(ix, j, v), lim) <==> ChansLive(ix, lim)
  {
  }

  lemma DeadTable(c: Config, ix: Index, j: nat, v: Slot, lim: nat)
    requires |ix.buckets| == c.size && j < |ix.slots| && !ix.slots[j].Live? && !v.Live? && Table(c, ix, lim)
    ensures Table(c, SetSlot(ix, j, v), lim)
  {
    DeadOwners(c, ix, j, v);
    hide Owner, ChansLive, Solid;
    var ix' := SetSlot(ix, j, v);
    forall k, e: nat, m: nat | Owner(c, ix', k, e) && m < e ensures Solid(BucketAt(c, ix', k, m)) {
      assert Solid(BucketAt(c, ix, k, m));
    }
  }

  lemma DeadSearch(c: Config, ix: Index, j: nat, v: Slot, q: Key, n: nat, avail: Option<nat>)
    requires |ix.buckets| == c.size && j < |ix.slots| && !ix.slots[j].Live? && !v.Live?
    requires n <= c.size && (avail.Some? ==> avail.value < c.size)
    ensures ScanOk(c, ix, q, n, avail) ==> ScanOk(c, SetSlot(ix, j, v), q, n, avail)
    ensures n < c.size && CasOk(c, ix, q, n) ==> CasOk(c, SetSlot(ix, j, v), q, n)
  {
    DeadOwners(c, ix, j, v);
    hide Owner, Other, Solid;
    assert forall m: nat :: m < c.size ==> BucketAt(c, SetSlot(ix, j, v), q, m) == BucketAt(c, ix, q, m);
  }

  // ---- publishing a claim ----

  ghost predicate CanPublish(c: Config, ix: Index, k: Key, a: nat, j: nat) {
    && |ix.buckets| == c.size && a < c.size && j < |ix.slots| && ix.slots[j] == Live(k)
    && BucketAt(c, ix, k, a).Claiming? && BucketAt(c, ix, k, a).wanted == k
    && forall b :: 0 <= b < |ix.buckets| ==> ix.buckets[b] != Chan(j)
  }

  lemma PublishOwners(c: Config, ix: Index, k: Key, a: nat, j: nat)
    requires CanPublish(c, ix, k, a, j)
    ensures forall q, e: nat :: Owner(c, Set(ix, c.Pos(k, a), Chan(j)), q, e) <==> Owner(c, ix, q, e)
    ensures forall q, n: nat :: n <= c.size && Prefix(c, ix, q, n) ==> Prefix(c, Set(ix, c.Pos(k, a), Chan(j)), q, n)
    ensures forall q, m: nat :: m < c.size && Solid(BucketAt(c, ix, q, m)) ==>
            Solid(BucketAt(c, Set(ix, c.Pos(k, a), Chan(j)), q, m))
  {
    var ix' := Set(ix, c.Pos(k, a), Chan(j));
    forall q, n: nat | n <= c.size && Prefix(c, ix, q, n) ensures Prefix(c, ix', q, n) {
      forall m: nat | m < n ensures Other(ix', BucketAt(c, ix', q, m), q) {
        assert Other(ix, BucketAt(c, ix, q, m), q);
      }
    }
  }

  lemma PublishTable(c: Config, ix: Index, k: Key, a: nat, j: nat)
    requires CanPublish(c, ix, k, a, j) && Table(c, ix, |ix.slots|)
    ensures Table(c, Set(ix, c.Pos(k, a), Chan(j)), |ix.slots|)
  {
    PublishOwners(c, ix, k, a, j);
    hide Owner, Solid;
  }

  lemma PublishSearch(c: Config, ix: Index, k: Key, a: nat, j: nat, q: Key, n: nat, avail: Option<nat>)
    requires CanPublish(c, ix, k, a, j)
    requires n <= c.size && (avail.Some? ==> avail.value < c.size)
    ensures ScanOk(c, ix, q, n, avail) ==> ScanOk(c, Set(ix, c.Pos(k, a), Chan(j)), q, n, avail)
    ensures n < c.size && CasOk(c, ix, q, n) ==> CasOk(c, Set(ix, c.Pos(k, a), Chan(j)), q, n)
  {
    PublishOwners(c, ix, k, a, j);
    hide Owner, Prefix, Solid;
    assert forall m: nat :: m < c.size && Untaken(BucketAt(c, Set(ix, c.Pos(k, a), Chan(j)), q, m), q) ==>
           Untaken(BucketAt(c, ix, q, m), q);
  }

  // ---- rolling a claim back ----

  ghost predicate CanUnclaim(c: Config, ix: Index, k: Key, a: nat, w: bool) {
    && |ix.buckets| == c.size && a < c.size && OneOwner(c, ix)
    && BucketAt(c, ix, k, a).Claiming? && BucketAt(c, ix, k, a).wanted == k && BucketAt(c, ix, k, a).fromTomb == w
  }

  function Unclaimed(c: Config, ix: Index, k: Key, a: nat, w: bool): Index
    requires |ix.buckets| == c.size && a < c.size
  {
    Set(ix, c.Pos(k, a), if w then Tomb else Empty)
  }

  /** A rolled-back claim takes its own key's owner away and nobody else's, and never leaves a
      hole in a chain somebody else may be relying on. */
  lemma UnclaimOwners(c: Config, ix: Index, k: Key, a: nat, w: bool)
    requires CanUnclaim(c, ix, k, a, w)
    ensures NoOwner(c, Unclaimed(c, ix, k, a, w), k)
    ensures forall q, e: nat :: Owner(c, Unclaimed(c, ix, k, a, w), q, e) ==> Owner(c, ix, q, e)
    ensures forall q, n: nat :: n <= c.size && Prefix(c, ix, q, n) ==> Prefix(c, Unclaimed(c, ix, k, a, w), q, n)
    ensures forall q, m: nat :: m < c.size && Solid(BucketAt(c, ix, q, m)) ==>
            Solid(BucketAt(c, Unclaimed(c, ix, k, a, w), q, m))
  {
    var ix' := Unclaimed(c, ix, k, a, w);
    forall q, n: nat | n <= c.size && Prefix(c, ix, q, n) ensures Prefix(c, ix', q, n) {
      forall m: nat | m < n ensures Other(ix', BucketAt(c, ix', q, m), q) {
        assert Other(ix, BucketAt(c, ix, q, m), q);
      }
    }
    forall e: nat ensures !Owner(c, ix', k, e) {
      assert Owner(c, ix, k, a);
      assert Owner(c, ix', k, e) ==> Owner(c, ix, k, e);
    }
  }

  lemma UnclaimTable(c: Config, ix: Index, k: Key, a: nat, w: bool, lim: nat)
    requires CanUnclaim(c, ix, k, a, w) && Table(c, ix, lim)
    ensures Table(c, Unclaimed(c, ix, k, a, w), lim)
  {
    UnclaimOwners(c, ix, k, a, w);
    hide Owner, Solid;
  }

  lemma UnclaimSearch(c: Config, ix: Index, k: Key, a: nat, w: bool, q: Key, n: nat, avail: Option<nat>)
    requires CanUnclaim(c, ix, k, a, w)
    requires n <= c.size && (avail.Some? ==> avail.value < c.size)
    ensures ScanOk(c, ix, q, n, avail) ==> ScanOk(c, Unclaimed(c, ix, k, a, w), q, n, avail)
    ensures n < c.size && CasOk(c, ix, q, n) ==> CasOk(c, Unclaimed(c, ix, k, a, w), q, n)
  {
    UnclaimOwners(c, ix, k, a, w);
    var ix' := Unclaimed(c, ix, k, a, w);
    assert forall m: nat :: m < c.size && Untaken(BucketAt(c, ix', q, m), q) && q != k ==>
           Untaken(BucketAt(c, ix, q, m), q);
    hide Owner, Prefix, Solid;
  }

  // ---- sweeping and rebuilding ----

  lemma ReapTable(c: Config, s: State, i: nat, gone: Slot)
    requires Shape(c, s) && i < |s.ix.slots| && !gone.Live? && Table(c, s.ix, |s.ix.slots|)
    ensures Table(c, Swept(s, i, gone).ix, |s.ix.slots|)
  {
    var ix, ix' := s.ix, Swept(s, i, gone).ix;
    assert forall k, e: nat :: Owner(c, ix', k, e) ==> Owner(c, ix, k, e);
    assert forall k, m: nat :: m < c.size && Solid(BucketAt(c, ix, k, m)) ==> Solid(BucketAt(c, ix', k, m));
    hide Owner;
  }

  /** The first `reach` buckets of the key's probe sequence do not carry channel `i`. */
  ghost predicate Missed(c: Config, ix: Index, k: Key, reach: nat, i: nat)
    requires |ix.buckets| == c.size && reach <= c.size
  {
    forall m: nat :: m < reach ==> BucketAt(c, ix, k, m) != Chan(i)
  }

  lemma ReapPrefix(c: Config, s: State, i: nat, gone: Slot, k: Key, x: nat)
    requires Shape(c, s) && i < |s.ix.slots| && !gone.Live? && x <= c.size && Prefix(c, s.ix, k, x)
             && Missed(c, s.ix, k, x, i)
    ensures Prefix(c, Swept(s, i, gone).ix, k, x)
  {
    var ix' := Swept(s, i, gone).ix;
    forall m: nat | m < x ensures Other(ix', BucketAt(c, ix', k, m), k) {
      assert Other(s.ix, BucketAt(c, s.ix, k, m), k) && BucketAt(c, s.ix, k, m) != Chan(i);
    }
  }

  lemma ReapOwners(c: Config, s: State, i: nat, gone: Slot, k: Key)
    requires Shape(c, s) && i < |s.ix.slots| && !gone.Live?
    ensures forall e: nat :: Owner(c, Swept(s, i, gone).ix, k, e) ==> Owner(c, s.ix, k, e)
    ensures forall m: nat :: m < c.size && Solid(BucketAt(c, s.ix, k, m)) ==>
            Solid(BucketAt(c, Swept(s, i, gone).ix, k, m))
    ensures forall m: nat :: m < c.size && BucketAt(c, s.ix, k, m) != Chan(i) ==>
            BucketAt(c, Swept(s, i, gone).ix, k, m) == BucketAt(c, s.ix, k, m)
  {
  }

  lemma ReapScan(c: Config, s: State, i: nat, gone: Slot, k: Key, n: nat, avail: Option<nat>)
    requires Shape(c, s) && i < |s.ix.slots| && !gone.Live? && n <= c.size && (avail.Some? ==> avail.value < c.size)
    requires ScanOk(c, s.ix, k, n, avail) && Missed(c, s.ix, k, if avail.Some? then avail.value + 1 else n, i)
    ensures ScanOk(c, Swept(s, i, gone).ix, k, n, avail)
  {
    ReapOwners(c, s, i, gone, k);
    ReapPrefix(c, s, i, gone, k, if avail.Some? then avail.value else n);
    hide Owner, Prefix, Solid;
  }

  /** A search that read the reaped bucket goes on as if it had seen the tombstone. */
  lemma ReapInspect(c: Config, s: State, i: nat, gone: Slot, k: Key, n: nat, avail: Option<nat>, j: nat)
    requires Shape(c, s) && i < |s.ix.slots| && !gone.Live? && n < c.size && (avail.Some? ==> avail.value < c.size)
    requires ScanOk(c, s.ix, k, n, avail) && Missed(c, s.ix, k, if avail.Some? then avail.value + 1 else n + 1, i)
    requires BucketAt(c, s.ix, k, n) == Chan(j) || (avail.Some? && ScanOk(c, s.ix, k, n + 1, avail))
    ensures var ix' := Swept(s, i, gone).ix;
            BucketAt(c, ix', k, n) == Chan(j) || (avail.Some? && ScanOk(c, ix', k, n + 1, avail))
  {
    var ix' := Swept(s, i, gone).ix;
    if BucketAt(c, s.ix, k, n) != Chan(j) {
      ReapScan(c, s, i, gone, k, n + 1, avail);
    } else if i == j {
      ReapOwners(c, s, i, gone, k);
      ReapScan(c, s, i, gone, k, n, avail);
      assert BucketAt(c, ix', k, n) == Tomb;
      assert !Owner(c, ix', k, n);
    } else {
      ReapOwners(c, s, i, gone, k);
    }
  }

  lemma ReapCas(c: Config, s: State, i: nat, gone: Slot, k: Key, a: nat)
    requires Shape(c, s) && i < |s.ix.slots| && !gone.Live? && a < c.size && CasOk(c, s.ix, k, a)
             && Missed(c, s.ix, k, a + 1, i)
    ensures CasOk(c, Swept(s, i, gone).ix, k, a)
  {
    ReapOwners(c, s, i, gone, k);
    ReapPrefix(c, s, i, gone, k, a);
    hide Owner, Prefix;
  }

  ghost predicate OnlyChans(ix: Index) {
    forall b {:trigger ix.buckets[b]} :: 0 <= b < |ix.buckets| ==> ix.buckets[b].Empty? || ix.buckets[b].Chan?
  }

  ghost predicate LiveUnique(ix: Index) {
    forall i, j :: 0 <= i < |ix.slots| && 0 <= j < |ix.slots| && ix.slots[i].Live? && ix.slots[i] == ix.slots[j] ==>
      i == j
  }

  /** Reinserting one channel at the first empty bucket of its chain. */
  lemma InsertTable(c: Config, ix: Index, i: nat, n: nat)
    requires |ix.buckets| == c.size && i < |ix.slots| && n < c.size && ix.slots[i].Live?
    requires Table(c, ix, i) && OnlyChans(ix) && LiveUnique(ix)
    requires BucketAt(c, ix, ix.slots[i].key, n) == Empty
    requires forall m: nat :: m < n ==> BucketAt(c, ix, ix.slots[i].key, m) != Empty
    ensures var ix' := Set(ix, c.Pos(ix.slots[i].key, n), Chan(i)); Table(c, ix', i + 1) && OnlyChans(ix')
  {
    var k := ix.slots[i].key;
    var ix' := Set(ix, c.Pos(k, n), Chan(i));
    forall q, e: nat | Owner(c, ix', q, e)
      ensures q == k ==> e == n
      ensures q != k ==> Owner(c, ix, q, e)
    {
      if q == k && e != n && c.Pos(k, e) == c.Pos(k, n) { PosInjective(c, k, e, n); }
    }
    forall q, e: nat, m: nat | Owner(c, ix', q, e) && m < e ensures Solid(BucketAt(c, ix', q, m)) {
      if q == k {
        assert BucketAt(c, ix, k, m) != Empty;
      } else {
        assert Solid(BucketAt(c, ix, q, m));
      }
    }
  }
}
