/**
 The channel table as one thread sees it (src/dipifccret/channel/hash.c and
 channel.c), whole operations one after another: open addressing with tombstones,
 a used counter and rebuilds. The bucket array is proved to refine a plain map
 from keys to channel slots, and every probe loop to terminate.
 */
module ChannelTable {
  import opened Wrappers
  import opened LookupProtocol
  import opened IndexInvariant

  function NonEmpty(bs: seq<Bucket>): nat {
    if bs == [] then 0 else NonEmpty(bs[..|bs| - 1]) + if bs[|bs| - 1].Empty? then 0 else 1
  }

  lemma {:induction false} NonEmptyUpdate(bs: seq<Bucket>, p: nat, b: Bucket)
    requires p < |bs|
    ensures NonEmpty(bs[p := b]) == NonEmpty(bs) + (if b.Empty? then 0 else 1) - (if bs[p].Empty? then 0 else 1)
  {
    var n := |bs| - 1;
    if p == n {
      assert bs[p := b][..n] == bs[..n];
    } else {
      assert bs[p := b][..n] == bs[..n][p := b];
      NonEmptyUpdate(bs[..n], p, b);
    }
  }

  /** Fewer used buckets than buckets: some bucket is empty. */
  lemma {:induction false} EmptyExists(bs: seq<Bucket>) returns (p: nat)
    requires NonEmpty(bs) < |bs|
    ensures p < |bs| && bs[p] == Empty
  {
    if bs[|bs| - 1].Empty? {
      p := |bs| - 1;
    } else {
      p := EmptyExists(bs[..|bs| - 1]);
    }
  }

  lemma {:induction false} AllEmpty(bs: seq<Bucket>)
    requires forall b :: 0 <= b < |bs| ==> bs[b] == Empty
    ensures NonEmpty(bs) == 0
  {
    if bs != [] {
      AllEmpty(bs[..|bs| - 1]);
    }
  }

  /** The live channels, by key. */
  ghost function ChannelMap(slots: seq<Slot>): map<Key, nat>
    requires LiveUnique(Index([], slots))
  {
    map i | 0 <= i < |slots| && slots[i].Live? :: slots[i].key := i
  }

  ghost predicate Indexed(ix: Index, lim: nat) {
    forall i :: 0 <= i < lim && i < |ix.slots| && ix.slots[i].Live? ==>
      exists b :: 0 <= b < |ix.buckets| && ix.buckets[b] == Chan(i)
  }

  predicate Unclaiming(ix: Index) {
    forall b :: 0 <= b < |ix.buckets| ==> !ix.buckets[b].Claiming?
  }

  class ChannelIndex {
    const c: Config
    var buckets: seq<Bucket>
    var slots: seq<Slot>
    var used: nat

    ghost function Ix(): Index
      reads this
    {
      Index(buckets, slots)
    }

    ghost predicate Sized()
      reads this
    {
      && c.size % 4 == 0 && c.size >= 4 && c.size >= 2 * c.maxChannels
      && |buckets| == c.size && |slots| == c.maxChannels
    }

    ghost predicate Consistent()
      reads this
    {
      && Sized() && used == NonEmpty(buckets)
      && Table(c, Ix(), c.maxChannels) && LiveUnique(Ix())
    }

    ghost predicate Valid()
      reads this
    {
      Consistent() && used <= (c.size / 4) * 3 && Indexed(Ix(), c.maxChannels) && Unclaiming(Ix())
    }

    ghost function Channels(): map<Key, nat>
      requires LiveUnique(Ix())
      reads this
    {
      ChannelMap(slots)
    }

    /** channel_table_new, with hash_size already rounded up. */
    constructor (c: Config)
      requires c.size % 4 == 0 && c.size >= 4 && c.size >= 2 * c.maxChannels
      ensures Valid() && this.c == c && Channels() == map[]
    {
      this.c := c;
      buckets := seq(c.size, _ => Empty);
      slots := seq(c.maxChannels, _ => Free);
      used := 0;
      new;
      AllEmpty(buckets);
    }

    /** chan_hash_find_or_claim without interference. A `None` leaves a claimed bucket behind. */
    method FindOrClaim(k: Key) returns (found: Option<nat>, a: nat, wasTomb: bool)
      requires Valid()
      modifies this`buckets
      ensures found.Some? ==> buckets == old(buckets) && found.value < |slots| && slots[found.value] == Live(k)
      ensures found.None? ==>
                && a < c.size && CanClaim(c, old(Ix()), k, a, wasTomb) && NoOwner(c, old(Ix()), k)
                && Ix() == Set(old(Ix()), c.Pos(k, a), Claiming(0, k, wasTomb))
    {
      var n, avail: Option<nat> := 0, None;
      ghost var p := EmptyExists(buckets);
      ghost var d := DistanceTo(c, k, p);
      assert ScanOk(c, Ix(), k, 0, None);
      hide ScanOk, OneOwner, ChansOnce, NonEmpty, LiveUnique, Indexed;
      while true
        invariant n <= d < c.size && c.Pos(k, d) == p && buckets == old(buckets) && buckets[p] == Empty
        invariant avail.Some? ==> avail.value < c.size && BucketAt(c, Ix(), k, avail.value) == Tomb
        invariant ScanOk(c, Ix(), k, n, avail)
        decreases d - n
      {
        ScanAdvance(c, Ix(), k, n, avail);
        var h := c.Pos(k, n);
        match buckets[h] {
          case Empty =>
            EmptyEndsSearch(c, Ix(), k, n, avail);
            a, wasTomb := if avail.Some? then avail.value else n, avail.Some?;
            buckets := buckets[c.Pos(k, a) := Claiming(0, k, wasTomb)];
            return None, a, wasTomb;
          case Tomb =>
            if avail.None? {
              avail := Some(n);
            }
          case Claiming(_, _, _) =>
            assert false;
          case Chan(i) =>
            if slots[i] == Live(k) {
              return Some(i), 0, false;
            }
        }
        n := n + 1;
      }
    }

    /** The channel_t scan of channel_lookup: the first free slot. */
    method FindFree() returns (j: nat)
      ensures j <= |slots|
      ensures j < |slots| ==> slots[j] == Free
      ensures j == |slots| ==> forall i :: 0 <= i < |slots| ==> slots[i] != Free
    {
      j := 0;
      while j < |slots| && slots[j] != Free
        invariant j <= |slots|
        invariant forall i :: 0 <= i < j ==> slots[i] != Free
      {
        j := j + 1;
      }
    }

    /** One live channel of the rebuild loop. */
    method Reinsert(i: nat)
      requires |buckets| == c.size && i < |slots| && slots[i].Live? && NonEmpty(buckets) < c.size
      requires Table(c, Ix(), i) && OnlyChans(Ix()) && Indexed(Ix(), i) && LiveUnique(Ix())
      modifies this`buckets
      ensures |buckets| == c.size && NonEmpty(buckets) == NonEmpty(old(buckets)) + 1
      ensures Table(c, Ix(), i + 1) && OnlyChans(Ix()) && Indexed(Ix(), i + 1)
    {
      hide Table, OnlyChans, Indexed, NonEmpty, LiveUnique;
      var n := Probe(slots[i].key);
      InsertTable(c, Ix(), i, n);
      NonEmptyUpdate(buckets, c.Pos(slots[i].key, n), Chan(i));
      IndexedInsert(c, Ix(), i, n);
      buckets := buckets[c.Pos(slots[i].key, n) := Chan(i)];
    }

    /** chan_hash_rebuild: drop every tombstone, reinsert every live channel. */
    method Rebuild()
      requires Consistent() && Unclaiming(Ix())
      modifies this`buckets, this`used
      ensures Valid()
    {
      buckets := seq(c.size, _ => Empty);
      AllEmpty(buckets);
      assert Table(c, Ix(), 0) && OnlyChans(Ix()) && Indexed(Ix(), 0);
      used := 0;
      hide Table, OnlyChans, Indexed, NonEmpty, LiveUnique, Unclaiming;
      var live := 0;
      for i := 0 to c.maxChannels
        invariant |buckets| == c.size && live <= i && live == NonEmpty(buckets)
        invariant Table(c, Ix(), i) && OnlyChans(Ix()) && Indexed(Ix(), i)
      {
        if slots[i].Live? {
          Reinsert(i);
          live := live + 1;
        } else {
          SkipDead(c, Ix(), i);
        }
      }
      used := live;
      OnlyChansUnclaiming(Ix());
    }

    /** The rebuild's probe loop: the first empty bucket of a chain. */
    method Probe(k: Key) returns (n: nat)
      requires |buckets| == c.size && NonEmpty(buckets) < c.size
      ensures n < c.size && BucketAt(c, Ix(), k, n) == Empty
      ensures forall m: nat :: m < n ==> BucketAt(c, Ix(), k, m) != Empty
    {
      ghost var p := EmptyExists(buckets);
      ghost var d := DistanceTo(c, k, p);
      n := 0;
      while buckets[c.Pos(k, n)] != Empty
        invariant n <= d
        invariant forall m: nat :: m < n ==> BucketAt(c, Ix(), k, m) != Empty
        decreases d - n
      {
        n := n + 1;
      }
    }

    /** channel_lookup: find the channel of a key, or create it in a free slot. */
    method Lookup(k: Key) returns (r: Option<nat>)
      requires Valid()
      modifies this`buckets, this`slots, this`used
      ensures Valid()
      ensures k in old(Channels()) ==> r == Some(old(Channels())[k]) && Channels() == old(Channels())
      ensures k !in old(Channels()) ==>
                match r
                case Some(i) => i < |slots| && old(slots[i]) == Free && Channels() == old(Channels())[k := i]
                case None => Channels() == old(Channels()) && forall i :: 0 <= i < |slots| ==> old(slots[i]) != Free
    {
      ghost var ix := Ix();
      assert Whole(c, ix);
      var found, a, wasTomb := FindOrClaim(k);
      if found.Some? {
        assert slots[found.value] == Live(k);
        return found;
      }
      forall i: nat | i < |slots| ensures slots[i] != Live(k) { NoOwnerNoLive(c, ix, k, i); }
      hide Table, Indexed, NonEmpty, CanClaim, NoOwner, Unclaiming;
      var j := FindFree();
      if j < |slots| {
        CreateWhole(c, ix, k, a, wasTomb, j);
        slots := slots[j := Live(k)];
        buckets := buckets[c.Pos(k, a) := Chan(j)];
        if !wasTomb {
          used := used + 1;
        }
        assert Ix() == Created(c, ix, k, a, j);
        r := Some(j);
      } else {
        RollbackSame(c, ix, k, a, wasTomb);
        buckets := buckets[c.Pos(k, a) := if wasTomb then Tomb else Empty];
        assert Ix() == ix;
        r := None;
      }
      if used > (c.size / 4) * 3 {
        Rebuild();
      }
    }

    /** reap_slot on a channel not seen for too long. */
    method Reap(i: nat)
      requires Valid() && i < |slots|
      modifies this`buckets, this`slots
      ensures Valid()
      ensures old(slots[i]).Live? ==> Channels() == old(Channels()) - {old(slots[i]).key}
      ensures !old(slots[i]).Live? ==> Channels() == old(Channels())
    {
      if !slots[i].Live? {
        return;
      }
      var k := slots[i].key;
      ghost var ix := Ix();
      assert Whole(c, ix);
      var n := FindBucket(i);
      var p := c.Pos(k, n);
      NonEmptyUpdate(buckets, p, Tomb);
      hide Table, Indexed, NonEmpty, Unclaiming, ChannelMap, LiveUnique;
      ReapWhole(c, ix, i, p);
      buckets := buckets[p := Tomb];
      slots := slots[i := Free];
    }

    /** The probe loop of reap_slot: an indexed channel is always met. */
    method FindBucket(i: nat) returns (n: nat)
      requires Valid() && i < |slots| && slots[i].Live?
      ensures n < c.size && BucketAt(c, Ix(), slots[i].key, n) == Chan(i)
    {
      var k := slots[i].key;
      ghost var b :| 0 <= b < |buckets| && buckets[b] == Chan(i);
      ghost var d := DistanceTo(c, k, b);
      assert Owner(c, Ix(), k, d);
      hide NonEmpty, LiveUnique, Indexed, OneOwner, ChansOnce;
      n := 0;
      while buckets[c.Pos(k, n)] != Chan(i)
        invariant n <= d
        decreases d - n
      {
        // the source's "shouldn't happen" exit on an empty bucket
        assert buckets[c.Pos(k, n)] != Empty by { assert Solid(BucketAt(c, Ix(), k, n)); }
        n := n + 1;
      }
    }
  }

  lemma ReapWhole(c: Config, ix: Index, i: nat, b: nat)
    requires Whole(c, ix) && i < |ix.slots| && ix.slots[i].Live? && b < |ix.buckets| && ix.buckets[b] == Chan(i)
    ensures var ix' := Index(ix.buckets[b := Tomb], ix.slots[i := Free]);
            && Whole(c, ix') && ChannelMap(ix'.slots) == ChannelMap(ix.slots) - {ix.slots[i].key}
  {
    var ix' := Index(ix.buckets[b := Tomb], ix.slots[i := Free]);
    assert ix.slots == Index([], ix.slots).slots;
    ReapTableAt(c, ix, i, b);
    ReapIndexed(ix, i, b);
    assert LiveUnique(Index([], ix.slots));
    ChannelMapRemove(ix.slots, i);
    assert LiveUnique(ix');
    hide Table, Indexed, ChannelMap, LiveUnique;
  }

  lemma ReapTableAt(c: Config, ix: Index, i: nat, b: nat)
    requires Whole(c, ix) && i < |ix.slots| && b < |ix.buckets| && ix.buckets[b] == Chan(i)
    ensures Table(c, Index(ix.buckets[b := Tomb], ix.slots[i := Free]), |ix.slots|)
  {
    hide LiveUnique, Indexed;
    var ix' := Index(ix.buckets[b := Tomb], ix.slots[i := Free]);
    assert forall k, e: nat :: Owner(c, ix', k, e) ==> Owner(c, ix, k, e);
    assert forall k, m: nat :: m < c.size && Solid(BucketAt(c, ix, k, m)) ==> Solid(BucketAt(c, ix', k, m));
    hide Owner;
  }

  lemma ReapIndexed(ix: Index, i: nat, b: nat)
    requires Indexed(ix, |ix.slots|) && i < |ix.slots| && b < |ix.buckets| && ix.buckets[b] == Chan(i)
    ensures Indexed(Index(ix.buckets[b := Tomb], ix.slots[i := Free]), |ix.slots|)
  {
    var ix' := Index(ix.buckets[b := Tomb], ix.slots[i := Free]);
    forall x | 0 <= x < |ix'.slots| && ix'.slots[x].Live?
      ensures exists q :: 0 <= q < |ix'.buckets| && ix'.buckets[q] == Chan(x) {
      var q :| 0 <= q < |ix.buckets| && ix.buckets[q] == Chan(x);
      assert ix'.buckets[q] == Chan(x);
    }
  }

  lemma ChannelMapRemove(slots: seq<Slot>, i: nat)
    requires i < |slots| && slots[i].Live? && LiveUnique(Index([], slots))
    ensures LiveUnique(Index([], slots[i := Free]))
    ensures ChannelMap(slots[i := Free]) == ChannelMap(slots) - {slots[i].key}
  {
    hide ChannelMap, LiveUnique;
    var rest := slots[i := Free];
    FewerUnique(slots, i);
    var m, m' := ChannelMap(slots), ChannelMap(rest);
    MapAt(slots, i);
    forall q | q in m && q != slots[i].key ensures q in m' && m'[q] == m[q] {
      var x := MapOnly(slots, q);
      MapAt(rest, x);
    }
    forall q | q in m' ensures q in m && q != slots[i].key {
      var x := MapOnly(rest, q);
      MapAt(slots, x);
    }
  }

  lemma FewerUnique(slots: seq<Slot>, i: nat)
    requires i < |slots| && LiveUnique(Index([], slots))
    ensures LiveUnique(Index([], slots[i := Free]))
  {
  }

  lemma MapAt(slots: seq<Slot>, i: nat)
    requires LiveUnique(Index([], slots)) && i < |slots| && slots[i].Live?
    ensures slots[i].key in ChannelMap(slots) && ChannelMap(slots)[slots[i].key] == i
  {}

  lemma MapOnly(slots: seq<Slot>, k: Key) returns (i: nat)
    requires LiveUnique(Index([], slots)) && k in ChannelMap(slots)
    ensures i < |slots| && slots[i] == Live(k) && ChannelMap(slots)[k] == i
  {
    i := ChannelMap(slots)[k];
  }

  lemma SkipDead(c: Config, ix: Index, i: nat)
    requires |ix.buckets| == c.size && i < |ix.slots| && !ix.slots[i].Live? && Table(c, ix, i) && Indexed(ix, i)
    ensures Table(c, ix, i + 1) && Indexed(ix, i + 1)
  {}

  lemma OnlyChansUnclaiming(ix: Index)
    requires OnlyChans(ix)
    ensures Unclaiming(ix)
  {}

  /** Without an owning bucket there is no live channel. */
  lemma NoOwnerNoLive(c: Config, ix: Index, k: Key, i: nat)
    requires |ix.buckets| == c.size && i < |ix.slots| && NoOwner(c, ix, k) && Indexed(ix, |ix.slots|)
    ensures ix.slots[i] != Live(k)
  {
    forall b | 0 <= b < |ix.buckets| ensures !OwnedBy(ix, ix.buckets[b], k) {
      var e := DistanceTo(c, k, b);
      assert !Owner(c, ix, k, e);
    }
  }

  ghost predicate Whole(c: Config, ix: Index) {
    && |ix.buckets| == c.size && Table(c, ix, |ix.slots|) && LiveUnique(ix)
    && Indexed(ix, |ix.slots|) && Unclaiming(ix)
  }

  function Created(c: Config, ix: Index, k: Key, a: nat, j: nat): Index
    requires |ix.buckets| == c.size && a < c.size && j < |ix.slots|
  {
    Index(ix.buckets[c.Pos(k, a) := Chan(j)], ix.slots[j := Live(k)])
  }

  /** Claim, fill a free slot, publish: the table gains exactly one channel. */
  lemma CreateWhole(c: Config, ix: Index, k: Key, a: nat, w: bool, j: nat)
    requires Whole(c, ix) && CanClaim(c, ix, k, a, w) && NoOwner(c, ix, k) && j < |ix.slots| && ix.slots[j] == Free
    ensures Whole(c, Created(c, ix, k, a, j))
    ensures ChannelMap(Created(c, ix, k, a, j).slots) == ChannelMap(ix.slots)[k := j]
    ensures NonEmpty(Created(c, ix, k, a, j).buckets) == NonEmpty(ix.buckets) + if w then 0 else 1
  {
    var p := c.Pos(k, a);
    var claimed := Set(ix, p, Claiming(0, k, w));
    var filled := SetSlot(claimed, j, Live(k));
    var ix' := Created(c, ix, k, a, j);
    ClaimTable(c, ix, k, a, 0, w, |ix.slots|);
    SlotTable(c, claimed, j, Live(k));
    assert Set(filled, p, Chan(j)) == ix';
    PublishTable(c, filled, k, a, j);
    NonEmptyUpdate(ix.buckets, p, Chan(j));
    forall i: nat | i < |ix.slots| ensures ix.slots[i] != Live(k) { NoOwnerNoLive(c, ix, k, i); }
    CreateIndexed(c, ix, k, a, j);
    hide Table, Indexed, NonEmpty, CanClaim, NoOwner;
    assert LiveUnique(ix');
    ChannelMapAdd(ix.slots, k, j);
  }

  lemma CreateIndexed(c: Config, ix: Index, k: Key, a: nat, j: nat)
    requires |ix.buckets| == c.size && a < c.size && j < |ix.slots| && !BucketAt(c, ix, k, a).Chan?
             && Indexed(ix, |ix.slots|)
    ensures Indexed(Created(c, ix, k, a, j), |ix.slots|)
  {
    var ix' := Created(c, ix, k, a, j);
    forall x | 0 <= x < |ix'.slots| && ix'.slots[x].Live?
      ensures exists b :: 0 <= b < |ix'.buckets| && ix'.buckets[b] == Chan(x) {
      if x == j {
        assert ix'.buckets[c.Pos(k, a)] == Chan(x);
      } else {
        var b :| 0 <= b < |ix.buckets| && ix.buckets[b] == Chan(x);
        assert ix'.buckets[b] == Chan(x);
      }
    }
  }

  lemma ChannelMapAdd(slots: seq<Slot>, k: Key, j: nat)
    requires j < |slots| && !slots[j].Live? && LiveUnique(Index([], slots))
    requires forall i: nat :: i < |slots| ==> slots[i] != Live(k)
    requires LiveUnique(Index([], slots[j := Live(k)]))
    ensures ChannelMap(slots[j := Live(k)]) == ChannelMap(slots)[k := j]
  {
    hide ChannelMap, LiveUnique;
    var more := slots[j := Live(k)];
    var m, m' := ChannelMap(slots), ChannelMap(more);
    MapAt(more, j);
    forall q | q in m' && q != k ensures q in m && m'[q] == m[q] {
      var i := MapOnly(more, q);
      MapAt(slots, i);
    }
    forall q | q in m && q != k ensures q in m' {
      var i := MapOnly(slots, q);
      MapAt(more, i);
    }
  }

  /** Claim and roll back: nothing happened. */
  lemma RollbackSame(c: Config, ix: Index, k: Key, a: nat, w: bool)
    requires CanClaim(c, ix, k, a, w)
    ensures Unclaimed(c, Set(ix, c.Pos(k, a), Claiming(0, k, w)), k, a, w) == ix
  {}

  lemma IndexedInsert(c: Config, ix: Index, i: nat, n: nat)
    requires |ix.buckets| == c.size && i < |ix.slots| && n < c.size && ix.slots[i].Live?
    requires Indexed(ix, i) && BucketAt(c, ix, ix.slots[i].key, n) == Empty
    ensures Indexed(Set(ix, c.Pos(ix.slots[i].key, n), Chan(i)), i + 1)
  {
    var ix' := Set(ix, c.Pos(ix.slots[i].key, n), Chan(i));
    forall x | 0 <= x < i + 1 && x < |ix'.slots| && ix'.slots[x].Live?
      ensures exists b :: 0 <= b < |ix'.buckets| && ix'.buckets[b] == Chan(x)
    {
      if x == i {
        assert ix'.buckets[c.Pos(ix.slots[i].key, n)] == Chan(x);
      } else {
        var b :| 0 <= b < |ix.buckets| && ix.buckets[b] == Chan(x);
        assert ix'.buckets[b] == Chan(x);
      }
    }
  }

}
