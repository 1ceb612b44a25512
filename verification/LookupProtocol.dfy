/**
 The concurrent channel index (src/dipifccret/channel/hash.c and the lookup path
 of channel.c) as a state machine over atomic, sequentially consistent steps. Any
 number of threads run channel_lookup on any keys, interleaved step by step with
 each other, with table rebuilds and with the two halves of reaps.

 Every list of actions is a run. In every run there is at most one live channel
 per key, callers of the same key agree on it, no probe chain is ever broken, and
 a rebuild body never overlaps a bucket operation.
 */
module LookupProtocol {
  import opened Wrappers

  // (family, address, port)
  datatype Key = Key(family: int, addr: seq<int>, port: int)

  datatype Config = Config(size: nat, maxChannels: nat, workers: nat, hash: Key -> nat) {
    function Home(k: Key): (h: nat)
      requires size > 0
      ensures h < size
    {
      hash(k) % size
    }

    /** The bucket `m` probe steps after the home bucket of `k`. */
    function Pos(k: Key, m: nat): (b: nat)
      requires m < size
      ensures b < size
    {
      if Home(k) + m < size then Home(k) + m else Home(k) + m - size
    }
  }

  // CLAIMING and in_use == 2 are plain values in the source: the fields they carry here record who
  // wrote them, and no step ever reads those fields.
  datatype Bucket = Empty | Tomb | Claiming(holder: nat, wanted: Key, fromTomb: bool) | Chan(i: nat)

  // in_use 0, 2 and 1. A dying channel is in use too: its bucket is a tombstone already, between
  // the two stores of reap_slot.
  datatype Slot = Free | Building(builder: nat) | Live(key: Key) | Dying(key: Key)

  // One constructor per atomic access of channel_lookup and chan_hash_rebuild. Bucket positions
  // are kept as probe distances from the home bucket of the looked-up key.
  datatype Pc =
    | Idle
    | Enter(k: Key)
    | Check(k: Key)
    | Back(k: Key)
    | Spin(k: Key)
    | Scan(k: Key, n: nat, avail: Option<nat>)
    | Inspect(k: Key, n: nat, avail: Option<nat>, i: nat)
    | Cas(k: Key, a: nat, wasTomb: bool)
    | Alloc(k: Key, a: nat, wasTomb: bool, j: nat)
    | Init(k: Key, a: nat, wasTomb: bool, j: nat)
    | Publish(k: Key, a: nat, wasTomb: bool, j: nat)
    | Rollback(k: Key, a: nat, wasTomb: bool)
    | Exit(k: Key, res: Option<nat>, epoch: nat)
    | Done(k: Key, res: Option<nat>, epoch: nat)
    | RbTry
    | RbWait
    | RbClear(h: nat)
    | RbInsert(i: nat)
    | RbProbe(i: nat, n: nat)
    | RbRelease

  // hash[] and chan[]
  datatype Index = Index(buckets: seq<Bucket>, slots: seq<Slot>)

  datatype State = State(ix: Index, rebuilding: bool, writers: int, threads: seq<Pc>, reaps: nat)

  datatype Action =
    | Lookup(t: nat, key: Key)  // an idle thread calls channel_lookup
    | Rebuild(t: nat)           // an idle thread attempts a rebuild
    | Step(t: nat)              // a thread performs its next atomic access
    | Reap(c: nat)              // reap_slot up to its tombstone, where `Reapable` allows it
    | Release(c: nat)           // the end of reap_slot

  predicate HasClaim(pc: Pc) { pc.Alloc? || pc.Init? || pc.Publish? || pc.Rollback? }

  /** Between hash_writer_enter and hash_writer_exit. */
  predicate InSection(pc: Pc) { pc.Scan? || pc.Inspect? || pc.Cas? || HasClaim(pc) || pc.Exit? }

  predicate Counted(pc: Pc) { pc.Check? || pc.Back? || InSection(pc) }

  predicate InBody(pc: Pc) { pc.RbClear? || pc.RbInsert? || pc.RbProbe? || pc.RbRelease? }

  predicate Rebuilder(pc: Pc) { pc.RbWait? || InBody(pc) }

  /** What readers of a channel slot test: in_use == 1. */
  predicate InUse(slot: Slot) { slot.Live? || slot.Dying? }

  predicate Bears(slot: Slot, k: Key) { InUse(slot) && slot.key == k }

  // ---- steps ----

  predicate Shape(c: Config, s: State) {
    && c.size >= 1
    && |s.ix.buckets| == c.size && |s.ix.slots| == c.maxChannels
    && forall t {:trigger s.threads[t]} :: 0 <= t < |s.threads| ==> PcShape(c, s.threads[t])
  }

  predicate PcShape(c: Config, pc: Pc) {
    match pc
    case Scan(_, n, avail) => n < c.size && (avail.Some? ==> avail.value < c.size)
    case Inspect(_, n, avail, i) => n < c.size && (avail.Some? ==> avail.value < c.size) && i < c.maxChannels
    case Cas(_, a, _) => a < c.size
    case Alloc(_, a, _, j) => a < c.size && j <= c.maxChannels
    case Init(_, a, _, j) => a < c.size && j < c.maxChannels
    case Publish(_, a, _, j) => a < c.size && j < c.maxChannels
    case Rollback(_, a, _) => a < c.size
    case RbClear(h) => h <= c.size
    case RbInsert(i) => i <= c.maxChannels
    case RbProbe(i, n) => i < c.maxChannels && n < c.size
    case _ => true
  }

  function Start(c: Config): State
    requires c.size >= 1
  {
    State(Index(seq(c.size, _ => Empty), seq(c.maxChannels, _ => Free)), false, 0, seq(c.workers, _ => Idle), 0)
  }

  /** The next probe distance; the scan wraps around the table. */
  function After(c: Config, n: nat): nat { if n + 1 >= c.size then 0 else n + 1 }

  function Goto(s: State, t: nat, pc: Pc): State
    requires t < |s.threads|
  {
    s.(threads := s.threads[t := pc])
  }

  function BucketAt(c: Config, ix: Index, k: Key, m: nat): Bucket
    requires |ix.buckets| == c.size && m < c.size
  {
    ix.buckets[c.Pos(k, m)]
  }

  function SetBucket(c: Config, s: State, k: Key, m: nat, b: Bucket): State
    requires |s.ix.buckets| == c.size && m < c.size
  {
    s.(ix := s.ix.(buckets := s.ix.buckets[c.Pos(k, m) := b]))
  }

  /** A thread step moves one thread and keeps every array length. */
  predicate LocalTo(c: Config, s: State, t: nat, s': State) {
    && |s'.threads| == |s.threads| && |s'.ix.buckets| == |s.ix.buckets| && |s'.ix.slots| == |s.ix.slots|
    && s'.reaps == s.reaps
    && t < |s'.threads| && PcShape(c, s'.threads[t])
    && forall u {:trigger s'.threads[u]} :: 0 <= u < |s.threads| && u != t ==> s'.threads[u] == s.threads[u]
  }

  /** At most one element differs. */
  predicate OneChange<T(==)>(a: seq<T>, b: seq<T>) {
    |a| == |b| && (a == b || exists p | 0 <= p < |a| :: a == b[p := a[p]])
  }

  /** hash_writer_enter, hash_writer_exit, and returning the result. */
  function GateStep(c: Config, s: State, t: nat): (s': State)
    requires Shape(c, s) && t < |s.threads|
    ensures LocalTo(c, s, t, s')
    ensures s'.ix == s.ix && s'.rebuilding == s.rebuilding
  {
    match s.threads[t]
    case Enter(k) => Goto(s.(writers := s.writers + 1), t, Check(k))
    case Check(k) => Goto(s, t, if s.rebuilding then Back(k) else Scan(k, 0, None))
    case Back(k) => Goto(s.(writers := s.writers - 1), t, Spin(k))
    case Spin(k) => if s.rebuilding then s else Goto(s, t, Enter(k))
    case Exit(k, res, epoch) => Goto(s.(writers := s.writers - 1), t, Done(k, res, epoch))
    case Done(_, _, _) => Goto(s, t, Idle)
    case _ => s
  }

  /** chan_hash_find_or_claim: one bucket load. */
  function ScanStep(c: Config, s: State, t: nat, k: Key, n: nat, avail: Option<nat>): (s': State)
    requires Shape(c, s) && t < |s.threads| && n < c.size && (avail.Some? ==> avail.value < c.size)
    ensures LocalTo(c, s, t, s')
  {
    match BucketAt(c, s.ix, k, n)
    case Empty => Goto(s, t, Cas(k, if avail.Some? then avail.value else n, avail.Some?))
    case Tomb => Goto(s, t, Scan(k, After(c, n), if avail.Some? then avail else Some(n)))
    case Claiming(_, _, _) => s
    case Chan(i) => if i < c.maxChannels then Goto(s, t, Inspect(k, n, avail, i)) else s
  }

  /** The rest of chan_hash_find_or_claim: the channel comparison and the claiming CAS. */
  function FindStep(c: Config, s: State, t: nat): (s': State)
    requires Shape(c, s) && t < |s.threads|
    ensures LocalTo(c, s, t, s')
    ensures OneChange(s.ix.buckets, s'.ix.buckets)
            && s' == s.(threads := s'.threads, ix := s.ix.(buckets := s'.ix.buckets))
  {
    match s.threads[t]
    case Scan(k, n, avail) => ScanStep(c, s, t, k, n, avail)
    case Inspect(k, n, avail, i) =>
      Goto(s, t, if Bears(s.ix.slots[i], k) then Exit(k, Some(i), s.reaps) else Scan(k, After(c, n), avail))
    case Cas(k, a, wasTomb) =>
      if BucketAt(c, s.ix, k, a) == (if wasTomb then Tomb else Empty)
      then Goto(SetBucket(c, s, k, a, Claiming(t, k, wasTomb)), t, Alloc(k, a, wasTomb, 0))
      else Goto(s, t, Scan(k, 0, None))
    case _ => s
  }

  /** channel_lookup with a claimed bucket: find a free channel, fill it, publish or roll back. */
  function ClaimStep(c: Config, s: State, t: nat): (s': State)
    requires Shape(c, s) && t < |s.threads|
    ensures LocalTo(c, s, t, s')
    ensures OneChange(s.ix.buckets, s'.ix.buckets) && OneChange(s.ix.slots, s'.ix.slots)
            && s' == s.(threads := s'.threads, ix := s'.ix)
  {
    match s.threads[t]
    case Alloc(k, a, wasTomb, j) =>
      if j == c.maxChannels then Goto(s, t, Rollback(k, a, wasTomb))
      else if s.ix.slots[j] == Free
        then Goto(s.(ix := s.ix.(slots := s.ix.slots[j := Building(t)])), t, Init(k, a, wasTomb, j))
      else Goto(s, t, Alloc(k, a, wasTomb, j + 1))
    case Init(k, a, wasTomb, j) => Goto(s.(ix := s.ix.(slots := s.ix.slots[j := Live(k)])), t,
                                        Publish(k, a, wasTomb, j))
    case Publish(k, a, wasTomb, j) => Goto(SetBucket(c, s, k, a, Chan(j)), t, Exit(k, Some(j), s.reaps))
    case Rollback(k, a, wasTomb) => Goto(SetBucket(c, s, k, a, if wasTomb then Tomb else Empty), t,
                                         Exit(k, None, s.reaps))
    case _ => s
  }

  /** chan_hash_rebuild. */
  function RebuildStep(c: Config, s: State, t: nat): (s': State)
    requires Shape(c, s) && t < |s.threads|
    ensures LocalTo(c, s, t, s')
    ensures OneChange(s.ix.buckets, s'.ix.buckets) && s'.ix.slots == s.ix.slots && s'.writers == s.writers
  {
    match s.threads[t]
    case RbTry => if s.rebuilding then Goto(s, t, Idle) else Goto(s.(rebuilding := true), t, RbWait)
    case RbWait => if s.writers != 0 then s else Goto(s, t, RbClear(0))
    case RbClear(h) =>
      if h == c.size then Goto(s, t, RbInsert(0))
      else Goto(s.(ix := s.ix.(buckets := s.ix.buckets[h := Empty])), t, RbClear(h + 1))
    case RbInsert(i) =>
      if i == c.maxChannels then Goto(s, t, RbRelease)
      else Goto(s, t, if InUse(s.ix.slots[i]) then RbProbe(i, 0) else RbInsert(i + 1))
    case RbProbe(i, n) =>
      if !InUse(s.ix.slots[i]) then s
      else if BucketAt(c, s.ix, s.ix.slots[i].key, n) != Empty then Goto(s, t, RbProbe(i, After(c, n)))
      else Goto(SetBucket(c, s, s.ix.slots[i].key, n, Chan(i)), t, RbInsert(i + 1))
    case RbRelease => Goto(s.(rebuilding := false), t, Idle)
    case _ => s
  }

  predicate Finding(pc: Pc) { pc.Scan? || pc.Inspect? || pc.Cas? }

  function ThreadStep(c: Config, s: State, t: nat): (s': State)
    requires Shape(c, s) && t < |s.threads|
    ensures LocalTo(c, s, t, s')
  {
    var pc := s.threads[t];
    if Finding(pc) then FindStep(c, s, t)
    else if HasClaim(pc) then ClaimStep(c, s, t)
    else if pc.RbTry? || Rebuilder(pc) then RebuildStep(c, s, t)
    else GateStep(c, s, t)
  }

  /** The tombstone of reap_slot, and what it leaves in the channel slot. */
  function Swept(s: State, i: nat, gone: Slot): State
    requires i < |s.ix.slots|
  {
    var swept := seq(|s.ix.buckets|, b requires 0 <= b < |s.ix.buckets| =>
                       if s.ix.buckets[b] == Chan(i) then Tomb else s.ix.buckets[b]);
    s.(ix := Index(swept, s.ix.slots[i := gone]), reaps := s.reaps + 1)
  }

  /** reap_slot up to its tombstone. */
  function HalfReap(s: State, i: nat): State
    requires i < |s.ix.slots| && s.ix.slots[i].Live?
  {
    Swept(s, i, Dying(s.ix.slots[i].key))
  }

  /** The end of reap_slot. */
  function Released(s: State, i: nat): State
    requires i < |s.ix.slots|
  {
    s.(ix := s.ix.(slots := s.ix.slots[i := Free]))
  }

  /** Both halves with nothing in between. */
  function ReapSlot(s: State, i: nat): State
    requires i < |s.ix.slots|
  {
    Swept(s, i, Free)
  }

  /** How many buckets of its probe sequence a search has decided about. */
  function Reach(pc: Pc): nat
    requires Finding(pc)
  {
    match pc
    case Scan(_, n, avail) => if avail.Some? then avail.value + 1 else n
    case Inspect(_, n, avail, _) => if avail.Some? then avail.value + 1 else n + 1
    case Cas(_, a, _) => a + 1
  }

  /** The search has not come past the bucket of channel `i`. */
  predicate Ahead(c: Config, ix: Index, pc: Pc, i: nat)
    requires |ix.buckets| == c.size && PcShape(c, pc)
  {
    Finding(pc) ==> forall m: nat | m < Reach(pc) :: BucketAt(c, ix, pc.k, m) != Chan(i)
  }

  /**
   * No search is past the channel's bucket or looking at the channel, no rebuild body runs, nobody is
   * publishing the channel.
   */
  predicate Reapable(c: Config, s: State, i: nat)
    requires Shape(c, s)
  {
    && i < |s.ix.slots| && s.ix.slots[i].Live?
    && forall t | 0 <= t < |s.threads| ::
         && !InBody(s.threads[t]) && !(s.threads[t].Publish? && s.threads[t].j == i)
         && !(s.threads[t].Inspect? && s.threads[t].i == i) && Ahead(c, s.ix, s.threads[t], i)
  }

  /** A rebuild that comes to a channel between the two halves of its reap would index it again. */
  predicate MeetsDying(s: State, t: nat)
    requires t < |s.threads|
  {
    var pc := s.threads[t]; pc.RbInsert? && pc.i < |s.ix.slots| && s.ix.slots[pc.i].Dying?
  }

  function Act(c: Config, s: State, a: Action): State
    requires Shape(c, s)
  {
    match a
    case Lookup(t, k) => if t < |s.threads| && s.threads[t].Idle? then Goto(s, t, Enter(k)) else s
    case Rebuild(t) => if t < |s.threads| && s.threads[t].Idle? then Goto(s, t, RbTry) else s
    case Step(t) => if t < |s.threads| && !MeetsDying(s, t) then ThreadStep(c, s, t) else s
    case Reap(i) => if Reapable(c, s, i) then HalfReap(s, i) else s
    case Release(i) => if i < |s.ix.slots| && s.ix.slots[i].Dying? then Released(s, i) else s
  }

  lemma LocalShape(c: Config, s: State, t: nat, s': State)
    requires Shape(c, s) && LocalTo(c, s, t, s')
    ensures Shape(c, s')
  {
    hide PcShape;
    forall u | 0 <= u < |s'.threads| ensures PcShape(c, s'.threads[u]) {
      if u != t {
        assert PcShape(c, s.threads[u]);
      }
    }
  }

  lemma ActShape(c: Config, s: State, a: Action)
    requires Shape(c, s)
    ensures Shape(c, Act(c, s, a))
  {
    hide ThreadStep;
    match a
    case Step(t) =>
      if t < |s.threads| {
        LocalShape(c, s, t, ThreadStep(c, s, t));
      }
    case _ =>
  }

  /** The state after a list of actions. */
  function Exec(c: Config, s0: State, acts: seq<Action>): (s: State)
    requires Shape(c, s0)
    ensures Shape(c, s)
  {
    if acts == [] then s0
    else
      var s, a := Exec(c, s0, acts[..|acts| - 1]), acts[|acts| - 1];
      ActShape(c, s, a);
      Act(c, s, a)
  }

  function Run(c: Config, acts: seq<Action>): (s: State)
    requires c.size >= 1
    ensures Shape(c, s)
  {
    Exec(c, Start(c), acts)
  }
}
