/**
 NACK repair behind a token bucket (src/dipifccret/ret/ret.c and ratelimit.c).
 Each NACK is proved to be answered with exactly the stored packets it asks for,
 in order, cut to the tokens its source has; over any run of NACKs, with the clock
 free to step backward, a source gets no more repairs than its bucket depth plus
 what its bucket clock earned. Doubles are reals.
 */
module Ret {
  import opened Wrappers

  type Seq16 = n: nat | n < 65536

  const BUCKET_SECONDS := 3

  // family and address prefix, as key_of extracts them
  datatype Key = Key(family: int, prefix: seq<int>)

  datatype Bucket = Vacant | Bucket(key: Key, tokens: real, last: int)

  // ---- ratelimit_take on one bucket ----

  function Earned(ms: int, rate: nat): real { ms as real * rate as real / 1000.0 }

  /** A different key takes the bucket over full; a clock going backward earns nothing. */
  function Refill(b: Bucket, k: Key, rate: nat, depth: nat, now: int): (r: Bucket)
    ensures r.Bucket? && r.key == k
  {
    if b.Vacant? || b.key != k then Bucket(k, depth as real, now)
    else if now > b.last then
      var tokens := b.tokens + Earned(now - b.last, rate);
      Bucket(k, if tokens > depth as real then depth as real else tokens, now)
    else b
  }

  function Whole(tokens: real): (n: nat)
    requires tokens >= 0.0
    ensures n as real <= tokens < n as real + 1.0
  {
    tokens.Floor
  }

  function Pay(b: Bucket, n: nat): Bucket
    requires b.Bucket?
  {
    b.(tokens := b.tokens - n as real)
  }

  function Depth(rate: nat): nat {
    var d := (rate * BUCKET_SECONDS) % 0x1_0000_0000;
    if d < 1 then 1 else d
  }

  lemma RefillAgain(b: Bucket, k: Key, rate: nat, depth: nat, now: int, n: nat)
    ensures var full := Refill(b, k, rate, depth, now); Refill(Pay(full, n), k, rate, depth, now) == Pay(full, n)
  {}

  ghost predicate Sane(b: Bucket) { b.Bucket? ==> b.tokens >= 0.0 }

  // ---- what a NACK asks for (section 6.2.1 of RFC 4585) ----

  // A packet id and the bitmask of following lost packets.
  datatype NackEntry = NackEntry(pid: Seq16, blp: bv16)

  predicate Lost(blp: bv16, bit: nat)
    requires bit < 16
  {
    (blp >> bit) & 1 == 1
  }

  /** The followers named by bits `bit` and up. */
  function Followers(e: NackEntry, bit: nat): seq<Seq16>
    requires bit <= 16
    decreases 16 - bit
  {
    if bit == 16 then []
    else (if Lost(e.blp, bit) then [(e.pid + bit + 1) % 65536] else []) + Followers(e, bit + 1)
  }

  lemma FollowersStep(e: NackEntry, bit: nat, later: seq<Seq16>)
    requires bit < 16
    ensures Followers(e, bit) + later
         == if Lost(e.blp, bit) then [(e.pid + bit + 1) % 65536] + (Followers(e, bit + 1) + later)
            else Followers(e, bit + 1) + later
  {
    hide Lost;
  }

  lemma FollowersEnd(e: NackEntry, later: seq<Seq16>)
    ensures Followers(e, 16) + later == later
  {}

  function Requested(entries: seq<NackEntry>): seq<Seq16> {
    if entries == [] then [] else [entries[0].pid] + Followers(entries[0], 0) + Requested(entries[1..])
  }

  function Stored(seqs: seq<Seq16>, have: Seq16 -> bool): seq<Seq16> {
    if seqs == [] then [] else (if have(seqs[0]) then [seqs[0]] else []) + Stored(seqs[1..], have)
  }

  lemma StoredNext(x: Seq16, rest: seq<Seq16>, have: Seq16 -> bool)
    ensures Stored([x] + rest, have) == (if have(x) then [x] else []) + Stored(rest, have)
  {
    assert ([x] + rest)[1..] == rest;
  }

  lemma NoneStored(have: Seq16 -> bool)
    ensures Stored([], have) == []
  {
  }

  lemma {:induction false} StoredSplit(a: seq<Seq16>, b: seq<Seq16>, have: Seq16 -> bool)
    ensures Stored(a + b, have) == Stored(a, have) + Stored(b, have)
  {
    hide Stored;
    if a == [] {
      assert a + b == b;
      NoneStored(have);
    } else {
      var rest := a[1..];
      assert a == [a[0]] + rest && a + b == [a[0]] + (rest + b);
      StoredSplit(rest, b, have);
      StoredNext(a[0], rest, have);
      StoredNext(a[0], rest + b, have);
    }
  }

  lemma StoredFollowers(e: NackEntry, bit: nat, seqno: Seq16, have: Seq16 -> bool)
    requires bit < 16 && seqno == (e.pid + bit + 1) % 65536
    ensures Stored(Followers(e, bit), have)
         == (if Lost(e.blp, bit) && have(seqno) then [seqno] else []) + Stored(Followers(e, bit + 1), have)
  {
    hide Lost, Stored;
    if Lost(e.blp, bit) {
      StoredNext(seqno, Followers(e, bit + 1), have);
    } else {
      assert [] + Followers(e, bit + 1) == Followers(e, bit + 1);
    }
  }

  lemma FollowersDone(e: NackEntry, have: Seq16 -> bool)
    ensures Stored(Followers(e, 16), have) == []
  {
  }

  lemma RequestedOne(e: NackEntry)
    ensures Requested([e]) == [e.pid] + Followers(e, 0)
  {
    hide Followers;
    assert [e][1..] == [];
    assert Requested([e][1..]) == [];
  }

  lemma NothingRequested(entries: seq<NackEntry>, have: Seq16 -> bool)
    requires entries == []
    ensures Stored(Requested(entries), have) == []
  {
  }

  // ---- answering one NACK ----

  datatype Answer = Answer(repairs: seq<Seq16>, bucket: Bucket)

  /** Everything stored that was asked for, as far as the tokens go. One token is spent even when
      nothing is stored; without a token nothing happens. */
  function Serve(b: Bucket, k: Key, rate: nat, now: int, wanted: seq<Seq16>): Answer
    requires Sane(b)
  {
    var full := Refill(b, k, rate, Depth(rate), now);
    RefillSane(b, k, rate, Depth(rate), now);
    var have := Whole(full.tokens);
    var n := if |wanted| < have then |wanted| else have;
    Answer(wanted[..n], Pay(full, if have > 0 && n == 0 then 1 else n))
  }

  lemma RefillSane(b: Bucket, k: Key, rate: nat, depth: nat, now: int)
    requires Sane(b)
    ensures Sane(Refill(b, k, rate, depth, now))
  {
    if b.Bucket? && now > b.last {
      assert (now - b.last) as real * rate as real >= 0.0;
      assert Earned(now - b.last, rate) >= 0.0;
    }
  }

  class Limiter {
    const hash: Key -> nat
    var slots: seq<Bucket>

    ghost predicate Valid()
      reads this
    {
      |slots| > 0 && forall i :: 0 <= i < |slots| ==> Sane(slots[i])
    }

    constructor (n: nat, hash: Key -> nat)
      requires n > 0
      ensures Valid() && slots == seq(n, _ => Vacant) && this.hash == hash
    {
      slots := seq(n, _ => Vacant);
      this.hash := hash;
    }

    function At(k: Key): (i: nat)
      requires |slots| > 0
      reads this
      ensures i < |slots|
    {
      hash(k) % |slots|
    }

    /** ratelimit_take for one token. Rate 0 is no limit. */
    method TakeOne(k: Key, rate: nat, now: int) returns (ok: bool)
      requires Valid()
      modifies this`slots
      ensures Valid() && |slots| == |old(slots)|
      ensures rate == 0 ==> ok && slots == old(slots)
      ensures rate > 0 ==>
        var i := At(k); var full := Refill(old(slots)[i], k, rate, Depth(rate), now);
        && ok == (full.tokens >= 1.0)
        && slots == old(slots)[i := if ok then Pay(full, 1) else full]
    {
      hide Depth;
      if rate == 0 {
        return true;
      }
      var i := At(k);
      var b := slots[i];
      var depth := Depth(rate);
      if b.Vacant? || b.key != k {
        b := Bucket(k, depth as real, now);
      } else if now > b.last {
        var tokens := b.tokens + (now - b.last) as real * rate as real / 1000.0;
        assert tokens == b.tokens + Earned(now - b.last, rate);
        if tokens > depth as real {
          tokens := depth as real;
        }
        b := Bucket(k, tokens, now);
      }
      RefillSane(slots[i], k, rate, depth, now);
      var granted := Whole(b.tokens);
      if granted > 1 {
        granted := 1;
      }
      slots := slots[i := b.(tokens := b.tokens - granted as real)];
      ok := granted == 1;
    }
  }

  /** ret_ctx_t with a limiter: the unicast side of ret_handle_nack. */
  class Server {
    const limiter: Limiter
    const rate: nat

    constructor (limiter: Limiter, rate: nat)
      ensures this.limiter == limiter && this.rate == rate
    {
      this.limiter, this.rate := limiter, rate;
    }

    /** repair_seq after channel_find succeeded: spend the prepaid token, then the bucket. */
    method Afford(k: Key, now: int, prepaid: bool, ghost full: Bucket, ghost spent: nat) returns (ok: bool)
      requires limiter.Valid() && rate > 0 && Sane(full) && full.Bucket? && full.key == k
      requires Refill(full, k, rate, Depth(rate), now) == full && spent as real <= full.tokens && spent >= 1
      requires limiter.slots[limiter.At(k)] == Pay(full, spent)
      modifies limiter`slots
      ensures limiter.Valid() && |limiter.slots| == |old(limiter.slots)|
      ensures prepaid ==> ok && limiter.slots == old(limiter.slots)
      ensures !prepaid ==> ok == (Whole(full.tokens) > spent)
      ensures !prepaid && ok ==> limiter.slots == old(limiter.slots)[limiter.At(k) := Pay(full, spent + 1)]
      ensures !ok ==> limiter.slots == old(limiter.slots)
    {
      hide Depth;
      if prepaid {
        return true;
      }
      RefillAgain(full, k, rate, Depth(rate), now, spent);
      ok := limiter.TakeOne(k, rate, now);
    }

    /** ret_handle_nack, for a NACK of a known channel. Without a limit everything stored is sent. */
    method HandleNack(k: Key, now: int, entries: seq<NackEntry>, have: Seq16 -> bool) returns (repairs: seq<Seq16>)
      requires limiter.Valid()
      modifies limiter`slots
      ensures limiter.Valid() && |limiter.slots| == |old(limiter.slots)|
      ensures rate == 0 ==> repairs == Stored(Requested(entries), have) && limiter.slots == old(limiter.slots)
      ensures rate > 0 ==>
        var i := limiter.At(k);
        var a := Serve(old(limiter.slots[i]), k, rate, now, Stored(Requested(entries), have));
        repairs == a.repairs && limiter.slots == old(limiter.slots)[i := a.bucket]
    {
      if rate == 0 {
        repairs := Unlimited(entries, have);
      } else {
        repairs := HandleLimited(k, now, entries, have);
      }
    }

    /** Every take succeeds: the entries in order. */
    method Unlimited(entries: seq<NackEntry>, have: Seq16 -> bool) returns (repairs: seq<Seq16>)
      ensures repairs == Stored(Requested(entries), have)
    {
      hide Stored, Followers;
      repairs := [];
      NothingRequested([], have);
      for n := 0 to |entries|
        invariant repairs == Stored(Requested(entries[..n]), have)
      {
        var sent := UnlimitedEntry(entries[n], have);
        assert entries[..n + 1] == entries[..n] + [entries[n]];
        RequestedSplit(entries[..n], [entries[n]]);
        RequestedOne(entries[n]);
        StoredSplit(Requested(entries[..n]), [entries[n].pid] + Followers(entries[n], 0), have);
        repairs := repairs + sent;
      }
      assert entries[..|entries|] == entries;
    }

    /** One packet id and then its bitmask. */
    method UnlimitedEntry(e: NackEntry, have: Seq16 -> bool) returns (repairs: seq<Seq16>)
      ensures repairs == Stored([e.pid] + Followers(e, 0), have)
    {
      hide Stored, Followers, Lost;
      ghost var all := Stored([e.pid] + Followers(e, 0), have);
      StoredNext(e.pid, Followers(e, 0), have);
      repairs := if have(e.pid) then [e.pid] else [];
      for bit := 0 to 16
        invariant repairs + Stored(Followers(e, bit), have) == all
      {
        var seqno := (e.pid + bit + 1) % 65536;
        StoredFollowers(e, bit, seqno, have);
        var asked := Asked(e.blp, bit);
        if asked && have(seqno) {
          repairs := repairs + [seqno];
        }
      }
      FollowersDone(e, have);
    }

    /** The test of the repair loop. */
    method Asked(blp: bv16, bit: nat) returns (asked: bool)
      requires bit < 16
      ensures asked <==> Lost(blp, bit)
    {
      LostIsFlag(blp, bit);
      asked := blp & (1 << bit) != 0;
    }

    method HandleLimited(k: Key, now: int, entries: seq<NackEntry>, have: Seq16 -> bool) returns (repairs: seq<Seq16>)
      requires limiter.Valid() && rate > 0
      modifies limiter`slots
      ensures limiter.Valid() && |limiter.slots| == |old(limiter.slots)|
      ensures var i := limiter.At(k);
              var a := Serve(old(limiter.slots[i]), k, rate, now, Stored(Requested(entries), have));
              repairs == a.repairs && limiter.slots == old(limiter.slots)[i := a.bucket]
    {
      ghost var i, before := limiter.At(k), limiter.slots;
      ghost var full := Refill(before[i], k, rate, Depth(rate), now);
      ghost var wanted := Stored(Requested(entries), have);
      RefillSane(before[i], k, rate, Depth(rate), now);
      RefillAgain(before[i], k, rate, Depth(rate), now, 0);
      assert Pay(full, 0) == full;
      hide Depth, Refill, Stored, Followers;
      repairs := [];
      var ok := limiter.TakeOne(k, rate, now);
      if !ok {
        assert Whole(full.tokens) == 0;
        return;
      }
      var prepaid := true;
      assert Progress(before, i, full, wanted, Requested(entries), have, repairs, prepaid);
      assert entries[0..] == entries;
      hide Progress, Whole;
      for n := 0 to |entries|
        invariant limiter.Valid() && |limiter.slots| == |before| && limiter.At(k) == i
        invariant Progress(before, i, full, wanted, Requested(entries[n..]), have, repairs, prepaid)
      {
        assert entries[n..][1..] == entries[n + 1..];
        var stop;
        stop, prepaid, repairs :=
          RepairEntry(k, now, entries[n], have, prepaid, repairs, before, i, full, wanted, Requested(entries[n + 1..]));
        if stop {
          return;
        }
      }
      assert entries[|entries|..] == [];
      AllAnswered(before, i, full, wanted, have, repairs, prepaid);
    }

    lemma AllAnswered(before: seq<Bucket>, i: nat, full: Bucket, wanted: seq<Seq16>, have: Seq16 -> bool,
                      repairs: seq<Seq16>, prepaid: bool)
      requires Progress(before, i, full, wanted, [], have, repairs, prepaid)
      ensures repairs == wanted && full.Bucket? && i < |before| && Sane(full) && 1 <= Whole(full.tokens)
              && |wanted| <= Whole(full.tokens)
      ensures limiter.slots == before[i := Pay(full, if wanted == [] then 1 else |wanted|)]
    {}

    /** One NACK entry: its packet id, then the followers its bitmask names. */
    method RepairEntry(k: Key, now: int, e: NackEntry, have: Seq16 -> bool, prepaid0: bool, repairs0: seq<Seq16>,
                       ghost before: seq<Bucket>, ghost i: nat, ghost full: Bucket, ghost wanted: seq<Seq16>,
                         ghost later: seq<Seq16>)
      returns (stop: bool, prepaid: bool, repairs: seq<Seq16>)
      requires limiter.Valid() && rate > 0 && i == limiter.At(k) && |before| == |limiter.slots|
      requires Progress(before, i, full, wanted, [e.pid] + Followers(e, 0) + later, have, repairs0, prepaid0)
      requires full.Bucket? && full.key == k && Sane(full) && Refill(full, k, rate, Depth(rate), now) == full
      modifies limiter`slots
      ensures limiter.Valid() && |limiter.slots| == |before|
      ensures !stop ==> Progress(before, i, full, wanted, later, have, repairs, prepaid)
      ensures stop ==> 0 < Whole(full.tokens) < |wanted| && repairs == wanted[..Whole(full.tokens)]
                       && limiter.slots == before[i := Pay(full, Whole(full.tokens))]
    {
      hide Progress, Depth, Refill, Stored, Whole, Lost, Followers;
      assert [e.pid] + Followers(e, 0) + later == [e.pid] + (Followers(e, 0) + later);
      stop, prepaid, repairs :=
        RepairSeq(k, now, e.pid, have, prepaid0, repairs0, before, i, full, wanted, Followers(e, 0) + later);
      if stop {
        return;
      }
      for bit := 0 to 16
        invariant limiter.Valid() && |limiter.slots| == |before| && limiter.At(k) == i && !stop
        invariant Progress(before, i, full, wanted, Followers(e, bit) + later, have, repairs, prepaid)
      {
        FollowersStep(e, bit, later);
        var asked := Asked(e.blp, bit);
        if asked {
          var seqno := (e.pid + bit + 1) % 65536;
          stop, prepaid, repairs :=
            RepairSeq(k, now, seqno, have, prepaid, repairs, before, i, full, wanted, Followers(e, bit + 1) + later);
          if stop {
            return;
          }
        }
      }
      FollowersEnd(e, later);
    }

    /** What has been answered so far, what is left to answer, and what it has cost. */
    ghost predicate Progress(before: seq<Bucket>, i: nat, full: Bucket, wanted: seq<Seq16>, rest: seq<Seq16>,
                             have: Seq16 -> bool,
                             repairs: seq<Seq16>, prepaid: bool)
      reads limiter
    {
      && full.Bucket? && i < |before| && Sane(full)
      && repairs + Stored(rest, have) == wanted
      && prepaid == (repairs == [])
      && Cost(repairs) as real <= full.tokens
      && limiter.slots == before[i := Pay(full, Cost(repairs))]
    }

    function Cost(repairs: seq<Seq16>): nat {
      if repairs == [] then 1 else |repairs|
    }

    method RepairSeq(k: Key, now: int, seqno: Seq16, have: Seq16 -> bool, prepaid: bool, repairs: seq<Seq16>,
                     ghost before: seq<Bucket>, ghost i: nat, ghost full: Bucket, ghost wanted: seq<Seq16>,
                       ghost rest: seq<Seq16>)
      returns (stop: bool, prepaid': bool, repairs': seq<Seq16>)
      requires limiter.Valid() && rate > 0 && i == limiter.At(k) && |before| == |limiter.slots|
      requires Progress(before, i, full, wanted, [seqno] + rest, have, repairs, prepaid)
      requires full.key == k && Refill(full, k, rate, Depth(rate), now) == full
      modifies limiter`slots
      ensures limiter.Valid() && |limiter.slots| == |before|
      ensures !stop ==> Progress(before, i, full, wanted, rest, have, repairs', prepaid')
      ensures stop ==> 0 < Whole(full.tokens) < |wanted| && repairs' == wanted[..Whole(full.tokens)]
                       && limiter.slots == before[i := Pay(full, Whole(full.tokens))]
    {
      hide Depth;
      assert ([seqno] + rest)[1..] == rest;
      if !have(seqno) {
        return false, prepaid, repairs;
      }
      var ok := Afford(k, now, prepaid, full, Cost(repairs));
      if !ok {
        assert wanted[..|repairs|] == repairs;
        return true, prepaid, repairs;
      }
      repairs' := repairs + [seqno];
      return false, false, repairs';
    }
  }

  // ---- runs ----

  datatype Event = Nack(k: Key, now: int, wanted: seq<Seq16>)

  function At(hash: Key -> nat, n: nat, k: Key): (i: nat)
    requires n > 0
    ensures i < n
  {
    hash(k) % n
  }

  ghost predicate AllSane(slots: seq<Bucket>) { forall i :: 0 <= i < |slots| ==> Sane(slots[i]) }

  /** The buckets after a list of NACKs from any sources. */
  ghost function Buckets(n: nat, hash: Key -> nat, rate: nat, events: seq<Event>): (slots: seq<Bucket>)
    requires n > 0
    ensures |slots| == n && AllSane(slots)
  {
    if events == [] then seq(n, _ => Vacant)
    else
      var slots, e := Buckets(n, hash, rate, events[..|events| - 1]), events[|events| - 1];
      var i := At(hash, n, e.k);
      ServeSane(slots[i], e.k, rate, e.now, e.wanted);
      slots[i := Serve(slots[i], e.k, rate, e.now, e.wanted).bucket]
  }

  lemma ServeSane(b: Bucket, k: Key, rate: nat, now: int, wanted: seq<Seq16>)
    requires Sane(b)
    ensures Sane(Serve(b, k, rate, now, wanted).bucket)
  {}

  /** How many repairs source `k` got over the run. */
  ghost function Repairs(n: nat, hash: Key -> nat, rate: nat, events: seq<Event>, k: Key): nat
    requires n > 0
  {
    if events == [] then 0
    else
      var before, e := events[..|events| - 1], events[|events| - 1];
      Repairs(n, hash, rate, before, k)
      + if e.k == k then |Serve(Buckets(n, hash, rate, before)[At(hash, n, k)], k, rate, e.now, e.wanted).repairs|
        else 0
  }

  /** No other source of the run shares the bucket of `k`. */
  ghost predicate Alone(n: nat, hash: Key -> nat, events: seq<Event>, k: Key)
    requires n > 0
  {
    forall j :: 0 <= j < |events| && events[j].k != k ==> At(hash, n, events[j].k) != At(hash, n, k)
  }

  ghost function FirstOf(events: seq<Event>, k: Key): Option<int> {
    if events == [] then None
    else if FirstOf(events[..|events| - 1], k).Some? then FirstOf(events[..|events| - 1], k)
    else if events[|events| - 1].k == k then Some(events[|events| - 1].now) else None
  }

  /** What a source has received plus what it still has is covered by its depth and the time its
      bucket clock has moved. */
  ghost predicate Covered(b: Bucket, k: Key, rate: nat, first: Option<int>, repairs: nat) {
    if first.None? then repairs == 0 && (b.Vacant? || b.key != k)
    else
      && b.Bucket? && b.key == k && b.last >= first.value && 0.0 <= b.tokens
      && repairs as real + b.tokens <= Depth(rate) as real + rate as real * (b.last - first.value) as real / 1000.0
  }

  lemma EarnedSpan(rate: nat, from: int, last: int, now: int)
    ensures Earned(now - last, rate)
         == rate as real * (now - from) as real / 1000.0 - rate as real * (last - from) as real / 1000.0
  {
    assert (now - last) as real == (now - from) as real - (last - from) as real;
  }

  lemma ServeCovered(b: Bucket, k: Key, rate: nat, now: int, wanted: seq<Seq16>, first: Option<int>, repairs: nat)
    requires Sane(b) && Covered(b, k, rate, first, repairs)
    ensures var a := Serve(b, k, rate, now, wanted);
            Covered(a.bucket, k, rate, if first.Some? then first else Some(now), repairs + |a.repairs|)
  {
    hide Depth, Earned;
    var full := Refill(b, k, rate, Depth(rate), now);
    RefillSane(b, k, rate, Depth(rate), now);
    if first.Some? && now > b.last {
      EarnedSpan(rate, first.value, b.last, now);
    }
  }

  lemma {:induction false} RunCovered(n: nat, hash: Key -> nat, rate: nat, events: seq<Event>, k: Key)
    requires n > 0 && Alone(n, hash, events, k)
    ensures Covered(Buckets(n, hash, rate, events)[At(hash, n, k)], k, rate, FirstOf(events, k),
                    Repairs(n, hash, rate, events, k))
  {
    hide Depth, Covered, Serve, At;
    if events == [] {
      NothingYet(k, rate);
    } else {
      var before, e := events[..|events| - 1], events[|events| - 1];
      RunCovered(n, hash, rate, before, k);
      var b := Buckets(n, hash, rate, before)[At(hash, n, k)];
      if e.k == k {
        ServeCovered(b, k, rate, e.now, e.wanted, FirstOf(before, k), Repairs(n, hash, rate, before, k));
      } else {
        assert events[|events| - 1].k != k;
      }
    }
  }

  lemma NothingYet(k: Key, rate: nat)
    ensures Covered(Vacant, k, rate, None, 0)
  {}

  /** Over any run of NACKs, clock steps backward included, a source whose bucket is its own gets
      at most three seconds' worth of repairs plus what its bucket clock has earned. */
  lemma RepairBound(n: nat, hash: Key -> nat, rate: nat, events: seq<Event>, k: Key)
    requires n > 0 && rate > 0 && Alone(n, hash, events, k)
    ensures var first := FirstOf(events, k); var b := Buckets(n, hash, rate, events)[At(hash, n, k)];
            && (first.None? ==> Repairs(n, hash, rate, events, k) == 0)
            && (first.Some? ==> b.Bucket? && b.key == k)
            && (first.Some? ==>
                  Repairs(n, hash, rate, events, k) as real <= 3.0 * rate as real
                    + rate as real * (b.last - first.value) as real / 1000.0)
  {
    RunCovered(n, hash, rate, events, k);
    DepthBound(rate);
    hide Depth, Buckets, Repairs, FirstOf, At;
  }

  lemma DepthBound(rate: nat)
    requires rate > 0
    ensures Depth(rate) <= 3 * rate
  {}

  // ---- reporting losses and asking for them ----

  function Flag(b: nat): bv16
    requires b < 16
  {
    1 << b
  }

  /** The bitmask a receiver sends: bit d - 1 for each of the distances 1 .. n it has lost. */
  ghost function MaskOf(lost: set<nat>, n: nat): bv16
    requires n <= 16
  {
    if n == 0 then 0 else if n in lost then Both(MaskOf(lost, n - 1), Flag(n - 1)) else MaskOf(lost, n - 1)
  }

  ghost function Single(b: nat): bv16
    requires b < 16
  {
    [0x1, 0x2, 0x4, 0x8, 0x10, 0x20, 0x40, 0x80, 0x100, 0x200, 0x400, 0x800, 0x1000, 0x2000, 0x4000, 0x8000][b]
  }

  lemma FlagIsSingle(b: nat)
    requires b < 16
    ensures Flag(b) == Single(b)
  {
    assert b < 8 ==> b == 0 || b == 1 || b == 2 || b == 3 || b == 4 || b == 5 || b == 6 || b == 7;
    assert b >= 8 ==> b == 8 || b == 9 || b == 10 || b == 11 || b == 12 || b == 13 || b == 14 || b == 15;
  }

  predicate Meet(m: bv16, p: bv16) { m & p != 0 }

  function Both(m: bv16, p: bv16): bv16 { m | p }

  lemma LostIsMeet(m: bv16, k: nat)
    requires k < 16
    ensures Lost(m, k) <==> Meet(m, Single(k))
  {
    hide Lost, Meet, Single;
    if k < 8 { LowIsMeet(m, k); } else { HighIsMeet(m, k); }
  }

  lemma LostIsFlag(m: bv16, bit: nat)
    requires bit < 16
    ensures m & (1 << bit) != 0 <==> Lost(m, bit)
  {
    hide Lost, Single;
    LostIsMeet(m, bit);
    FlagIsSingle(bit);
  }

  lemma LowIsMeet(m: bv16, k: nat)
    requires k < 8
    ensures Lost(m, k) <==> Meet(m, Single(k))
  {
    assert k == 0 || k == 1 || k == 2 || k == 3 || k == 4 || k == 5 || k == 6 || k == 7;
  }

  lemma HighIsMeet(m: bv16, k: nat)
    requires 8 <= k < 16
    ensures Lost(m, k) <==> Meet(m, Single(k))
  {
    assert k == 8 || k == 9 || k == 10 || k == 11 || k == 12 || k == 13 || k == 14 || k == 15;
  }

  lemma SinglesMeet(b: nat, k: nat)
    requires b < 16 && k < 16
    ensures Meet(Single(b), Single(k)) <==> b == k
  {
  }

  lemma MeetsBoth(m: bv16, p: bv16, q: bv16)
    ensures Meet(Both(m, p), q) <==> Meet(m, q) || Meet(p, q)
  {
    assert (m | p) & q == (m & q) | (p & q);
  }

  lemma SetBit(m: bv16, b: nat, k: nat)
    requires b < 16 && k < 16
    ensures Lost(Both(m, Flag(b)), k) <==> Lost(m, k) || k == b
  {
    hide Lost, Single, Flag, Meet, Both;
    FlagIsSingle(b);
    LostIsMeet(Both(m, Flag(b)), k);
    LostIsMeet(m, k);
    SinglesMeet(b, k);
    MeetsBoth(m, Flag(b), Single(k));
  }

  lemma {:induction false} MaskHas(lost: set<nat>, n: nat, bit: nat)
    requires n <= 16 && bit < 16
    ensures Lost(MaskOf(lost, n), bit) <==> bit < n && bit + 1 in lost
  {
    hide Lost, Flag, Both;
    if n == 0 {
      EmptyMask(bit);
    } else {
      MaskHas(lost, n - 1, bit);
      SetBit(MaskOf(lost, n - 1), n - 1, bit);
    }
  }

  lemma EmptyMask(bit: nat)
    requires bit < 16
    ensures !Lost(0, bit)
  {
    LostIsMeet(0, bit);
  }

  function Number(pid: Seq16, d: nat): Seq16 { (pid + d) % 65536 }

  /** The numbers at the given distances from a packet id. */
  ghost function Behind(pid: Seq16, dist: seq<nat>): (seqs: seq<Seq16>) {
    seq(|dist|, i requires 0 <= i < |dist| => Number(pid, dist[i]))
  }

  predicate Increasing(dist: seq<nat>) { forall i, j :: 0 <= i < j < |dist| ==> dist[i] < dist[j] }

  lemma Nearest(pid: Seq16, d: nat, dist: seq<nat>)
    requires Increasing(dist) && forall e :: e in dist ==> d < e
    ensures Increasing([d] + dist) && Behind(pid, [d] + dist) == [Number(pid, d)] + Behind(pid, dist)
    ensures forall e :: e in [d] + dist <==> e == d || e in dist
  {
    assert forall j :: 0 <= j < |dist| ==> dist[j] in dist;
  }

  lemma NoneBehind(pid: Seq16)
    ensures Behind(pid, []) == [] && Increasing([])
  {
  }

  lemma {:induction false} FollowersOf(pid: Seq16, lost: set<nat>, bit: nat) returns (dist: seq<nat>)
    requires bit <= 16
    ensures Followers(NackEntry(pid, MaskOf(lost, 16)), bit) == Behind(pid, dist)
    ensures forall d :: d in dist <==> d in lost && bit < d <= 16
    ensures Increasing(dist)
    decreases 16 - bit
  {
    hide Lost, MaskOf, Followers, Behind, Number, Increasing;
    dist := [];
    NoneBehind(pid);
    FollowersNext(pid, MaskOf(lost, 16), bit);
    if bit < 16 {
      dist := FollowersOf(pid, lost, bit + 1);
      MaskHas(lost, 16, bit);
      if bit + 1 in lost {
        Nearest(pid, bit + 1, dist);
        dist := [bit + 1] + dist;
      } else {
        var later := Followers(NackEntry(pid, MaskOf(lost, 16)), bit + 1);
        assert [] + later == later;
      }
    }
  }

  lemma FollowersNext(pid: Seq16, m: bv16, bit: nat)
    requires bit <= 16
    ensures bit == 16 ==> Followers(NackEntry(pid, m), bit) == []
    ensures bit < 16 ==>
              Followers(NackEntry(pid, m), bit)
              == (if Lost(m, bit) then [Number(pid, bit + 1)] else []) + Followers(NackEntry(pid, m), bit + 1)
  {
    hide Lost;
  }

  /**
   * What a receiver reports is what it is taken to ask for: a packet id and the mask of the lost
   * distances behind it ask for that packet and for exactly those at the distances, nearest first.
   */
  lemma ReportRoundTrip(pid: Seq16, lost: set<nat>) returns (dist: seq<nat>)
    requires forall d :: d in lost ==> 1 <= d <= 16
    ensures Requested([NackEntry(pid, MaskOf(lost, 16))]) == [pid] + Behind(pid, dist)
    ensures forall d :: d in dist <==> d in lost
    ensures Increasing(dist)
  {
    hide Followers;
    dist := FollowersOf(pid, lost, 0);
    var entries := [NackEntry(pid, MaskOf(lost, 16))];
    assert entries[1..] == [];
    assert Requested(entries[1..]) == [];
  }

  lemma RequestedSplit(a: seq<NackEntry>, b: seq<NackEntry>)
    ensures Requested(a + b) == Requested(a) + Requested(b)
  {
    hide Followers;
    if a == [] {
      assert a + b == b;
    } else {
      assert (a + b)[1..] == a[1..] + b;
      RequestedSplit(a[1..], b);
    }
  }

  lemma {:induction false} StoredBehind(pid: Seq16, dist: seq<nat>, have: Seq16 -> bool) returns (kept: seq<nat>)
    requires Increasing(dist)
    ensures Stored(Behind(pid, dist), have) == Behind(pid, kept)
    ensures forall d :: d in kept <==> d in dist && have(Number(pid, d))
    ensures Increasing(kept)
  {
    hide Number, Behind;
    kept := [];
    NoneBehind(pid);
    if dist != [] {
      var d, later := dist[0], dist[1..];
      kept := StoredBehind(pid, later, have);
      assert forall e :: e in later ==> d < e;
      Nearest(pid, d, later);
      Nearest(pid, d, kept);
      assert dist == [d] + later;
      StoredNext(Number(pid, d), Behind(pid, later), have);
      kept := if have(Number(pid, d)) then [d] + kept else kept;
    }
  }

  /** The repairs a report of losses gets without a limit: the stored packets among those, in order. */
  lemma ReportRepaired(pid: Seq16, lost: set<nat>, have: Seq16 -> bool) returns (kept: seq<nat>)
    requires forall d :: d in lost ==> 1 <= d <= 16
    ensures Stored(Requested([NackEntry(pid, MaskOf(lost, 16))]), have)
         == (if have(pid) then [pid] else []) + Behind(pid, kept)
    ensures forall d :: d in kept <==> d in lost && have(Number(pid, d))
    ensures Increasing(kept)
  {
    hide Requested, MaskOf;
    var dist := ReportRoundTrip(pid, lost);
    kept := StoredBehind(pid, dist, have);
    StoredNext(pid, Behind(pid, dist), have);
  }

  // ---- what one NACK gets ----

  /**
   * A source the bucket does not know gets the first three seconds' worth of what it asks for. One it
   * knows gets as much as its tokens and the time since its last NACK allow, up to the same.
   */
  lemma NackGets(b: Bucket, k: Key, rate: nat, now: int, wanted: seq<Seq16>)
    requires Sane(b) && 0 < rate && 3 * rate < 0x1_0000_0000
    ensures var a := Serve(b, k, rate, now, wanted);
            var depth, known := 3.0 * rate as real, b.Bucket? && b.key == k;
            var earned := if known && now > b.last then rate as real * (now - b.last) as real / 1000.0 else 0.0;
            var tokens := if !known then depth else if now > b.last && b.tokens + earned > depth then depth
                          else b.tokens + earned;
            var n := |a.repairs|;
            && n <= |wanted| && a.repairs == wanted[..n] && n as real <= tokens
            && (n < |wanted| ==> tokens < n as real + 1.0)
            && a.bucket.Bucket? && a.bucket.key == k
            && a.bucket.last == (if known && now <= b.last then b.last else now)
            && a.bucket.tokens == tokens - if n > 0 then n as real else if tokens >= 1.0 then 1.0 else 0.0
  {
    assert Depth(rate) == 3 * rate;
    hide Depth;
    RefillSane(b, k, rate, 3 * rate, now);
    if b.Bucket? && b.key == k && now > b.last {
      assert Earned(now - b.last, rate) == rate as real * (now - b.last) as real / 1000.0;
    }
  }
}
