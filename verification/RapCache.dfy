/**
 The fast-channel-change cache of one channel (src/dipifccret/channel/ring.c): a
 wrapping array with three counters, anchored at the newest random access point.
 Each operation is one step. The cache is proved to refine an unbounded log:
 reads return exactly the log suffix from the newest random access point, cut to
 the last `cap` entries, and nothing is cached before the first such point.
 */
module RapCache {
  import opened Wrappers

  type Seq16 = n: nat | n < 65536
  type Payload = p: seq<bv8> | |p| <= 1472 witness []
  datatype Entry = Entry(seqno: Seq16, timestamp: nat, dscp: nat, payload: Payload)
  datatype Meta = Meta(seqno: Seq16, timestamp: nat)

  // One captured packet, and whether it starts a random access point.
  datatype Packet = Packet(entry: Entry, isRap: bool)

  // ---- the unbounded log ----

  /** Everything from the first random access point on. */
  function Log(seen: seq<Packet>): (log: seq<Packet>)
    ensures log != [] ==> log[0].isRap
  {
    if seen == [] then []
    else
      var log, p := Log(seen[..|seen| - 1]), seen[|seen| - 1];
      if log != [] || p.isRap then log + [p] else []
  }

  /** The position of the newest random access point. */
  function NewestRap(log: seq<Packet>): (k: nat)
    requires log != [] && log[0].isRap
    ensures k < |log| && log[k].isRap && forall j :: k < j < |log| ==> !log[j].isRap
  {
    if log[|log| - 1].isRap then |log| - 1
    else
      assert |log| > 1;
      NewestRap(log[..|log| - 1])
  }

  /** Where the readable run starts: at the newest random access point unless it was overwritten. */
  function WindowStart(log: seq<Packet>, cap: nat): (k: nat)
    requires log != [] ==> log[0].isRap
    ensures k <= |log|
  {
    if log == [] then 0
    else if |log| - NewestRap(log) > cap then |log| - cap
    else NewestRap(log)
  }

  function Wrap(k: nat, n: nat): (r: nat)
    requires n > 0
    ensures r < n
  {
    k % n
  }

  lemma LogAppend(seen: seq<Packet>, p: Packet)
    ensures Log(seen + [p]) == if Log(seen) != [] || p.isRap then Log(seen) + [p] else []
  {
    assert (seen + [p])[..|seen|] == seen;
  }

  lemma ModDistinct(a: nat, b: nat, n: nat)
    requires n > 0 && a < b < a + n
    ensures Wrap(a, n) != Wrap(b, n)
  {
    var q := b / n - a / n;
    assert b - a == n * q + (b % n - a % n);
    if q <= 0 {
      MulMono(n, q, 0);
    } else {
      MulMono(n, 1, q);
    }
  }

  lemma MulMono(n: nat, x: int, y: int)
    requires x <= y
    ensures n * x <= n * y
  {}

  /** The ring holds the last `|ring|` entries of the log, each at its position modulo the size. */
  ghost predicate Holds(ring: seq<Entry>, log: seq<Packet>) {
    && (log != [] ==> |ring| > 0)
    && forall k {:trigger log[k]} :: 0 <= k < |log| && |log| - k <= |ring| ==> ring[Wrap(k, |ring|)] == log[k].entry
  }

  lemma HoldsAppend(ring: seq<Entry>, log: seq<Packet>, p: Packet)
    requires |ring| > 0 && Holds(ring, log)
    ensures Holds(ring[Wrap(|log|, |ring|) := p.entry], log + [p])
  {
    var ring', log' := ring[Wrap(|log|, |ring|) := p.entry], log + [p];
    forall k | 0 <= k < |log'| && |log'| - k <= |ring| ensures ring'[Wrap(k, |ring|)] == log'[k].entry {
      if k < |log| {
        ModDistinct(k, |log|, |ring|);
        assert log'[k] == log[k];
      }
    }
  }

  /** Appending moves the newest random access point exactly when the packet is one. */
  lemma NewestRapAppend(log: seq<Packet>, p: Packet)
    requires (log != [] ==> log[0].isRap) && (log != [] || p.isRap)
    ensures NewestRap(log + [p]) == if p.isRap then |log| else NewestRap(log)
  {
    assert (log + [p])[..|log|] == log;
  }

  class Cache {
    const entries: array<Entry>
    var writeCount: nat
    var rapWriteCount: nat
    var haveRap: bool
    ghost var seen: seq<Packet>

    ghost function Cached(): seq<Packet>
      reads this
    {
      Log(seen)
    }

    ghost predicate Valid()
      reads this, entries
    {
      && writeCount == |Cached()|
      && haveRap == (Cached() != [])
      && (haveRap ==> rapWriteCount == NewestRap(Cached()))
      && Holds(entries[..], Cached())
    }

    constructor (cap: nat)
      ensures Valid() && seen == [] && entries.Length == cap && fresh(entries)
    {
      entries := new Entry[cap](_ => Entry(0, 0, 0, []));
      writeCount, rapWriteCount, haveRap := 0, 0, false;
      seen := [];
    }

    /** rap_cache_append; channel_store calls it only with a non-empty ring. */
    method Append(e: Entry, isRap: bool)
      requires Valid() && entries.Length > 0
      modifies this, entries
      ensures Valid() && seen == old(seen) + [Packet(e, isRap)]
    {
      hide Holds, Log, NewestRap, Wrap;
      ghost var p := Packet(e, isRap);
      ghost var log := Cached();
      HoldsAppend(entries[..], log, p);
      LogAppend(seen, p);
      if log != [] || isRap {
        NewestRapAppend(log, p);
      }
      seen := seen + [p];
      var wc := writeCount;
      if isRap {
        rapWriteCount := wc;
        haveRap := true;
      }
      if !haveRap {
        return;
      }
      var at := Wrap(wc, entries.Length);
      entries[at] := e;
      assert entries[..] == old(entries[..])[at := e];
      writeCount := wc + 1;
    }

    method HasRap() returns (r: bool)
      requires Valid()
      ensures r <==> exists k :: 0 <= k < |seen| && seen[k].isRap
    {
      r := haveRap;
      LogEmptyIff(seen);
    }

    /** channel_cache_count. */
    method Count() returns (n: nat)
      requires Valid()
      ensures n == |Cached()| - WindowStart(Cached(), entries.Length)
    {
      if !haveRap {
        return 0;
      }
      n := writeCount - rapWriteCount;
      if n > entries.Length {
        n := entries.Length;
      }
    }

    /** channel_cache_get. */
    method Get(index: nat) returns (r: Option<Entry>)
      requires Valid()
      ensures var start := WindowStart(Cached(), entries.Length);
              r == if start + index < |Cached()| then Some(Cached()[start + index].entry) else None
    {
      if !haveRap {
        return None;
      }
      var avail := writeCount - rapWriteCount;
      if avail > entries.Length {
        avail := entries.Length;
      }
      if index >= avail {
        return None;
      }
      var pos := writeCount - avail + index;
      assert Cached()[pos] == Cached()[WindowStart(Cached(), entries.Length) + index];
      r := Some(entries[Wrap(pos, entries.Length)]);
    }

    /** channel_cache_peek_meta. */
    method PeekMeta(index: nat) returns (r: Option<Meta>)
      requires Valid()
      ensures var start := WindowStart(Cached(), entries.Length);
              r == if start + index < |Cached()|
                   then Some(Meta(Cached()[start + index].entry.seqno, Cached()[start + index].entry.timestamp))
                     else None
    {
      var e := Get(index);
      r := if e.Some? then Some(Meta(e.value.seqno, e.value.timestamp)) else None;
    }

    /** channel_cache_pin: the absolute position a burst starts from. */
    method Pin() returns (pos: nat)
      requires Valid()
      ensures pos == WindowStart(Cached(), entries.Length)
      ensures pos < |Cached()| && |Cached()| - NewestRap(Cached()) <= entries.Length ==> Cached()[pos].isRap
    {
      if !haveRap {
        return writeCount;
      }
      if writeCount - rapWriteCount > entries.Length {
        return writeCount - entries.Length;
      }
      return rapWriteCount;
    }

    /** channel_cache_end. */
    method End() returns (pos: nat)
      requires Valid()
      ensures pos == |Cached()|
    {
      pos := writeCount;
    }

    /** channel_cache_get_abs. */
    method GetAbs(pos: nat) returns (r: Option<Entry>)
      requires Valid()
      ensures r == ReadAbs(Entries(Cached()), entries.Length, pos)
    {
      if entries.Length == 0 {
        return None;
      }
      if pos >= writeCount || writeCount - pos > entries.Length {
        return None;
      }
      assert Cached()[pos] == Cached()[pos];
      r := Some(entries[Wrap(pos, entries.Length)]);
    }
  }

  function Entries(log: seq<Packet>): (es: seq<Entry>)
    ensures |es| == |log|
    ensures forall k {:trigger es[k]} :: 0 <= k < |log| ==> es[k] == log[k].entry
  {
    seq(|log|, k requires 0 <= k < |log| => log[k].entry)
  }

  /** Reading the log at an absolute position through a window of `cap` entries. */
  function ReadAbs(log: seq<Entry>, cap: nat, pos: nat): Option<Entry> {
    if cap > 0 && pos < |log| && |log| - pos <= cap then Some(log[pos]) else None
  }

  lemma {:induction false} LogEmptyIff(seen: seq<Packet>)
    ensures Log(seen) != [] <==> exists k :: 0 <= k < |seen| && seen[k].isRap
  {
    if seen != [] {
      var before, n := seen[..|seen| - 1], |seen| - 1;
      LogEmptyIff(before);
      if Log(before) != [] {
        var k :| 0 <= k < |before| && before[k].isRap;
        assert seen[k].isRap;
      } else {
        assert forall k :: 0 <= k < n ==> seen[k] == before[k];
      }
    }
  }
}
