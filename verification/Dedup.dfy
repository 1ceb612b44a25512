/**
 * Replay suppression of the SRT receiver (src/dipisrt/bridge.c).
 *
 * After a reconnect the peer may deliver again chunks that were already written.
 * The receiver keeps the hash and length of the last N written chunks in a circular
 * buffer and, while a replay is armed, a 32-bit mask: bit s says that everything
 * received since the reconnect equals the history from its s-th oldest entry on.
 *
 * The specification below knows neither the mask nor the circular buffer.
 */
module Dedup {
  import opened Wrappers

  datatype Entry = Entry(hash: nat, len: nat)

  /**
   * One read of the receive loop: `chunk.len == 0` is a read without data, `accepted` tells
   * whether the sink takes the chunk if it is handed over.
   */
  datatype Read = Read(reconnected: bool, chunk: Entry, accepted: bool)

  // ----- Specification on sequences, oldest entry first -----

  ghost predicate Real(run: seq<Entry>) {
    forall i :: 0 <= i < |run| ==> run[i].len > 0
  }

  ghost predicate OccursAt(h: seq<Entry>, run: seq<Entry>, s: nat) {
    s + |run| <= |h| && h[s..s + |run|] == run
  }

  /** `run` is a contiguous piece of the history. */
  ghost predicate Occurs(h: seq<Entry>, run: seq<Entry>) {
    Real(run) && exists s: nat :: OccursAt(h, run, s)
  }

  /** `run` reaches the newest history entry. */
  ghost predicate Caught(h: seq<Entry>, run: seq<Entry>) {
    |run| > 0 && Real(run) && |run| <= |h| && OccursAt(h, run, |h| - |run|)
  }

  /** Some chunk before the last one completed the replay. */
  ghost predicate CaughtBefore(h: seq<Entry>, run: seq<Entry>) {
    exists k :: 0 < k < |run| && Caught(h, run[..k])
  }

  /** The last chunk of `run`, everything received since the reconnect, is dropped. */
  ghost predicate Skipped(h: seq<Entry>, run: seq<Entry>) {
    Occurs(h, run) && !CaughtBefore(h, run)
  }

  /** How many of the chunks `xs` that follow `run` are dropped. */
  ghost function Skips(h: seq<Entry>, run: seq<Entry>, xs: seq<Entry>): (n: nat)
    ensures n <= |xs|
    decreases |xs|
  {
    if xs == [] || !Skipped(h, run + [xs[0]]) then 0
    else 1 + Skips(h, run + [xs[0]], xs[1..])
  }

  /** What the receiver is doing: history, what came since the reconnect, whether it may still drop. */
  datatype View = View(history: seq<Entry>, run: seq<Entry>, armed: bool)

  ghost predicate Drops(v: View, x: Entry) {
    v.armed && Skipped(v.history, v.run + [x])
  }

  ghost function Arm(v: View, r: Read): View {
    if r.reconnected then View(v.history, [], true) else v
  }

  /** The chunk goes to the sink. */
  ghost predicate Hands(v: View, r: Read) {
    r.chunk.len > 0 && !Drops(Arm(v, r), r.chunk)
  }

  /** The history keeps what was handed over, whether or not the sink took it. */
  ghost function Next(v: View, r: Read): View {
    var a := Arm(v, r);
    if r.chunk.len == 0 then a
    else if Drops(a, r.chunk) then a.(run := a.run + [r.chunk])
    else View(Push(a.history, r.chunk), [], false)
  }

  function Push(h: seq<Entry>, x: Entry): seq<Entry> {
    if h == [] then [] else h[1..] + [x]
  }

  function Emit(emits: bool, x: Entry): seq<Entry> {
    if emits then [x] else []
  }

  /** The chunks the sink has taken after a sequence of reads. */
  ghost function Written(v: View, ins: seq<Read>): seq<Entry>
    decreases |ins|
  {
    if ins == [] then []
    else Emit(Hands(v, ins[0]) && ins[0].accepted, ins[0].chunk) + Written(Next(v, ins[0]), ins[1..])
  }

  /** The chunks handed to the sink. */
  ghost function Handed(v: View, ins: seq<Read>): seq<Entry>
    decreases |ins|
  {
    if ins == [] then [] else Emit(Hands(v, ins[0]), ins[0].chunk) + Handed(Next(v, ins[0]), ins[1..])
  }

  ghost function Final(v: View, ins: seq<Read>): View
    decreases |ins|
  {
    if ins == [] then v else Final(Next(v, ins[0]), ins[1..])
  }

  // ----- What the specification promises -----

  lemma RealPrefix(run: seq<Entry>, k: nat)
    requires Real(run) && k <= |run|
    ensures Real(run[..k])
  {
  }

  /** Dropping stops for good: a dropped chunk's predecessors were all dropped. */
  lemma SkippedPrefix(h: seq<Entry>, run: seq<Entry>, k: nat)
    requires Skipped(h, run) && k <= |run|
    ensures Skipped(h, run[..k])
  {
    var s: nat :| OccursAt(h, run, s);
    assert OccursAt(h, run[..k], s) by {
      assert h[s..s + |run|][..k] == h[s..s + k];
    }
    RealPrefix(run, k);
    forall j | 0 < j < k ensures !Caught(h, run[..k][..j]) {
      assert run[..k][..j] == run[..j];
    }
  }

  /** At most N chunks are dropped per reconnect, and each of them equals a written one. */
  lemma SkippedIsOld(h: seq<Entry>, run: seq<Entry>)
    requires Skipped(h, run)
    ensures |run| <= |h|
    ensures forall i :: 0 <= i < |run| ==> run[i] in h
  {
    var s: nat :| OccursAt(h, run, s);
    forall i | 0 <= i < |run| ensures run[i] in h {
      assert run[i] == h[s..s + |run|][i] == h[s + i];
    }
  }

  lemma {:induction false} SkipsBound(h: seq<Entry>, run: seq<Entry>, xs: seq<Entry>)
    requires Skipped(h, run) || run == []
    ensures |run| + Skips(h, run, xs) <= |h| || run + xs[..Skips(h, run, xs)] == []
    decreases |xs|
  {
    if xs != [] && Skipped(h, run + [xs[0]]) {
      SkippedIsOld(h, run + [xs[0]]);
      SkipsBound(h, run + [xs[0]], xs[1..]);
    } else if run != [] {
      SkippedIsOld(h, run);
    }
  }

  /** The number of dropped chunks, without recursion: each longer prefix stops being droppable. */
  lemma {:induction false} SkipsExact(h: seq<Entry>, run: seq<Entry>, xs: seq<Entry>, k: nat)
    requires k <= |xs|
    requires k > 0 ==> Skipped(h, run + xs[..k])
    requires k < |xs| ==> !Skipped(h, run + xs[..k + 1])
    ensures Skips(h, run, xs) == k
    decreases k
  {
    if k == 0 {
      assert xs != [] ==> xs[..1] == [xs[0]];
    } else {
      hide Skipped;
      assert (run + xs[..k])[..|run| + 1] == run + [xs[0]];
      SkippedPrefix(h, run + xs[..k], |run| + 1);
      assert run + xs[..k] == (run + [xs[0]]) + xs[1..][..k - 1];
      assert k < |xs| ==> run + xs[..k + 1] == (run + [xs[0]]) + xs[1..][..k];
      SkipsExact(h, run + [xs[0]], xs[1..], k - 1);
    }
  }

  /** A proper start of the last k entries that is also the end of the history. */
  ghost predicate SelfOverlapping(h: seq<Entry>, k: nat)
    requires k <= |h|
  {
    exists j: nat :: OverlapAt(h, k, j)
  }

  ghost predicate OverlapAt(h: seq<Entry>, k: nat, j: nat)
    requires k <= |h|
  {
    0 < j < k && h[|h| - k..][..j] == h[|h| - j..]
  }

  /**
   * A peer that sends the last k written chunks again and goes on with new ones has exactly the
   * repeated ones dropped, if and only if the repeated piece does not overlap itself.
   */
  lemma ReplayDroppedIff(h: seq<Entry>, k: nat, news: seq<Entry>)
    requires 0 < k <= |h| && Real(h[|h| - k..])
    ensures Skips(h, [], h[|h| - k..] + news) == k <==> !SelfOverlapping(h, k)
  {
    var run := h[|h| - k..];
    var xs := run + news;
    assert xs[..k] == run;
    assert OccursAt(h, run, |h| - k) && Real(run);
    if SelfOverlapping(h, k) {
      var j: nat :| OverlapAt(h, k, j);
      OverlapStops(h, k, news, j);
    } else {
      forall i | 0 < i < k ensures !Caught(h, run[..i]) {
        if Caught(h, run[..i]) {
          assert OverlapAt(h, k, i);
        }
      }
      assert !CaughtBefore(h, run);
      assert [] + xs[..k] == run;
      if k < |xs| {
        assert xs[..k + 1][..k] == run;
        assert Caught(h, xs[..k + 1][..k]);
        assert CaughtBefore(h, xs[..k + 1]);
        assert [] + xs[..k + 1] == xs[..k + 1];
      }
      SkipsExact(h, [], xs, k);
    }
  }

  /** An overlap of length j ends the replay after at most j chunks. */
  lemma OverlapStops(h: seq<Entry>, k: nat, news: seq<Entry>, j: nat)
    requires k <= |h| && Real(h[|h| - k..]) && OverlapAt(h, k, j)
    ensures Skips(h, [], h[|h| - k..] + news) <= j
  {
    var xs := h[|h| - k..] + news;
    var n := Skips(h, [], xs);
    SkipsSound(h, [], xs);
    assert [] + xs[..n] == xs[..n];
    assert xs[..j] == h[|h| - k..][..j];
    RealPrefix(h[|h| - k..], j);
    assert Caught(h, xs[..j]);
    CaughtStops(h, xs, j);
  }

  /** Nothing after a completed replay is dropped. */
  lemma CaughtStops(h: seq<Entry>, xs: seq<Entry>, j: nat)
    requires 0 < j <= |xs| && Caught(h, xs[..j])
    ensures forall n :: j < n <= |xs| ==> !Skipped(h, xs[..n])
  {
    forall n | j < n <= |xs| ensures CaughtBefore(h, xs[..n]) {
      assert xs[..n][..j] == xs[..j];
    }
  }

  /** So a history of one chunk repeated hides only one chunk of its replay, though more would fit. */
  lemma RepeatedChunkWritten(x: Entry)
    requires x.len > 0
    ensures Occurs([x, x], [x, x]) && !Skipped([x, x], [x, x]) && Skipped([x, x], [x])
  {
    assert OccursAt([x, x], [x, x], 0);
    assert [x, x][0..1] == [x];
    assert OccursAt([x, x], [x], 0);
    assert [x, x][..1] == [x] && OccursAt([x, x], [x], 1);
    assert Caught([x, x], [x, x][..1]);
    assert CaughtBefore([x, x], [x, x]);
    assert !CaughtBefore([x, x], [x]);
  }

  lemma {:induction false} SkipsSound(h: seq<Entry>, run: seq<Entry>, xs: seq<Entry>)
    ensures Skips(h, run, xs) > 0 ==> Skipped(h, run + xs[..Skips(h, run, xs)])
    decreases |xs|
  {
    if xs != [] && Skipped(h, run + [xs[0]]) {
      SkipsSound(h, run + [xs[0]], xs[1..]);
      var n := Skips(h, run + [xs[0]], xs[1..]);
      assert run + xs[..1 + n] == (run + [xs[0]]) + xs[1..][..n];
      assert n == 0 ==> run + xs[..1] == run + [xs[0]];
    }
  }

  /** The whole stream after a reconnect: what is written is what is left after the dropped ones. */
  lemma {:induction false} WrittenAfterReconnect(h: seq<Entry>, run: seq<Entry>, xs: seq<Entry>)
    requires Real(xs)
    ensures Written(View(h, run, true), Plain(xs)) == xs[Skips(h, run, xs)..]
    decreases |xs|
  {
    if xs != [] {
      var v := View(h, run, true);
      assert Plain(xs)[1..] == Plain(xs[1..]);
      if Skipped(h, run + [xs[0]]) {
        WrittenAfterReconnect(h, run + [xs[0]], xs[1..]);
      } else {
        WrittenIdle(Push(h, xs[0]), [], xs[1..]);
        assert xs == [xs[0]] + xs[1..];
      }
    }
  }

  lemma {:induction false} WrittenIdle(h: seq<Entry>, run: seq<Entry>, xs: seq<Entry>)
    requires Real(xs)
    ensures Written(View(h, run, false), Plain(xs)) == xs
    decreases |xs|
  {
    if xs != [] {
      assert Plain(xs)[1..] == Plain(xs[1..]);
      WrittenIdle(Push(h, xs[0]), [], xs[1..]);
    }
  }

  /** Reads that deliver `xs` without a further reconnect, to a sink that takes everything. */
  ghost function Plain(xs: seq<Entry>): seq<Read> {
    seq(|xs|, i requires 0 <= i < |xs| => Read(false, xs[i], true))
  }

  // ----- What can be lost -----

  lemma {:induction false} LastRead(v: View, ins: seq<Read>, n: nat)
    requires n < |ins|
    ensures var u := Final(v, ins[..n]);
            && Final(v, ins[..n + 1]) == Next(u, ins[n])
            && Written(v, ins[..n + 1])
               == Written(v, ins[..n]) + Emit(Hands(u, ins[n]) && ins[n].accepted, ins[n].chunk)
            && Handed(v, ins[..n + 1]) == Handed(v, ins[..n]) + Emit(Hands(u, ins[n]), ins[n].chunk)
    decreases n
  {
    hide Hands, Next;
    var a, b := ins[..n], ins[..n + 1];
    if n == 0 {
      assert b[1..] == [] && b[0] == ins[0];
    } else {
      assert a[0] == b[0] == ins[0] && a[1..] == ins[1..][..n - 1] && b[1..] == ins[1..][..n];
      LastRead(Next(v, ins[0]), ins[1..], n - 1);
    }
  }

  /** The read is handed to the sink. */
  ghost predicate HandedAt(v: View, ins: seq<Read>, i: nat)
    requires i < |ins|
  {
    Hands(Final(v, ins[..i]), ins[i])
  }

  /** The history is the end of what it was followed by what was handed over since. */
  lemma {:induction false} HistoryIs(v: View, ins: seq<Read>, n: nat)
    requires n <= |ins|
    ensures Final(v, ins[..n]).history == (v.history + Handed(v, ins[..n]))[|Handed(v, ins[..n])|..]
  {
    if n > 0 {
      HistoryIs(v, ins, n - 1);
      LastRead(v, ins, n - 1);
      var u, h := Final(v, ins[..n - 1]), Handed(v, ins[..n - 1]);
      hide Hands, Final, Handed;
      if Hands(u, ins[n - 1]) {
        PushEnd(v.history, h, ins[n - 1].chunk);
        NextHands(u, ins[n - 1]);
      } else {
        NextKeeps(u, ins[n - 1]);
      }
    }
  }

  lemma NextHands(u: View, r: Read)
    requires Hands(u, r)
    ensures Next(u, r).history == Push(u.history, r.chunk)
  {
  }

  lemma NextKeeps(u: View, r: Read)
    requires !Hands(u, r)
    ensures Next(u, r).history == u.history
  {
  }

  lemma PushEnd(base: seq<Entry>, h: seq<Entry>, x: Entry)
    ensures Push((base + h)[|h|..], x) == (base + (h + [x]))[|h| + 1..]
  {
    assert base + (h + [x]) == (base + h) + [x];
  }

  /** The read behind a handed-over chunk. */
  lemma {:induction false} ReadOf(v: View, ins: seq<Read>, n: nat, r: nat) returns (j: nat)
    requires n <= |ins| && r < |Handed(v, ins[..n])|
    ensures j < n && HandedAt(v, ins, j) && ins[j].chunk == Handed(v, ins[..n])[r] && |Handed(v, ins[..j])| == r
    decreases n
  {
    assert ins[..0] == [];
    LastRead(v, ins, n - 1);
    if r < |Handed(v, ins[..n - 1])| {
      j := ReadOf(v, ins, n - 1, r);
    } else {
      j := n - 1;
    }
  }

  /** An equal chunk, handed over at read j and refused, that the history still held at read i. */
  ghost predicate RefusedAt(v: View, ins: seq<Read>, i: nat, j: nat)
    requires i < |ins|
  {
    && j <= i && ins[j].chunk == ins[i].chunk && HandedAt(v, ins, j) && !ins[j].accepted
    && (j == i || |Handed(v, ins[..i])| - |Handed(v, ins[..j])| <= |v.history|)
  }

  /** Every entry of a history was taken by the sink, or is one of the empty start entries. */
  ghost predicate Known(v: View, past: set<Entry>) {
    forall i :: 0 <= i < |v.history| ==> v.history[i].len == 0 || v.history[i] in past
  }

  lemma {:induction false} WrittenHas(v: View, ins: seq<Read>, n: nat, j: nat)
    requires j < n <= |ins| && HandedAt(v, ins, j) && ins[j].accepted
    ensures ins[j].chunk in Written(v, ins[..n])
    decreases n
  {
    LastRead(v, ins, n - 1);
    if j < n - 1 {
      WrittenHas(v, ins, n - 1, j);
    }
  }

  /**
   * A delivered chunk is in the output by then, unless its own write or the write of an equal
   * chunk that is still in the history was refused.
   */
  lemma NothingLost(v: View, ins: seq<Read>, past: set<Entry>, i: nat)
    requires Known(v, past) && i < |ins| && ins[i].chunk.len > 0
    ensures ins[i].chunk in past || ins[i].chunk in Written(v, ins[..i + 1]) || exists j: nat :: RefusedAt(v, ins, i, j)
  {
    var x, u := ins[i].chunk, Final(v, ins[..i]);
    if HandedAt(v, ins, i) {
      if ins[i].accepted {
        WrittenHas(v, ins, i + 1, i);
      } else {
        assert RefusedAt(v, ins, i, i);
      }
    } else {
      var q := HeldAt(u, ins[i]);
      HistoryIs(v, ins, i);
      var h := Handed(v, ins[..i]);
      if q + |h| < |v.history| {
        assert v.history[q + |h|] == x;
      } else {
        var r := q + |h| - |v.history|;
        assert h[r] == x;
        var j := ReadOf(v, ins, i, r);
        if ins[j].accepted {
          WrittenHas(v, ins, i + 1, j);
        } else {
          assert RefusedAt(v, ins, i, j);
        }
      }
    }
  }

  /** A dropped chunk is in the history. */
  lemma HeldAt(u: View, r: Read) returns (q: nat)
    requires r.chunk.len > 0 && !Hands(u, r)
    ensures q < |u.history| && u.history[q] == r.chunk
  {
    var run := Arm(u, r).run + [r.chunk];
    SkippedIsOld(u.history, run);
    assert run[|run| - 1] in u.history;
    q :| 0 <= q < |u.history| && u.history[q] == r.chunk;
  }

  lemma {:induction false} WrittenFrom(v: View, ins: seq<Read>, n: nat, x: Entry) returns (j: nat)
    requires n <= |ins| && x in Written(v, ins[..n])
    ensures j < n && ins[j].chunk == x && HandedAt(v, ins, j) && ins[j].accepted
    decreases n
  {
    assert ins[..0] == [];
    LastRead(v, ins, n - 1);
    if x in Written(v, ins[..n - 1]) {
      j := WrittenFrom(v, ins, n - 1, x);
    } else {
      j := n - 1;
    }
  }

  /** The copy of a chunk in read `j` came to nothing: refused, or dropped for a refused one. */
  ghost predicate LostAt(v: View, ins: seq<Read>, j: nat)
    requires j < |ins|
  {
    if HandedAt(v, ins, j) then !ins[j].accepted else exists l: nat :: l < j && RefusedAt(v, ins, j, l)
  }

  /**
   * Exactly which delivered chunks are missing from the output: those of which every copy so far
   * was refused by the sink, or dropped while a refused copy was in the history.
   */
  lemma LostIff(v: View, ins: seq<Read>, past: set<Entry>, i: nat)
    requires Known(v, past) && i < |ins| && ins[i].chunk.len > 0 && ins[i].chunk !in past
    ensures ins[i].chunk !in Written(v, ins[..i + 1])
       <==> forall j: nat :: j <= i && ins[j].chunk == ins[i].chunk ==> LostAt(v, ins, j)
  {
    var x := ins[i].chunk;
    forall j: nat | j <= i && ins[j].chunk == x && !LostAt(v, ins, j)
      ensures x in Written(v, ins[..i + 1])
    {
      if HandedAt(v, ins, j) {
        WrittenHas(v, ins, i + 1, j);
      } else {
        NothingLost(v, ins, past, j);
        var l := WrittenFrom(v, ins, j + 1, x);
        WrittenHas(v, ins, i + 1, l);
      }
    }
    if x in Written(v, ins[..i + 1]) {
      var j := WrittenFrom(v, ins, i + 1, x);
      assert !LostAt(v, ins, j);
    }
  }

  /** A losing run: a refused chunk is kept in the history, so its replay is dropped. */
  lemma RefusedThenDropped(x: Entry)
    requires x.len > 0
    ensures var v := View([Entry(0, 0), Entry(0, 0)], [], false);
            Written(v, [Read(false, x, false), Read(true, x, true)]) == []
  {
    var v := View([Entry(0, 0), Entry(0, 0)], [], false);
    var ins := [Read(false, x, false), Read(true, x, true)];
    var v1 := Next(v, ins[0]);
    assert v1 == View([Entry(0, 0), x], [], false);
    assert v1.history[1..2] == [x];
    assert OccursAt(v1.history, [x], 1);
    assert [] + [x] == [x];
    assert Skipped(v1.history, [x]);
    assert !Hands(v1, ins[1]);
    var rest := ins[1..];
    assert rest[0] == ins[1] && rest[1..] == [];
    assert Written(v1, rest) == Emit(false, x) + Written(Next(v1, rest[0]), []);
    assert Written(v, ins) == Emit(false, x) + Written(v1, rest);
  }

  // ----- Bits of a 32-bit word -----

  function Amount(s: nat): (a: bv5)
    requires s < 32
  {
    s as bv5
  }

  lemma AmountNat(s: nat)
    requires s < 32
    ensures Amount(s) as nat == s
  {
  }

  lemma AmountOrder(s: nat, t: nat)
    requires s < 32 && t < 32
    ensures Amount(s) == Amount(t) <==> s == t
    ensures Amount(s) < Amount(t) <==> s < t
  {
    hide Amount;
    AmountNat(s);
    AmountNat(t);
  }

  function Shifted(a: bv5): bv32
  {
    (1 as bv32) << a
  }

  function One(s: nat): bv32
    requires s < 32
  {
    Shifted(Amount(s))
  }

  predicate Bit(m: bv32, s: nat)
    requires s < 32
  {
    Meets(m, One(s))
  }

  predicate Meets(m: bv32, b: bv32) {
    m & b != 0
  }

  function With(m: bv32, b: bv32): bv32 {
    m | b
  }

  lemma MeetsWith(m: bv32, a: bv32, b: bv32)
    ensures Meets(With(m, a), b) <==> Meets(a, b) || Meets(m, b)
  {
    var x, y := m & b, a & b;
    assert (m | a) & b == x | y;
    NonZeroOr(x, y);
  }

  lemma NonZeroOr(x: bv32, y: bv32)
    ensures x | y != 0 <==> x != 0 || y != 0
  {
  }

  lemma ShiftedMeets(s: bv5, t: bv5)
    ensures Meets(Shifted(s), Shifted(t)) <==> s == t
  {
    assert ((1 as bv32) << s) & (1 << t) != 0 <==> s == t;
  }

  lemma SetBit(m: bv32, s: nat, t: nat)
    requires s < 32 && t < 32
    ensures Bit(With(m, One(s)), t) <==> s == t || Bit(m, t)
  {
    hide Amount, Shifted, Meets, With;
    AmountOrder(s, t);
    MeetsWith(m, One(s), One(t));
    ShiftedMeets(Amount(s), Amount(t));
  }

  function Full(n: nat): bv32 {
    if n >= 32 then 0xFFFF_FFFF else Below(Amount(n))
  }

  function Below(a: bv5): bv32
  {
    Shifted(a) - 1
  }

  lemma LowRaw(n: bv5, s: bv5)
    ensures (((1 as bv32) << n) - 1) & (1 << s) != 0 <==> s < n
  {
  }

  lemma LowBits(n: bv5, s: bv5)
    ensures Meets(Below(n), Shifted(s)) <==> s < n
  {
    LowRaw(n, s);
  }

  lemma AllBits(s: bv5)
    ensures Meets(0xFFFF_FFFF, Shifted(s))
  {
  }

  lemma FullBit(n: nat, s: nat)
    requires s < 32
    ensures Bit(Full(n), s) <==> s < n
  {
    hide Amount, Shifted, Below, Meets;
    if n < 32 {
      AmountOrder(s, n);
      LowBits(Amount(n), Amount(s));
    } else {
      AllBits(Amount(s));
    }
  }

  lemma ZeroBit(s: nat)
    requires s < 32
    ensures !Bit(0, s)
  {
  }

  // ----- The receiver -----

  /** The circular buffer read from its oldest entry. */
  function Wrap(i: nat, n: nat): (r: nat)
    requires n > 0
    ensures r < n
  {
    i % n
  }

  ghost function Oldest(h: seq<Entry>, next: nat): (r: seq<Entry>)
    requires |h| > 0
    ensures |r| == |h|
  {
    seq(|h|, i requires 0 <= i < |h| => h[Wrap(next + i, |h|)])
  }

  lemma WrapOnce(i: nat, n: nat)
    requires 0 < n && i < 2 * n
    ensures Wrap(i, n) == if i < n then i else i - n
  {
    if n <= i {
      assert i == n * 1 + (i - n);
    }
  }

  lemma WrapSucc(n: nat, next: nat, i: nat)
    requires 0 <= next < n && i < n
    ensures Wrap(Wrap(next + 1, n) + i, n) == Wrap(next + i + 1, n)
    ensures Wrap(next + i + 1, n) == next <==> i == n - 1
  {
    hide Wrap;
    WrapOnce(next + 1, n);
    WrapOnce(next + i + 1, n);
    WrapOnce(Wrap(next + 1, n) + i, n);
  }

  /** Writing over the oldest entry pushes the new one at the end. */
  lemma OldestPush(h: seq<Entry>, next: nat, x: Entry)
    requires next < |h|
    ensures Oldest(h[next := x], Wrap(next + 1, |h|)) == Push(Oldest(h, next), x)
  {
    var a := Oldest(h[next := x], Wrap(next + 1, |h|));
    var b := Push(Oldest(h, next), x);
    forall i | 0 <= i < |h| ensures a[i] == b[i] {
      WrapSucc(|h|, next, i);
      if i < |h| - 1 {
        assert b[i] == Oldest(h, next)[i + 1];
      }
    }
    assert |a| == |b|;
  }

  /** Bit s of the mask, in terms of the specification. */
  ghost predicate Agrees(cand: bv32, h: seq<Entry>, run: seq<Entry>) {
    |h| <= 32 && forall s: nat :: s < 32 ==> (Bit(cand, s) <==> OccursAt(h, run, s) && s < |h|)
  }

  /** Extending a run by one chunk. */
  lemma OccursNext(h: seq<Entry>, run: seq<Entry>, x: Entry, s: nat)
    ensures OccursAt(h, run + [x], s) <==> OccursAt(h, run, s) && s + |run| < |h| && h[s + |run|] == x
  {
    var n := |run|;
    if OccursAt(h, run, s) && s + n < |h| && h[s + n] == x {
      assert h[s..s + n + 1] == h[s..s + n] + [h[s + n]];
    }
    if OccursAt(h, run + [x], s) {
      assert h[s..s + n] == h[s..s + n + 1][..n] == (run + [x])[..n] == run;
      assert h[s + n] == h[s..s + n + 1][n] == x;
    }
  }

  /** The history before anything was written. */
  ghost function Blank(n: nat): (h: seq<Entry>)
    ensures |h| == n && forall i :: 0 <= i < n ==> h[i] == Entry(0, 0)
  {
    seq(n, _ => Entry(0, 0))
  }

  /** Some place where the run occurs ends at the newest entry. */
  ghost predicate Reached(h: seq<Entry>, run: seq<Entry>) {
    exists s: nat :: s < |h| && OccursAt(h, run, s) && s + |run| >= |h|
  }

  class Receiver {
    const hist: array<Entry>
    var next: nat
    var cand: bv32
    var pos: nat
    ghost var run: seq<Entry>
    ghost var armed: bool

    ghost function History(): seq<Entry>
      requires hist.Length > 0
      reads this, hist
    {
      Oldest(hist[..], next)
    }

    ghost function Abs(): View
      requires hist.Length > 0
      reads this, hist
    {
      View(History(), run, armed)
    }

    /**
     * A live mask marks exactly the places where the run occurs; a dead one means that nothing
     * received from now on can be dropped.
     */
    ghost predicate Valid()
      reads this, hist
    {
      && 0 < hist.Length <= 32 && next < hist.Length
      && (cand != 0 ==> armed && pos == |run| && Real(run) && Agrees(cand, History(), run) && NotCaught(History(), run))
      && (cand == 0 && armed ==> Over(History(), run))
    }

    constructor (n: nat)
      requires 0 < n <= 32
      ensures Valid() && hist.Length == n && fresh(hist)
      ensures Abs() == View(Blank(n), [], false)
    {
      hist := new Entry[n](_ => Entry(0, 0));
      next, cand, pos, run, armed := 0, 0, 0, [], false;
      new;
      forall i | 0 <= i < n ensures History()[i] == Entry(0, 0) {
        assert hist[..][Wrap(0 + i, n)] == Entry(0, 0);
      }
    }

    method ReplayBegin()
      requires Valid()
      modifies this
      ensures Valid() && Abs() == View(old(History()), [], true)
    {
      cand, pos, run, armed := Full(hist.Length), 0, [], true;
      ghost var h := History();
      forall s: nat | s < 32
        ensures Bit(cand, s) <==> OccursAt(h, [], s) && s < |h|
      {
        FullBit(hist.Length, s);
      }
    }

    /** `dedup_replay_match`: with a live mask, tells whether the chunk is a repeated one. */
    method ReplayMatch(x: Entry) returns (skip: bool)
      requires Valid() && cand != 0
      modifies this`cand, this`pos, this`run, this`armed
      ensures Valid()
      ensures skip == (x.len > 0 && Skipped(History(), old(run) + [x]))
      ensures armed == skip && run == (if skip then old(run) + [x] else [])
    {
      hide Skipped, Oldest, OccursAt, Agrees, NotCaught, Over, Reached;
      ghost var h := History();
      ghost var longer := run + [x];
      var keep := Keep(x);
      cand := keep;
      armed := keep != 0;
      run := if armed then longer else [];
      if keep == 0 {
        NoneKept(h, longer, x, keep);
        return false;
      }
      pos := pos + 1;
      var finished := Finished();
      KeptSkips(h, old(run), x, keep, finished);
      if finished {
        cand := 0;
      }
      return true;
    }

    /** First loop: the mask narrowed to the places where `x` continues the run. */
    method Keep(x: Entry) returns (keep: bv32)
      requires Valid() && cand != 0
      ensures if x.len > 0 then Agrees(keep, History(), run + [x]) else keep == 0
      ensures keep != 0 ==> exists s: nat :: OccursAt(History(), run + [x], s)
    {
      hide Bit, One, OccursAt, Wrap, With, NotCaught, Over;
      keep := 0;
      var n := hist.Length;
      ghost var h := History();
      var s := 0;
      forall t: nat | t < 32 ensures !Bit(keep, t) { ZeroBit(t); }
      while s < n
        invariant 0 <= s <= n
        invariant forall t: nat :: t < 32 ==> (Bit(keep, t) <==> t < s && x.len > 0 && OccursAt(h, run + [x], t))
        invariant x.len == 0 ==> keep == 0
        invariant keep != 0 ==> exists t: nat :: OccursAt(h, run + [x], t)
      {
        OccursNext(h, run, x, s);
        if Bit(cand, s) && s + pos < n {
          var e := hist[Wrap(next + s + pos, n)];
          assert e == h[s + pos];
          if e.len == x.len && e.len > 0 && e.hash == x.hash {
            assert e == x && OccursAt(h, run + [x], s);
            forall t: nat | t < 32 ensures Bit(With(keep, One(s)), t) <==> s == t || Bit(keep, t) {
              SetBit(keep, s, t);
            }
            keep := With(keep, One(s));
          }
        }
        s := s + 1;
      }
      if x.len > 0 {
        forall t: nat | t < 32 ensures Bit(keep, t) <==> OccursAt(h, run + [x], t) && t < |h| {
          OccursNext(h, run, x, t);
        }
      }
    }

    /** Second loop: has some place reached the newest entry? */
    method Finished() returns (finished: bool)
      requires 0 < hist.Length <= 32 && next < hist.Length && pos == |run|
      requires Agrees(cand, History(), run)
      ensures finished == Reached(History(), run)
    {
      hide Bit, OccursAt, Oldest;
      finished := false;
      var s := 0;
      while s < hist.Length
        invariant 0 <= s <= hist.Length
        invariant finished == (exists t: nat :: t < s && OccursAt(History(), run, t) && t + |run| >= hist.Length)
      {
        if Bit(cand, s) && s + pos >= hist.Length {
          finished := true;
        }
        s := s + 1;
      }
    }

    /** `dedup_record`. */
    method Record(x: Entry)
      requires Valid() && cand == 0
      modifies this`next, this`armed, this`run, hist
      ensures Valid() && Abs() == View(Push(old(History()), x), [], false)
    {
      OldestPush(hist[..], next, x);
      ghost var before := hist[..];
      hist[next] := x;
      assert hist[..] == before[next := x];
      next := Wrap(next + 1, hist.Length);
      armed, run := false, [];
    }

    /**
     * One turn of the receive loop. A refused write is recorded like any other, unless the sink
     * cannot be retried: then the loop ends.
     */
    method Receive(r: Read, retry: bool) returns (written: bool, stop: bool)
      requires Valid()
      modifies this, hist
      ensures Valid()
      ensures stop == (Hands(old(Abs()), r) && !r.accepted && !retry)
      ensures written == (Hands(old(Abs()), r) && r.accepted)
      ensures !stop ==> Abs() == Next(old(Abs()), r)
    {
      hide Skipped, Agrees, Oldest;
      if r.reconnected {
        ReplayBegin();
      }
      ghost var v := Abs();
      assert v == Arm(old(Abs()), r);
      if r.chunk.len == 0 {
        return false, false;
      }
      if cand != 0 {
        var skip := ReplayMatch(r.chunk);
        if skip {
          return false, false;
        }
      } else if armed {
        OverNoSkip(History(), run, r.chunk);
      }
      if !r.accepted && !retry {
        return false, true;
      }
      Record(r.chunk);
      return r.accepted, false;
    }

    /**
     * The receive loop over any number of reads outputs exactly what the specification says, up
     * to the refused write that ends it when the sink cannot be retried.
     */
    method ReceiveAll(ins: seq<Read>, retry: bool) returns (out: seq<Entry>, n: nat)
      requires Valid()
      modifies this, hist
      ensures Valid() && n <= |ins|
      ensures out == Written(old(Abs()), ins[..n])
      ensures n == |ins| ==> Abs() == Final(old(Abs()), ins)
      ensures n < |ins| ==> !retry && HandedAt(old(Abs()), ins, n) && !ins[n].accepted
      ensures !retry ==> forall i: nat :: i < n && HandedAt(old(Abs()), ins, i) ==> ins[i].accepted
    {
      hide Hands, Next, Written, Final;
      ghost var v := Abs();
      out, n := [], 0;
      NoRead(v, ins[..0]);
      while n < |ins|
        invariant 0 <= n <= |ins|
        invariant Valid()
        invariant out == Written(v, ins[..n]) && Abs() == Final(v, ins[..n])
        invariant !retry ==> forall i: nat :: i < n && HandedAt(v, ins, i) ==> ins[i].accepted
      {
        LastRead(v, ins, n);
        var w, stop := Receive(ins[n], retry);
        if stop {
          return;
        }
        if w {
          out := out + [ins[n].chunk];
        }
        n := n + 1;
      }
      assert ins[..n] == ins;
    }
  }

  lemma NoRead(v: View, ins: seq<Read>)
    requires ins == []
    ensures Written(v, ins) == [] && Final(v, ins) == v
  {
  }

  /** No non-empty start of the run, nor the run itself, reached the newest entry. */
  ghost predicate NotCaught(h: seq<Entry>, run: seq<Entry>) {
    !CaughtBefore(h, run) && !Caught(h, run)
  }

  /** Nothing that extends the run is dropped. */
  ghost predicate Over(h: seq<Entry>, run: seq<Entry>) {
    Caught(h, run)
  }

  lemma OverNoSkip(h: seq<Entry>, run: seq<Entry>, x: Entry)
    requires Over(h, run)
    ensures !Skipped(h, run + [x])
  {
    assert (run + [x])[..|run|] == run;
    assert CaughtBefore(h, run + [x]);
  }

  lemma NoneKept(h: seq<Entry>, longer: seq<Entry>, x: Entry, keep: bv32)
    requires 0 < |longer| && longer[|longer| - 1] == x
    requires keep == 0 && (x.len > 0 ==> Agrees(keep, h, longer))
    ensures !(x.len > 0 && Skipped(h, longer))
  {
    if x.len > 0 {
      forall s: nat ensures !OccursAt(h, longer, s) {
        if s < 32 {
          ZeroBit(s);
        }
      }
    }
  }

  lemma KeptSkips(h: seq<Entry>, run: seq<Entry>, x: Entry, keep: bv32, finished: bool)
    requires x.len == 0 ==> keep == 0
    requires x.len > 0 ==> Agrees(keep, h, run + [x])
    requires keep != 0 && Real(run) && NotCaught(h, run) && 0 < |h| <= 32
    requires exists s: nat :: OccursAt(h, run + [x], s)
    requires finished == Reached(h, run + [x])
    ensures x.len > 0 && Real(run + [x]) && Skipped(h, run + [x])
    ensures finished ==> Over(h, run + [x])
    ensures !finished ==> NotCaught(h, run + [x])
  {
    var longer := run + [x];
    forall k | 0 < k < |longer| ensures !Caught(h, longer[..k]) {
      assert longer[..k] == run[..k];
      assert k == |run| ==> run[..k] == run;
    }
    if Caught(h, longer) {
      var t: nat := |h| - |longer|;
      assert t < |h| && OccursAt(h, longer, t) && t + |longer| >= |h|;
    }
  }
}
