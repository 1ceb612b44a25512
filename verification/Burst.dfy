/**
 One fast-channel-change burst (src/dipifccret/fcc/burst.c): paced sending from a
 pinned position of the channel cache. Ticks are split at their loads of shared
 state, so that cache appends, rate cuts, stop requests and channel reuse may
 fall anywhere inside a tick, also between a test and the send it guards. Doubles
 are reals.
 */
module Burst {
  import opened Wrappers
  import opened RapCache

  const MAX_PAYLOAD := 1472.0

  // The channel as a burst sees it: the log of its current generation.
  datatype Channel = Channel(log: seq<Entry>, cap: nat, generation: nat)

  // Where an iteration of the sending loop is: about to test the loop condition and `done`, to
  // compare generations, to read the cache, to look for a stop number, to send.
  datatype Point = Head | Owner | Fetch | Got(e: Entry) | Send(e: Entry)

  // A tick that has earned its budget reads the end of the log next.
  datatype Tick = Outside | Opening | Inside(end: nat, budget: real, at: Point)

  // `pin`, `mine` and `sent` record history: where the burst started, the log of its own
  // generation, and what it sent. No step reads them.
  datatype Burst = Burst(generation: nat, cursor: nat, target: real, bytesSent: real, budget: real, lastElapsed: real,
                         done: bool, stop: Option<Seq16>, tick: Tick,
                         pin: nat, mine: seq<Entry>, sent: seq<Entry>)

  /** (int16_t)(a - b) < 0 on 16-bit sequence numbers. */
  predicate Before(a: Seq16, b: Seq16) { (a - b) % 65536 >= 32768 }

  // ---- burst_new ----

  function New(c: Channel, pin: nat, target: real): Burst {
    Burst(c.generation, pin, target, 0.0, 0.0, 0.0, false, None, Outside, pin, c.log, [])
  }

  // ---- burst_tick ----

  function Finished(b: Burst): Burst { b.(done := true, tick := Outside) }

  /** The bytes a rate in bits a second allows between two times. */
  function Earned(rate: real, since: real, now: real): real { rate * (now - since) / 8.0 }

  /** The tests before the budget is raised. */
  function Begin(c: Channel, b: Burst, elapsed: real, capMs: nat): Burst {
    if b.done then b.(tick := Outside)
    else if c.generation != b.generation then Finished(b)
    else if elapsed * 1000.0 >= capMs as real then Finished(b)
    else b.(budget := b.budget + Earned(b.target, b.lastElapsed, elapsed), lastElapsed := elapsed, tick := Opening)
  }

  /** The end of the log, and whether the writer lapped the cursor: an end behind the cursor, left by
      a reuse of the slot, wraps around to a lap too. */
  function Open(c: Channel, b: Burst): Burst {
    if |c.log| < b.cursor || |c.log| - b.cursor > c.cap then Finished(b)
    else b.(tick := Inside(|c.log|, b.budget, Head))
  }

  predicate Goes(b: Burst) { b.tick.Inside? && b.cursor < b.tick.end && b.bytesSent < b.tick.budget }

  /** After the loop: caught up means done. */
  function Leave(b: Burst): Burst {
    if b.tick.Inside? && b.cursor >= b.tick.end then Finished(b) else b.(tick := Outside)
  }

  function At(b: Burst, at: Point): Burst
    requires b.tick.Inside?
  {
    b.(tick := b.tick.(at := at))
  }

  function Sent(b: Burst, e: Entry): Burst {
    b.(bytesSent := b.bytesSent + |e.payload| as real, cursor := b.cursor + 1, sent := b.sent + [e])
  }

  function LoopStep(c: Channel, b: Burst): Burst
    requires b.tick.Inside?
  {
    match b.tick.at
    case Head => if !Goes(b) then Leave(b) else if b.done then b.(tick := Outside) else At(b, Owner)
    case Owner => if c.generation != b.generation then Finished(b) else At(b, Fetch)
    case Fetch =>
      var r := ReadAbs(c.log, c.cap, b.cursor);
      if r.None? then b.(tick := Outside) else At(b, Got(r.value))
    case Got(e) => if b.stop.Some? && !Before(e.seqno, b.stop.value) then Finished(b) else At(b, Send(e))
    case Send(e) => At(Sent(b, e), Head)
  }

  function TickStep(c: Channel, b: Burst): Burst {
    match b.tick
    case Outside => b
    case Opening => Open(c, b)
    case Inside(_, _, _) => LoopStep(c, b)
  }

  // ---- runs ----

  datatype Action =
    | Append(e: Entry)
    | Recycle
    | Halve
    | Stop(seqno: nat)
    | Terminate
    | StartTick(elapsed: real, capMs: nat)
    | Continue

  datatype World = World(c: Channel, b: Burst)

  function Act(w: World, a: Action): World {
    var World(c, b) := w;
    match a
    case Append(e) =>
      World(c.(log := c.log + [e]), if c.generation == b.generation then b.(mine := b.mine + [e]) else b)
    case Recycle => w.(c := Channel([], c.cap, c.generation + 1))
    case Halve => w.(b := b.(target := b.target * 0.5))
    case Stop(seqno) => w.(b := b.(stop := Some(seqno % 65536)))
    case Terminate => w.(b := b.(done := true))
    case StartTick(elapsed, capMs) =>
      if b.tick.Outside? && elapsed >= b.lastElapsed then w.(b := Begin(c, b, elapsed, capMs)) else w
    case Continue => w.(b := TickStep(c, b))
  }

  function Exec(w: World, acts: seq<Action>): World {
    if acts == [] then w else Act(Exec(w, acts[..|acts| - 1]), acts[|acts| - 1])
  }

  // ---- invariant ----

  function Bytes(sent: seq<Entry>): real {
    if sent == [] then 0.0 else Bytes(sent[..|sent| - 1]) + |sent[|sent| - 1].payload| as real
  }

  /** An iteration past its loop test. */
  predicate Iterating(b: Burst) { b.tick.Inside? && !b.tick.at.Head? }

  /** An iteration past its test of the generation. */
  predicate Reading(b: Burst) { Iterating(b) && !b.tick.at.Owner? }

  predicate AtFetch(b: Burst) { b.tick.Inside? && b.tick.at.Fetch? }

  /** The packet an iteration has read and not yet sent. */
  function Held(b: Burst): Option<Entry> {
    if b.tick.Inside? && (b.tick.at.Got? || b.tick.at.Send?) then Some(b.tick.at.e) else None
  }

  /** `rate` is the rate the burst was created with; cuts only lower it. */
  ghost predicate Inv(w: World, rate: real) {
    var World(c, b) := w;
    && b.generation <= c.generation && (c.generation == b.generation ==> b.mine == c.log)
    && b.cursor == b.pin + |b.sent|
    && b.bytesSent == Bytes(b.sent) && (b.bytesSent == 0.0 || b.bytesSent < b.budget + MAX_PAYLOAD)
    && 0.0 <= b.target <= rate && 0.0 <= b.lastElapsed && 0.0 <= b.budget <= Earned(rate, 0.0, b.lastElapsed)
    && (b.tick.Inside? ==> b.tick.budget <= b.budget)
    && (Iterating(b) ==> b.bytesSent < b.tick.budget)
  }

  lemma Accrue(budget: real, target: real, rate: real, last: real, now: real)
    requires 0.0 <= target <= rate && last <= now && budget <= Earned(rate, 0.0, last)
    ensures budget + Earned(target, last, now) <= Earned(rate, 0.0, now)
    ensures Earned(target, last, now) >= 0.0
  {
    assert target * (now - last) <= rate * (now - last);
    assert rate * (now - last) == rate * now - rate * last;
  }

  lemma BytesAppend(sent: seq<Entry>, e: Entry)
    ensures Bytes(sent + [e]) == Bytes(sent) + |e.payload| as real
  {
    assert (sent + [e])[..|sent|] == sent;
  }

  lemma ActInv(w: World, a: Action, rate: real)
    requires Inv(w, rate)
    ensures Inv(Act(w, a), rate)
  {
    hide Bytes, Before, ReadAbs, Earned;
    var World(c, b) := w;
    match a
    case StartTick(elapsed, capMs) =>
      if elapsed >= b.lastElapsed {
        Accrue(b.budget, b.target, rate, b.lastElapsed, elapsed);
      }
    case Continue =>
      if b.tick.Inside? && b.tick.at.Send? {
        BytesAppend(b.sent, b.tick.at.e);
      }
    case _ =>
  }

  lemma {:induction false} ExecInv(w: World, acts: seq<Action>, rate: real)
    requires Inv(w, rate)
    ensures Inv(Exec(w, acts), rate)
  {
    hide Inv, Act;
    if acts != [] {
      ExecInv(w, acts[..|acts| - 1], rate);
      ActInv(Exec(w, acts[..|acts| - 1]), acts[|acts| - 1], rate);
    }
  }

  lemma StartInv(c: Channel, pin: nat, target: real)
    requires pin <= |c.log| && target >= 0.0
    ensures Inv(World(c, New(c, pin, target)), target)
  {}

  // ---- what is sent ----

  /** The first n packets sent are the run of the burst's own log from the pinned position. */
  ghost predicate OwnRun(b: Burst, n: nat) {
    n <= |b.sent| && b.pin + n <= |b.mine| && b.sent[..n] == b.mine[b.pin..b.pin + n]
  }

  /** Everything sent or about to be sent is the burst's own. */
  ghost predicate Own(w: World) {
    var World(c, b) := w;
    && OwnRun(b, |b.sent|)
    && (AtFetch(b) ==> c.generation == b.generation)
    && (Held(b).Some? ==> b.cursor < |b.mine| && b.mine[b.cursor] == Held(b).value)
  }

  /** The slot was reused under a read: what that read finds may be the last packet, no more. */
  ghost predicate Strayed(w: World) {
    var World(c, b) := w;
    && c.generation > b.generation
    && (OwnRun(b, |b.sent|) || (!Reading(b) && |b.sent| > 0 && OwnRun(b, |b.sent| - 1)))
  }

  lemma SendsNext(b: Burst, e: Entry)
    requires OwnRun(b, |b.sent|) && b.cursor == b.pin + |b.sent|
    ensures OwnRun(Sent(b, e), |b.sent|)
    ensures b.cursor < |b.mine| && b.mine[b.cursor] == e ==> OwnRun(Sent(b, e), |b.sent| + 1)
  {
    assert (b.sent + [e])[..|b.sent|] == b.sent[..|b.sent|];
    if b.cursor < |b.mine| && b.mine[b.cursor] == e {
      assert b.mine[b.pin..b.pin + |b.sent| + 1] == b.mine[b.pin..b.pin + |b.sent|] + [e];
    }
  }

  lemma SameRun(b: Burst, b': Burst, n: nat)
    requires b'.pin == b.pin && b'.sent == b.sent && (b'.mine == b.mine || exists e :: b'.mine == b.mine + [e])
    ensures OwnRun(b, n) ==> OwnRun(b', n)
  {}

  lemma StepOwn(w: World)
    requires w.b.cursor == w.b.pin + |w.b.sent| && Own(w) && (w.c.generation == w.b.generation ==> w.b.mine == w.c.log)
    ensures Own(Act(w, Continue))
  {
    hide OwnRun, Before;
    var b, b' := w.b, Act(w, Continue).b;
    if b.tick.Inside? && b.tick.at.Send? {
      SendsNext(b, b.tick.at.e);
      SameRun(Sent(b, b.tick.at.e), b', |b.sent| + 1);
    } else {
      SameRun(b, b', |b.sent|);
    }
  }

  lemma ActOwn(w: World, a: Action, rate: real)
    requires Inv(w, rate) && Own(w)
    ensures a.Recycle? && AtFetch(w.b) ==> Strayed(Act(w, a))
    ensures !(a.Recycle? && AtFetch(w.b)) ==> Own(Act(w, a))
  {
    hide Bytes, Earned, OwnRun, TickStep;
    if a.Continue? {
      StepOwn(w);
    } else {
      SameRun(w.b, Act(w, a).b, |w.b.sent|);
    }
  }

  lemma ActStrayed(w: World, a: Action)
    requires w.b.cursor == w.b.pin + |w.b.sent| && Strayed(w)
    ensures Strayed(Act(w, a))
  {
    hide Before, Earned, ReadAbs, OwnRun;
    var b, b' := w.b, Act(w, a).b;
    if a.Continue? && b.tick.Inside? && b.tick.at.Send? {
      SendsNext(b, b.tick.at.e);
      SameRun(Sent(b, b.tick.at.e), b', |b.sent|);
    } else {
      SameRun(b, b', |b.sent|);
      if |b.sent| > 0 { SameRun(b, b', |b.sent| - 1); }
    }
  }

  /** No reuse of the slot falls between a test of the generation and the read it guards. */
  ghost predicate ReadsUndisturbed(w: World, acts: seq<Action>) {
    forall i :: 0 <= i < |acts| && acts[i].Recycle? ==> !AtFetch(Exec(w, acts[..i]).b)
  }

  lemma {:induction false} ExecOwn(w: World, acts: seq<Action>, rate: real)
    requires Inv(w, rate) && Own(w)
    ensures Own(Exec(w, acts)) || Strayed(Exec(w, acts))
    ensures ReadsUndisturbed(w, acts) ==> Own(Exec(w, acts))
  {
    hide Own, Strayed, Act, Bytes, Earned;
    if acts != [] {
      var front, a := acts[..|acts| - 1], acts[|acts| - 1];
      ExecOwn(w, front, rate);
      ExecInv(w, front, rate);
      if Own(Exec(w, front)) {
        ActOwn(Exec(w, front), a, rate);
      } else {
        ActStrayed(Exec(w, front), a);
      }
      if ReadsUndisturbed(w, acts) {
        forall i | 0 <= i < |front| && front[i].Recycle? ensures !AtFetch(Exec(w, front[..i]).b) {
          assert acts[i] == front[i] && acts[..i] == front[..i];
        }
        assert acts[..|acts| - 1] == front;
      }
    }
  }

  lemma StartOwn(c: Channel, pin: nat, target: real)
    requires pin <= |c.log|
    ensures Own(World(c, New(c, pin, target)))
  {}

  /** A burst whose reads are undisturbed sends exactly the contiguous run of its own log from the
      pinned position: nothing skipped, nothing repeated, whatever else happened in between. */
  lemma SendsContiguousRun(c: Channel, pin: nat, target: real, acts: seq<Action>)
    requires pin <= |c.log| && target >= 0.0
    requires ReadsUndisturbed(World(c, New(c, pin, target)), acts)
    ensures var b := Exec(World(c, New(c, pin, target)), acts).b;
            && pin + |b.sent| <= |b.mine| && b.sent == b.mine[pin..pin + |b.sent|] && b.cursor == pin + |b.sent|
  {
    hide Exec, Act;
    StartInv(c, pin, target);
    StartOwn(c, pin, target);
    ExecInv(World(c, New(c, pin, target)), acts, target);
    ExecOwn(World(c, New(c, pin, target)), acts, target);
    PinFixed(World(c, New(c, pin, target)), acts);
  }

  /** Over every run all packets but the last are that run; the last is one of another channel only
      if the slot was reused. */
  lemma AtMostOneStray(c: Channel, pin: nat, target: real, acts: seq<Action>)
    requires pin <= |c.log| && target >= 0.0
    ensures var w := Exec(World(c, New(c, pin, target)), acts);
            || OwnRun(w.b, |w.b.sent|)
            || (w.c.generation > w.b.generation && |w.b.sent| > 0 && OwnRun(w.b, |w.b.sent| - 1) && !Reading(w.b))
  {
    hide Exec, Act, OwnRun;
    StartInv(c, pin, target);
    StartOwn(c, pin, target);
    ExecOwn(World(c, New(c, pin, target)), acts, target);
  }

  // ---- a disturbed read strays ----

  /** A packet of somebody else that the burst would send. */
  function Foreign(b: Burst): Entry {
    Entry(if b.stop.Some? then (b.stop.value + 65535) % 65536 else 0,
          if b.cursor < |b.mine| then b.mine[b.cursor].timestamp + 1 else 0, 0, [])
  }

  lemma {:induction false} AppendsRun(w: World, e: Entry, n: nat) returns (acts: seq<Action>)
    requires w.c.generation > w.b.generation && w.c.log == []
    ensures Exec(w, acts) == w.(c := w.c.(log := seq(n, i => e)))
  {
    hide Exec;
    if n == 0 {
      acts := [];
      ExecNone(w);
      assert seq(n, i => e) == [];
    } else {
      acts := AppendsRun(w, e, n - 1);
      ExecAppend(w, acts, Append(e));
      acts := acts + [Append(e)];
      assert seq(n - 1, i => e) + [e] == seq(n, i => e);
    }
  }

  lemma ExecNone(w: World)
    ensures Exec(w, []) == w
  {}

  /** From every state at a read, a reuse of the slot there can make the burst send a packet that is
      not its own. */
  lemma DisturbedReadStrays(w: World, rate: real) returns (acts: seq<Action>)
    requires Inv(w, rate) && AtFetch(w.b) && w.c.cap > 0
    ensures var b := Exec(Act(w, Recycle), acts).b;
            !OwnRun(b, |b.sent|) && b.sent == w.b.sent + [Foreign(w.b)]
  {
    hide Exec;
    var w1 := Act(w, Recycle);
    var e := Foreign(w.b);
    acts := AppendsRun(w1, e, w.b.cursor + 1);
    var w2 := Exec(w1, acts);
    assert ReadAbs(w2.c.log, w2.c.cap, w2.b.cursor) == Some(e);
    ExecAppend(w1, acts, Continue);
    acts := acts + [Continue];
    StopAfter(w.b);
    ExecAppend(w1, acts, Continue);
    acts := acts + [Continue];
    ExecAppend(w1, acts, Continue);
    acts := acts + [Continue];
    var b := Exec(w1, acts).b;
    NotOwn(b, |w.b.sent|);
  }

  lemma NotOwn(b: Burst, n: nat)
    requires |b.sent| == n + 1 && (b.pin + n < |b.mine| ==> b.mine[b.pin + n] != b.sent[n])
    ensures !OwnRun(b, n + 1)
  {
    assert b.sent[..n + 1][n] == b.sent[n];
  }

  lemma StopAfter(b: Burst)
    ensures b.stop.Some? ==> Before(Foreign(b).seqno, b.stop.value)
  {}

  /** Such states are reached by every burst that has something to send. */
  lemma ReadIsReached(c: Channel, pin: nat, target: real) returns (acts: seq<Action>)
    requires pin < |c.log| && |c.log| - pin <= c.cap && target > 0.0
    ensures AtFetch(Exec(World(c, New(c, pin, target)), acts).b)
  {
    hide Exec;
    var w := World(c, New(c, pin, target));
    ExecNone(w);
    acts := [];
    ExecAppend(w, acts, StartTick(1.0, 2000));
    acts := acts + [StartTick(1.0, 2000)];
    assert Earned(target, 0.0, 1.0) > 0.0;
    ExecAppend(w, acts, Continue);
    acts := acts + [Continue];
    ExecAppend(w, acts, Continue);
    acts := acts + [Continue];
    ExecAppend(w, acts, Continue);
    acts := acts + [Continue];
  }

  // ---- the budget ----

  // The budget, read off the actions: every tick that is not turned away at once earns the current
  // rate, halved by each cut so far, for the time since the last such tick.

  function RateAfter(rate: real, acts: seq<Action>): real {
    if acts == [] then rate
    else
      var r := RateAfter(rate, acts[..|acts| - 1]);
      if acts[|acts| - 1].Halve? then r / 2.0 else r
  }

  /** The tick of a burst that is not done, in time, and still has its channel. */
  predicate Earns(w: World, a: Action) {
    && a.StartTick? && w.b.tick.Outside? && a.elapsed >= w.b.lastElapsed
    && !w.b.done && w.c.generation == w.b.generation && a.elapsed * 1000.0 < a.capMs as real
  }

  /** When the last earning tick was. */
  function Clock(w: World, acts: seq<Action>): real {
    if acts == [] then w.b.lastElapsed
    else
      var front, a := acts[..|acts| - 1], acts[|acts| - 1];
      if Earns(Exec(w, front), a) then a.elapsed else Clock(w, front)
  }

  function Accrued(w: World, acts: seq<Action>): real {
    if acts == [] then 0.0
    else
      var front, a := acts[..|acts| - 1], acts[|acts| - 1];
      Accrued(w, front)
      + if Earns(Exec(w, front), a) then Earned(RateAfter(w.b.target, front), Clock(w, front), a.elapsed) else 0.0
  }

  lemma {:induction false} BudgetIsAccrued(w: World, acts: seq<Action>)
    ensures var b := Exec(w, acts).b;
            b.target == RateAfter(w.b.target, acts) && b.lastElapsed == Clock(w, acts)
              && b.budget == w.b.budget + Accrued(w, acts)
  {
    if acts != [] {
      BudgetIsAccrued(w, acts[..|acts| - 1]);
      OneAccrues(Exec(w, acts[..|acts| - 1]), acts[|acts| - 1]);
    }
  }

  lemma OneAccrues(w: World, a: Action)
    ensures var b := Act(w, a).b;
            && b.target == (if a.Halve? then w.b.target / 2.0 else w.b.target)
            && b.lastElapsed == (if Earns(w, a) then a.elapsed else w.b.lastElapsed)
            && b.budget == w.b.budget + (if Earns(w, a) then Earned(w.b.target, w.b.lastElapsed, a.elapsed) else 0.0)
  {
    hide Before, ReadAbs;
  }

  /** It sends less than its ticks have earned at the rates then in force, plus one packet. */
  lemma SendsWithinBudget(c: Channel, pin: nat, target: real, acts: seq<Action>)
    requires pin <= |c.log| && target >= 0.0
    ensures var w := World(c, New(c, pin, target));
            var b := Exec(w, acts).b;
            b.sent == [] || Bytes(b.sent) < Accrued(w, acts) + MAX_PAYLOAD
  {
    hide Accrued, RateAfter, Clock;
    StartInv(c, pin, target);
    ExecInv(World(c, New(c, pin, target)), acts, target);
    BudgetIsAccrued(World(c, New(c, pin, target)), acts);
  }

  /** That is at most the initial rate for all the time. */
  lemma AccruedBound(c: Channel, pin: nat, target: real, acts: seq<Action>)
    requires pin <= |c.log| && target >= 0.0
    ensures var w := World(c, New(c, pin, target));
            Accrued(w, acts) <= Earned(target, 0.0, Clock(w, acts))
  {
    hide Accrued, RateAfter, Clock;
    StartInv(c, pin, target);
    ExecInv(World(c, New(c, pin, target)), acts, target);
    BudgetIsAccrued(World(c, New(c, pin, target)), acts);
  }

  /** From any point on, what is earned is bounded by the rate of that point. */
  lemma {:induction false} AccruedFrom(w: World, acts: seq<Action>)
    requires w.b.target >= 0.0
    ensures Accrued(w, acts) <= Earned(w.b.target, w.b.lastElapsed, Clock(w, acts))
    ensures 0.0 <= RateAfter(w.b.target, acts) <= w.b.target && Clock(w, acts) >= w.b.lastElapsed
  {
    hide Exec, Earned;
    if acts == [] {
      NoTimeEarns(w.b.target, w.b.lastElapsed);
    } else {
      var front, a := acts[..|acts| - 1], acts[|acts| - 1];
      AccruedFrom(w, front);
      BudgetIsAccrued(w, front);
      if Earns(Exec(w, front), a) {
        EarnsLess(w.b.target, RateAfter(w.b.target, front), w.b.lastElapsed, Clock(w, front), a.elapsed);
      }
    }
  }

  lemma NoTimeEarns(r: real, x: real)
    ensures Earned(r, x, x) == 0.0
  {
  }

  lemma EarnsLess(r0: real, r: real, x: real, y: real, z: real)
    requires r <= r0 && y <= z
    ensures Earned(r0, x, y) + Earned(r, y, z) <= Earned(r0, x, z)
  {
    assert r * (z - y) <= r0 * (z - y);
    assert r0 * (y - x) + r0 * (z - y) == r0 * (z - x);
  }

  // ---- stopping ----

  lemma {:induction false} PinFixed(w: World, acts: seq<Action>)
    ensures Exec(w, acts).b.pin == w.b.pin
  {
    hide Before;
    if acts != [] {
      PinFixed(w, acts[..|acts| - 1]);
    }
  }

  /** What is sent stays sent. */
  ghost predicate Extends(s: seq<Entry>, t: seq<Entry>) { |s| <= |t| && t[..|s|] == s }

  /** The packet e goes out whatever comes in between. */
  ghost predicate Committed(b: Burst, e: Entry) { b.tick.Inside? && b.tick.at == Send(e) }

  /** After a stop request, and until another one, nothing at or past the requested sequence
      number is sent but a packet that had already passed the test. */
  lemma {:induction false} StopClips(w: World, acts: seq<Action>, q: Seq16)
    requires w.b.stop == Some(q)
    requires forall i :: 0 <= i < |acts| ==> !acts[i].Stop?
    ensures var b := Exec(w, acts).b;
            && b.stop == Some(q) && Extends(w.b.sent, b.sent)
            && (forall i :: |w.b.sent| <= i < |b.sent| ==>
                  Before(b.sent[i].seqno, q) || (i == |w.b.sent| && Committed(w.b, b.sent[i])))
            && (forall e :: Committed(b, e) ==>
                  Before(e.seqno, q) || (|b.sent| == |w.b.sent| && Committed(w.b, e)))
  {
    hide Before, ReadAbs;
    if acts != [] {
      StopClips(w, acts[..|acts| - 1], q);
    }
  }

  /** A packet past the test is sent by the next step, so the exception is real. */
  lemma CommittedIsSent(w: World, e: Entry)
    requires Committed(w.b, e)
    ensures Act(w, Continue).b.sent == w.b.sent + [e]
  {}

  /** Done is permanent; a done burst sends at most the packet of an iteration past its loop test. */
  lemma {:induction false} DoneIsPermanent(w: World, acts: seq<Action>)
    requires w.b.done
    ensures var b := Exec(w, acts).b;
            && b.done && Extends(w.b.sent, b.sent) && |b.sent| <= |w.b.sent| + 1
            && (!Iterating(w.b) ==> b.sent == w.b.sent)
            && (Iterating(b) ==> Iterating(w.b) && b.sent == w.b.sent)
  {
    hide Before, ReadAbs;
    if acts != [] {
      DoneIsPermanent(w, acts[..|acts| - 1]);
    }
  }

  /** Once the channel slot is reused for another generation, nothing more is sent from it, but for
      an iteration past its test of the generation: that sends at most one packet, and the one it
      holds if it has read one. */
  lemma {:induction false} RecycledSendsNothing(w: World, acts: seq<Action>)
    requires w.c.generation > w.b.generation
    ensures var World(c, b) := Exec(w, acts);
            && c.generation > b.generation && Extends(w.b.sent, b.sent) && |b.sent| <= |w.b.sent| + 1
            && (!Reading(w.b) ==> b.sent == w.b.sent)
            && (Held(w.b).Some? && b.sent != w.b.sent ==> b.sent == w.b.sent + [Held(w.b).value])
            && (Reading(b) ==> Reading(w.b) && b.sent == w.b.sent)
            && (Held(w.b).Some? && Reading(b) ==> Held(b) == Held(w.b))
  {
    hide Before, ReadAbs;
    if acts != [] {
      RecycledSendsNothing(w, acts[..|acts| - 1]);
    }
  }

  // ---- a whole tick ----

  predicate Looping(b: Burst) { Goes(b) && b.tick.at.Head? }

  /** One iteration of the sending loop without interference. */
  function Iterate(c: Channel, b: Burst): Burst {
    if b.done then b.(tick := Outside)
    else if c.generation != b.generation then Finished(b)
    else
      match ReadAbs(c.log, c.cap, b.cursor)
      case None => b.(tick := Outside)
      case Some(e) => if b.stop.Some? && !Before(e.seqno, b.stop.value) then Finished(b) else Sent(b, e)
  }

  /** The rest of an iteration, read by read. */
  function Rest(c: Channel, b: Burst): Burst
    decreases if !Iterating(b) then 0 else match b.tick.at case Owner => 4 case Fetch => 3 case Got(_) => 2 case _ => 1
  {
    if Iterating(b) then Rest(c, LoopStep(c, b)) else b
  }

  lemma IterateIsRest(c: Channel, b: Burst)
    requires Looping(b)
    ensures Rest(c, LoopStep(c, b)) == Iterate(c, b)
  {
    hide Before, ReadAbs;
    var b1 := LoopStep(c, b);
    if Iterating(b1) {
      var b2 := LoopStep(c, b1);
      if Iterating(b2) {
        var b3 := LoopStep(c, b2);
        assert Rest(c, b1) == Rest(c, b2) == Rest(c, b3);
        if Iterating(b3) {
          var b4 := LoopStep(c, b3);
          assert Rest(c, b3) == Rest(c, b4) == Iterate(c, b);
        }
      }
    }
  }

  lemma {:induction false} RestIsRun(w: World, acts: seq<Action>) returns (acts': seq<Action>)
    ensures Exec(w, acts') == Exec(w, acts).(b := Rest(Exec(w, acts).c, Exec(w, acts).b))
    decreases var b := Exec(w, acts).b;
              if !Iterating(b) then 0 else match b.tick.at case Owner => 4 case Fetch => 3 case Got(_) => 2 case _ => 1
  {
    hide Exec, Before, ReadAbs;
    acts' := acts;
    if Iterating(Exec(w, acts).b) {
      ExecAppend(w, acts, Continue);
      acts' := RestIsRun(w, acts + [Continue]);
    }
  }

  /** The sending loop run to its end without interference. */
  function RunTick(c: Channel, b: Burst): Burst
    decreases b.tick.Inside?, if b.tick.Inside? then b.tick.end - b.cursor else 0
  {
    if Looping(b) then RunTick(c, Iterate(c, b)) else Leave(b)
  }

  lemma RunTickUnfold(c: Channel, b: Burst)
    ensures RunTick(c, b) == if Looping(b) then RunTick(c, Iterate(c, b)) else Leave(b)
  {
    hide Iterate;
  }

  function Opened(c: Channel, b: Burst): Burst {
    if b.tick.Opening? then Open(c, b) else b
  }

  function WholeTick(c: Channel, b: Burst, elapsed: real, capMs: nat): Burst {
    RunTick(c, Opened(c, Begin(c, b, elapsed, capMs)))
  }

  lemma {:induction false} ExecAppend(w: World, acts: seq<Action>, a: Action)
    ensures Exec(w, acts + [a]) == Act(Exec(w, acts), a)
  {
    hide Act;
    assert (acts + [a])[..|acts|] == acts;
  }

  lemma {:induction false} RunTickIsRun(w: World, acts: seq<Action>) returns (acts': seq<Action>)
    requires var b := Exec(w, acts).b; b.tick.Inside? && b.tick.at.Head?
    ensures Exec(w, acts') == Exec(w, acts).(b := RunTick(Exec(w, acts).c, Exec(w, acts).b))
    decreases Exec(w, acts).b.tick.end - Exec(w, acts).b.cursor
  {
    hide Exec, Before, ReadAbs;
    var World(c, b) := Exec(w, acts);
    if Looping(b) {
      ExecAppend(w, acts, Continue);
      acts' := RestIsRun(w, acts + [Continue]);
      IterateIsRest(c, b);
      var b1 := Iterate(c, b);
      if b1.tick.Inside? {
        acts' := RunTickIsRun(w, acts');
      } else {
        assert RunTick(c, b1) == b1;
      }
    } else {
      ExecAppend(w, acts, Continue);
      acts' := acts + [Continue];
    }
  }

  /** A whole tick is one of the runs the results above speak about. */
  lemma WholeTickIsRun(w: World, elapsed: real, capMs: nat) returns (acts: seq<Action>)
    requires w.b.tick.Outside? && elapsed >= w.b.lastElapsed
    ensures Exec(w, acts) == w.(b := WholeTick(w.c, w.b, elapsed, capMs))
  {
    hide Exec, RunTick;
    ExecNone(w);
    ExecAppend(w, [], StartTick(elapsed, capMs));
    acts := [] + [StartTick(elapsed, capMs)];
    var b := Begin(w.c, w.b, elapsed, capMs);
    RunTickUnfold(w.c, Opened(w.c, b));
    if b.tick.Opening? {
      ExecAppend(w, acts, Continue);
      acts := acts + [Continue];
      if Open(w.c, b).tick.Inside? {
        acts := RunTickIsRun(w, acts);
      }
    }
  }

  /** A whole tick of a live burst stops only for a reason: it is done, or it has used up its
      budget. */
  lemma WholeTickUsesBudget(c: Channel, b: Burst, elapsed: real, capMs: nat)
    requires b.tick.Outside? && b.cursor <= |c.log|
    ensures var b' := WholeTick(c, b, elapsed, capMs); b'.tick.Outside? && (b'.done || b'.bytesSent >= b'.budget)
  {
    var b1 := Opened(c, Begin(c, b, elapsed, capMs));
    if b1.tick.Inside? {
      RunTickUsesBudget(c, b1);
    }
  }

  lemma {:induction false} RunTickUsesBudget(c: Channel, b: Burst)
    requires b.tick.Inside? && b.tick.end == |c.log| && b.tick.budget == b.budget && b.cursor <= |c.log|
    requires b.tick.at.Head? && |c.log| - b.cursor <= c.cap
    ensures var b' := RunTick(c, b); b'.tick.Outside? && (b'.done || b'.bytesSent >= b'.budget)
    decreases b.tick.end - b.cursor
  {
    hide Before;
    if Looping(b) {
      var b1 := Iterate(c, b);
      if b1.tick.Inside? {
        RunTickUsesBudget(c, b1);
      }
    }
  }

  // ---- the rate, in bits ----

  lemma EarnedBits(r: real, x: real, z: real)
    ensures 8.0 * Earned(r, x, z) == r * (z - x)
  {
  }

  predicate NoCut(acts: seq<Action>) { forall i :: 0 <= i < |acts| ==> !acts[i].Halve? }

  /** Eight times the bytes earned are the rate times the time, less what cuts took away. */
  lemma AccruedBits(w: World, acts: seq<Action>)
    requires w.b.target >= 0.0
    ensures 8.0 * Accrued(w, acts) <= w.b.target * (Clock(w, acts) - w.b.lastElapsed)
    ensures NoCut(acts) ==> 8.0 * Accrued(w, acts) == w.b.target * (Clock(w, acts) - w.b.lastElapsed)
  {
    hide Earned, Accrued, RateAfter, Clock;
    AccruedFrom(w, acts);
    EarnedBits(w.b.target, w.b.lastElapsed, Clock(w, acts));
    if NoCut(acts) { AccruedUncut(w, acts); }
  }

  lemma {:induction false} AccruedUncut(w: World, acts: seq<Action>)
    requires NoCut(acts)
    ensures RateAfter(w.b.target, acts) == w.b.target
    ensures 8.0 * Accrued(w, acts) == w.b.target * (Clock(w, acts) - w.b.lastElapsed)
  {
    hide Exec, Earned;
    if acts != [] {
      var front, a := acts[..|acts| - 1], acts[|acts| - 1];
      AccruedUncut(w, front);
      BudgetIsAccrued(w, front);
      if Earns(Exec(w, front), a) {
        EarnedBits(w.b.target, Clock(w, front), a.elapsed);
        TimesAdd(w.b.target, w.b.lastElapsed, Clock(w, front), a.elapsed);
      }
    }
  }

  lemma TimesAdd(r: real, x: real, y: real, z: real)
    ensures r * (y - x) + r * (z - y) == r * (z - x)
  {
  }

  /** Over every run: no more bits than the initial rate gives in the time, and one packet. */
  lemma SendsWithinRate(c: Channel, pin: nat, target: real, acts: seq<Action>)
    requires pin <= |c.log| && target >= 0.0
    ensures var w := World(c, New(c, pin, target)); var b := Exec(w, acts).b;
            b.sent == [] || 8.0 * Bytes(b.sent) < target * Clock(w, acts) + 8.0 * 1472.0
  {
    hide Accrued, RateAfter, Clock, Exec;
    SendsWithinBudget(c, pin, target, acts);
    AccruedBits(World(c, New(c, pin, target)), acts);
  }

  /** From any point on: no more than its unspent budget and the rate of that point give. */
  lemma SendsWithinRateFrom(w: World, acts: seq<Action>, rate: real)
    requires Inv(w, rate)
    ensures var b := Exec(w, acts).b;
            || Bytes(b.sent) == 0.0
            || 8.0 * Bytes(b.sent)
               < 8.0 * w.b.budget + w.b.target * (Clock(w, acts) - w.b.lastElapsed) + 8.0 * 1472.0
  {
    hide Accrued, RateAfter, Clock, Exec, Bytes;
    ExecInv(w, acts, rate);
    BudgetIsAccrued(w, acts);
    AccruedBits(w, acts);
  }

  lemma UpToNow(before: real, after: real, r: real, last: real, now: real)
    requires 8.0 * before == r * (last - 0.0) && 8.0 * after == 8.0 * before + r * (now - last)
    ensures 8.0 * after == r * now
  {
    TimesAdd(r, 0.0, last, now);
  }

  /** From below: without cuts an undisturbed tick that leaves the burst going has sent at least
      what the rate gives in the time so far. */
  lemma SendsTheRate(c: Channel, pin: nat, target: real, acts: seq<Action>, elapsed: real, capMs: nat)
    requires pin <= |c.log| && target >= 0.0 && NoCut(acts)
    requires var b := Exec(World(c, New(c, pin, target)), acts).b; b.tick.Outside? && elapsed >= b.lastElapsed
    ensures var World(c', b) := Exec(World(c, New(c, pin, target)), acts);
            var b' := WholeTick(c', b, elapsed, capMs);
            b'.bytesSent == Bytes(b'.sent) && (!b'.done ==> 8.0 * Bytes(b'.sent) >= target * elapsed)
  {
    hide Accrued, RateAfter, Clock, Exec, Bytes, WholeTick, Earned;
    var w := World(c, New(c, pin, target));
    var w1 := Exec(w, acts);
    StartInv(c, pin, target);
    StartOwn(c, pin, target);
    ExecInv(w, acts, target);
    ExecOwn(w, acts, target);
    BudgetIsAccrued(w, acts);
    AccruedUncut(w, acts);
    var more := WholeTickIsRun(w1, elapsed, capMs);
    ExecInv(w1, more, target);
    if !WholeTick(w1.c, w1.b, elapsed, capMs).done {
      TickGoesOn(w1.c, w1.b, elapsed, capMs);
      WholeTickUsesBudget(w1.c, w1.b, elapsed, capMs);
      UpToNow(w1.b.budget, WholeTick(w1.c, w1.b, elapsed, capMs).budget, target, w1.b.lastElapsed, elapsed);
    }
  }

  /** A tick that leaves the burst going has raised the budget by its rate for the time. */
  lemma TickGoesOn(c: Channel, b: Burst, elapsed: real, capMs: nat)
    requires b.tick.Outside? && !WholeTick(c, b, elapsed, capMs).done
    ensures c.generation == b.generation
    ensures 8.0 * WholeTick(c, b, elapsed, capMs).budget == 8.0 * b.budget + b.target * (elapsed - b.lastElapsed)
  {
    hide RunTick;
    var b1 := Opened(c, Begin(c, b, elapsed, capMs));
    RunTickUnfold(c, b1);
    RunTickKeeps(c, b1);
  }

  lemma {:induction false} RunTickKeeps(c: Channel, b: Burst)
    ensures RunTick(c, b).budget == b.budget && (b.done ==> RunTick(c, b).done)
    decreases b.tick.Inside?, if b.tick.Inside? then b.tick.end - b.cursor else 0
  {
    hide Before, ReadAbs;
    if Looping(b) {
      RunTickKeeps(c, Iterate(c, b));
    }
  }

  /** Sequence numbers count as before the next 32768 after them, and only before those. */
  lemma BeforeIs(a: Seq16, d: nat)
    requires d < 65536
    ensures Before(a, (a + d) % 65536) <==> 1 <= d <= 32768
  {
  }

  lemma EarnedIs(r: real, x: real, z: real, earned: real)
    requires earned == r * (z - x) / 8.0
    ensures earned == Earned(r, x, z)
  {
  }

  /** burst_t and burst_tick over a real cache. */
  class Sender {
    const cache: Cache
    const generation: nat
    var cursor: nat
    var target: real
    var bytesSent: real
    var budget: real
    var lastElapsed: real
    var done: bool
    var stop: Option<Seq16>
    ghost const pin: nat
    ghost var sent: seq<Entry>

    ghost function State(tick: Tick): Burst
      reads this, cache
    {
      Burst(generation, cursor, target, bytesSent, budget, lastElapsed, done, stop, tick, pin,
            Entries(cache.Cached()), sent)
    }

    ghost function Now(channelGeneration: nat): Channel
      reads cache
    {
      Channel(Entries(cache.Cached()), cache.entries.Length, channelGeneration)
    }

    /** burst_new: pinned to the start of the cached run. */
    constructor (cache: Cache, channelGeneration: nat, target: real)
      requires cache.Valid()
      ensures this.cache == cache
      ensures State(Outside) == New(Now(channelGeneration), WindowStart(cache.Cached(), cache.entries.Length), target)
    {
      var at := cache.Pin();
      this.cache, this.generation, this.cursor, this.target := cache, channelGeneration, at, target;
      this.bytesSent, this.budget, this.lastElapsed, this.done, this.stop := 0.0, 0.0, 0.0, false, None;
      this.pin, this.sent := at, [];
    }

    /** burst_terminate. */
    method Terminate(stopSeq: Option<nat>)
      modifies this
      ensures stopSeq.None? ==> State(Outside) == old(State(Outside)).(done := true)
      ensures stopSeq.Some? ==> State(Outside) == old(State(Outside)).(stop := Some(stopSeq.value % 65536))
    {
      if stopSeq.None? {
        done := true;
        return;
      }
      stop := Some(stopSeq.value % 65536);
    }

    method Tick(channelGeneration: nat, elapsed: real, capMs: nat) returns (isDone: bool)
      requires cache.Valid() && cursor <= |cache.Cached()|
      modifies this
      ensures State(Outside) == WholeTick(Now(channelGeneration), old(State(Outside)), elapsed, capMs)
      ensures isDone == done
    {
      hide Before, RunTick, Log, Cache.Valid, Earned;
      ghost var ch := Now(channelGeneration);
      ghost var begun := Opened(ch, Begin(ch, State(Outside), elapsed, capMs));
      RunTickUnfold(ch, begun);
      if done {
        return true;
      }
      if channelGeneration != generation {
        done := true;
        return true;
      }
      if elapsed * 1000.0 >= capMs as real {
        done := true;
        return true;
      }
      var earned := target * (elapsed - lastElapsed) / 8.0;
      EarnedIs(target, lastElapsed, elapsed, earned);
      budget := budget + earned;
      lastElapsed := elapsed;
      var end := cache.End();
      if end - cursor > cache.entries.Length {
        done := true;
        return true;
      }
      assert State(Inside(end, budget, Head)) == begun;
      isDone := SendLoop(channelGeneration, end, budget);
    }

    /** The loop of burst_tick. Its re-checks of `done` and of the generation cannot fail here,
        where nobody interferes; `Iterate` keeps them. */
    method SendLoop(channelGeneration: nat, end: nat, tickBudget: real) returns (isDone: bool)
      requires cache.Valid() && cursor <= end && !done && channelGeneration == generation
      modifies this
      ensures State(Outside) == RunTick(Now(channelGeneration), old(State(Inside(end, tickBudget, Head))))
      ensures isDone == done
    {
      hide RunTick, Log, Cache.Valid;
      ghost var ch := Now(channelGeneration);
      ghost var all := RunTick(ch, State(Inside(end, tickBudget, Head)));
      while cursor < end && bytesSent < tickBudget
        invariant Now(channelGeneration) == ch && cursor <= end && !done
        invariant RunTick(ch, State(Inside(end, tickBudget, Head))) == all
        decreases end - cursor
      {
        ghost var b := State(Inside(end, tickBudget, Head));
        RunTickUnfold(ch, b);
        RunTickUnfold(ch, Iterate(ch, b));
        var e := cache.GetAbs(cursor);
        if e.None? {
          return false;
        }
        if stop.Some? && (e.value.seqno - stop.value) % 65536 < 32768 {
          done := true;
          return true;
        }
        sent := sent + [e.value];
        bytesSent := bytesSent + |e.value.payload| as real;
        cursor := cursor + 1;
      }
      RunTickUnfold(ch, State(Inside(end, tickBudget, Head)));
      if cursor >= end {
        done := true;
      }
      isDone := done;
    }
  }
}
