/**
 The seqlock-guarded retransmission ring (src/dipifccret/channel/ring.c with
 src/lib/helper/seqlock.h): one writer stores a packet field by field and word by
 word while any number of readers copy slots out the same way. Every interleaving
 of the single atomic accesses is a run; a reader that reports a hit holds the
 fields of one single store of the sequence number it asked for.
 */
module RetRing {
  import opened Wrappers

  const MAX_PAYLOAD := 1472
  const PAYLOAD_WORDS := 184
  const READ_TRIES := 8

  type Byte = bv8
  type Word = w: seq<Byte> | |w| == 8 witness [0, 0, 0, 0, 0, 0, 0, 0]

  datatype Packet = Packet(seqno: nat, timestamp: nat, dscp: nat, payload: seq<Byte>)

  predicate Storable(p: Packet) { |p.payload| <= MAX_PAYLOAD }

  // ---- payload words ----

  function WordCount(len: nat): nat { if len > MAX_PAYLOAD then PAYLOAD_WORDS else (len + 7) / 8 }

  /** memset and memcpy into a word buffer: the last word is zero-padded. */
  function Pack(payload: seq<Byte>): (ws: seq<Word>)
    ensures |ws| == (|payload| + 7) / 8
  {
    seq((|payload| + 7) / 8, i requires 0 <= i < (|payload| + 7) / 8 =>
      seq(8, j requires 0 <= j < 8 => if 8 * i + j < |payload| then payload[8 * i + j] else 0))
  }

  function Unpack(ws: seq<Word>, len: nat): seq<Byte>
    requires len <= 8 * |ws|
  {
    seq(len, b requires 0 <= b < len => ws[b / 8][b % 8])
  }

  lemma UnpackPack(payload: seq<Byte>)
    ensures Unpack(Pack(payload), |payload|) == payload
    ensures forall b :: |payload| <= b < 8 * |Pack(payload)| ==> Pack(payload)[b / 8][b % 8] == 0
  {
    forall b | |payload| <= b < 8 * |Pack(payload)| ensures Pack(payload)[b / 8][b % 8] == 0 {
      assert 8 * (b / 8) + b % 8 == b;
    }
    forall b | 0 <= b < |payload| ensures Unpack(Pack(payload), |payload|)[b] == payload[b] {
      assert 8 * (b / 8) + b % 8 == b;
    }
  }

  // ---- state ----

  datatype Slot = Slot(gen: nat, seqno: nat, timestamp: nat, dscp: nat, words: seq<Word>, len: nat, valid: bool)

  // `step` counts the atomic stores of ret_ring_store done so far.
  datatype Writer = Resting | Storing(p: Packet, step: nat)

  datatype Copy = Copy(seqno: nat, timestamp: nat, dscp: nat, len: nat, words: seq<Word>, valid: bool)

  datatype Hit = Hit(timestamp: nat, dscp: nat, len: nat, words: seq<Word>)

  // `step` counts the atomic loads of the current channel_find attempt done so far.
  datatype Reader =
    | Waiting
    | LoadGen(q: nat, tries: nat)
    | Loading(q: nat, tries: nat, g: nat, step: nat, out: Copy)
    | Recheck(q: nat, tries: nat, g: nat, out: Copy)
    | Returned(q: nat, hit: Option<Hit>)

  // `log[i]` is the history of completed stores into slot i; no step reads it.
  datatype State = State(slots: seq<Slot>, writer: Writer, readers: seq<Reader>, log: seq<seq<Packet>>)

  datatype Action =
    | Store(p: Packet)
    | WriterStep
    | Find(r: nat, q: nat)
    | ReaderStep(r: nat)

  function Blank(): Slot { Slot(0, 0, 0, 0, seq(PAYLOAD_WORDS, _ => [0, 0, 0, 0, 0, 0, 0, 0]), 0, false) }

  function Start(ringSize: nat, readers: nat): State {
    State(seq(ringSize, _ => Blank()), Resting, seq(readers, _ => Waiting), seq(ringSize, _ => []))
  }

  predicate Shape(s: State) {
    && |s.slots| > 0 && |s.log| == |s.slots|
    && (forall i :: 0 <= i < |s.slots| ==> |s.slots[i].words| == PAYLOAD_WORDS)
    && (s.writer.Storing? ==> Storable(s.writer.p))
  }

  function At(s: State, seqno: nat): (i: nat)
    requires |s.slots| > 0
    ensures i < |s.slots|
  {
    seqno % |s.slots|
  }

  // ---- one atomic store of ret_ring_store ----

  function StoreStep(sl: Slot, p: Packet, step: nat): Slot
    requires Storable(p) && |sl.words| == PAYLOAD_WORDS && step <= 6 + |Pack(p.payload)|
  {
    var ws := Pack(p.payload);
    if step == 0 then sl.(gen := sl.gen + 1)
    else if step == 1 then sl.(seqno := p.seqno)
    else if step == 2 then sl.(timestamp := p.timestamp)
    else if step == 3 then sl.(dscp := p.dscp)
    else if step < 4 + |ws| then sl.(words := sl.words[step - 4 := ws[step - 4]])
    else if step == 4 + |ws| then sl.(len := |p.payload|)
    else if step == 5 + |ws| then sl.(valid := true)
    else sl.(gen := sl.gen + 1)
  }

  predicate WriterReady(s: State) {
    s.writer.Storing? ==> s.writer.step <= 6 + |Pack(s.writer.p.payload)|
  }

  function WriteNext(s: State): State
    requires Shape(s) && WriterReady(s) && s.writer.Storing?
  {
    var p, step, i := s.writer.p, s.writer.step, At(s, s.writer.p.seqno);
    var s' := s.(slots := s.slots[i := StoreStep(s.slots[i], p, step)]);
    if step == 6 + |Pack(p.payload)| then s'.(writer := Resting, log := s.log[i := s.log[i] + [p]])
    else s'.(writer := Storing(p, step + 1))
  }

  // ---- one atomic load of channel_find ----

  function LoadStep(sl: Slot, rd: Reader): Reader
    requires rd.Loading? && |sl.words| == PAYLOAD_WORDS
  {
    var out := rd.out;
    match rd.step
    case 0 => rd.(step := 1, out := out.(seqno := sl.seqno))
    case 1 => rd.(step := 2, out := out.(timestamp := sl.timestamp))
    case 2 => rd.(step := 3, out := out.(dscp := sl.dscp))
    case 3 => rd.(step := 4, out := out.(len := sl.len))
    case _ =>
      if |out.words| < WordCount(out.len) && |out.words| < PAYLOAD_WORDS
      then rd.(step := rd.step + 1, out := out.(words := out.words + [sl.words[|out.words|]]))
      else Recheck(rd.q, rd.tries, rd.g, out.(valid := sl.valid))
  }

  function ReadNext(sl: Slot, rd: Reader): Reader
    requires |sl.words| == PAYLOAD_WORDS
  {
    match rd
    case Waiting => rd
    case LoadGen(q, tries) =>
      if tries >= READ_TRIES then Returned(q, None)
      else if sl.gen % 2 == 1 then LoadGen(q, tries + 1)
      else Loading(q, tries, sl.gen, 0, Copy(0, 0, 0, 0, [], false))
    case Loading(_, _, _, _, _) => LoadStep(sl, rd)
    case Recheck(q, tries, g, out) =>
      if sl.gen != g then LoadGen(q, tries + 1)
      else if out.valid && out.seqno == q then Returned(q, Some(Hit(out.timestamp, out.dscp, out.len, out.words)))
      else Returned(q, None)
    case Returned(_, _) => Waiting
  }

  function Act(s: State, a: Action): State
    requires Shape(s) && WriterReady(s)
  {
    match a
    case Store(p) => if s.writer.Resting? && Storable(p) then s.(writer := Storing(p, 0)) else s
    case WriterStep => if s.writer.Storing? then WriteNext(s) else s
    case Find(r, q) => if r < |s.readers| && s.readers[r].Waiting? then s.(readers := s.readers[r := LoadGen(q, 0)])
      else s
    case ReaderStep(r) =>
      if r < |s.readers| && !s.readers[r].Waiting?
      then s.(readers := s.readers[r := ReadNext(s.slots[At(s, s.readers[r].q)], s.readers[r])]) else s
  }

  function Exec(ringSize: nat, readers: nat, acts: seq<Action>): (s: State)
    requires ringSize > 0
    ensures Shape(s) && WriterReady(s) && |s.slots| == ringSize
  {
    if acts == [] then Start(ringSize, readers)
    else Act(Exec(ringSize, readers, acts[..|acts| - 1]), acts[|acts| - 1])
  }

  // ---- invariant ----

  /** The slot shows exactly the packet, as far as its length says. */
  ghost predicate Shows(sl: Slot, p: Packet) {
    && Storable(p) && |sl.words| == PAYLOAD_WORDS
    && sl.seqno == p.seqno && sl.timestamp == p.timestamp && sl.dscp == p.dscp
    && sl.len == |p.payload| && sl.words[..|Pack(p.payload)|] == Pack(p.payload) && sl.valid
  }

  /** A half-written slot shows the fields stored so far. */
  ghost predicate Partly(sl: Slot, p: Packet, step: nat) {
    var ws := Pack(p.payload);
    && Storable(p) && |sl.words| == PAYLOAD_WORDS && step <= 6 + |ws|
    && (step > 1 ==> sl.seqno == p.seqno) && (step > 2 ==> sl.timestamp == p.timestamp)
       && (step > 3 ==> sl.dscp == p.dscp)
    && (forall i :: 0 <= i < |ws| && i < step - 4 ==> sl.words[i] == ws[i])
    && (step > 4 + |ws| ==> sl.len == |p.payload|) && (step > 5 + |ws| ==> sl.valid)
  }

  ghost predicate SlotOk(sl: Slot, log: seq<Packet>, writing: bool, p: Packet, step: nat) {
    if writing && step > 0 then sl.gen == 2 * |log| + 1 && Partly(sl, p, step)
    else sl.gen == 2 * |log| && if log == [] then !sl.valid else Shows(sl, log[|log| - 1])
  }

  ghost predicate SlotsOk(s: State)
    requires Shape(s)
  {
    forall i {:trigger s.slots[i]} :: 0 <= i < |s.slots| ==>
      if s.writer.Storing? && At(s, s.writer.p.seqno) == i
      then SlotOk(s.slots[i], s.log[i], true, s.writer.p, s.writer.step)
      else SlotOk(s.slots[i], s.log[i], false, Packet(0, 0, 0, []), 0)
  }

  /** What a copy in progress is worth, provided the slot's generation has not moved. */
  ghost predicate CopyOk(sl: Slot, step: nat, out: Copy) {
    && (step > 0 ==> out.seqno == sl.seqno) && (step > 1 ==> out.timestamp == sl.timestamp)
    && (step > 2 ==> out.dscp == sl.dscp) && (step > 3 ==> out.len == sl.len)
    && |out.words| == (if step > 4 then step - 4 else 0) && |out.words| <= |sl.words|
       && out.words == sl.words[..|out.words|]
  }

  ghost predicate ReaderOk(s: State, rd: Reader)
    requires Shape(s)
  {
    match rd
    case Loading(q, _, g, step, out) =>
      var sl := s.slots[At(s, q)];
      g % 2 == 0 && g <= sl.gen
        && (sl.gen == g ==> CopyOk(sl, step, out) && |out.words| <= if step > 4 then WordCount(sl.len) else 0)
    case Recheck(q, _, g, out) =>
      var sl := s.slots[At(s, q)];
      g % 2 == 0 && g <= sl.gen &&
      (sl.gen == g ==>
       CopyOk(sl, 4 + |out.words|, out) && out.valid == sl.valid
       && |out.words| == WordCount(sl.len))
    case Returned(q, Some(hit)) => exists p :: p in s.log[At(s, q)] && HitOf(q, hit, p)
    case _ => true
  }

  /** The hit is exactly the packet: sequence number, timestamp, DSCP, length and payload bytes. */
  ghost predicate HitOf(q: nat, hit: Hit, p: Packet) {
    && p.seqno == q && hit.timestamp == p.timestamp && hit.dscp == p.dscp && hit.len == |p.payload|
    && |hit.words| == (|p.payload| + 7) / 8 && Unpack(hit.words, hit.len) == p.payload
  }

  ghost predicate Inv(s: State) {
    && Shape(s) && WriterReady(s) && SlotsOk(s)
    && forall r {:trigger s.readers[r]} :: 0 <= r < |s.readers| ==> ReaderOk(s, s.readers[r])
  }

  lemma StoreStepOk(sl: Slot, p: Packet, step: nat, log: seq<Packet>)
    requires Storable(p) && |sl.words| == PAYLOAD_WORDS && step <= 6 + |Pack(p.payload)|
    requires SlotOk(sl, log, true, p, step)
    ensures var sl' := StoreStep(sl, p, step);
            && |sl'.words| == PAYLOAD_WORDS && sl'.gen >= sl.gen
            && (sl.gen % 2 == 0 ==> sl'.gen > sl.gen)
            && if step == 6 + |Pack(p.payload)| then SlotOk(sl', log + [p], false, p, 0)
               else SlotOk(sl', log, true, p, step + 1)
  {
    hide Pack;
    var sl' := StoreStep(sl, p, step);
    if step == 6 + |Pack(p.payload)| {
      assert sl.words[..|Pack(p.payload)|] == Pack(p.payload);
    }
  }

  /** A writer step never leaves a reader's generation in place under changed fields. */
  lemma WriterKeepsReader(s: State, rd: Reader)
    requires Inv(s) && s.writer.Storing? && ReaderOk(s, rd)
    ensures ReaderOk(WriteNext(s), rd)
  {
    hide SlotOk, Pack, CopyOk, HitOf, StoreStep, WordCount;
    var i := At(s, s.writer.p.seqno);
    assert SlotOk(s.slots[i], s.log[i], true, s.writer.p, s.writer.step);
    StoreStepOk(s.slots[i], s.writer.p, s.writer.step, s.log[i]);
    if rd.Returned? && rd.hit.Some? {
      var p :| p in s.log[At(s, rd.q)] && HitOf(rd.q, rd.hit.value, p);
      assert p in WriteNext(s).log[At(s, rd.q)];
    }
  }

  lemma WriterInv(s: State)
    requires Inv(s) && s.writer.Storing?
    ensures Inv(WriteNext(s))
  {
    var s', i := WriteNext(s), At(s, s.writer.p.seqno);
    assert SlotOk(s.slots[i], s.log[i], true, s.writer.p, s.writer.step);
    StoreStepOk(s.slots[i], s.writer.p, s.writer.step, s.log[i]);
    hide ReaderOk, Pack, StoreStep;
    forall r | 0 <= r < |s'.readers| ensures ReaderOk(s', s'.readers[r]) {
      WriterKeepsReader(s, s.readers[r]);
    }
    WriterSlots(s);
  }

  lemma WriterSlots(s: State)
    requires Inv(s) && s.writer.Storing?
    ensures Shape(WriteNext(s)) && SlotsOk(WriteNext(s))
  {
    var s', i := WriteNext(s), At(s, s.writer.p.seqno);
    assert SlotOk(s.slots[i], s.log[i], true, s.writer.p, s.writer.step);
    StoreStepOk(s.slots[i], s.writer.p, s.writer.step, s.log[i]);
    hide ReaderOk, Pack, StoreStep, Shows, Partly;
    forall k | 0 <= k < |s'.slots|
      ensures if s'.writer.Storing? && At(s', s'.writer.p.seqno) == k
              then SlotOk(s'.slots[k], s'.log[k], true, s'.writer.p, s'.writer.step)
              else SlotOk(s'.slots[k], s'.log[k], false, Packet(0, 0, 0, []), 0)
    {
      if k != i {
        assert s'.slots[k] == s.slots[k];
      }
    }
  }

  /** A stable even generation means the slot shows its newest completed store. */
  lemma StableSlot(s: State, i: nat)
    requires Inv(s) && i < |s.slots| && s.slots[i].gen % 2 == 0 && s.slots[i].valid
    ensures |s.log[i]| > 0 && Shows(s.slots[i], s.log[i][|s.log[i]| - 1])
  {
    hide Shows, Partly, ReaderOk;
    assert if s.writer.Storing? && At(s, s.writer.p.seqno) == i
           then SlotOk(s.slots[i], s.log[i], true, s.writer.p, s.writer.step)
           else SlotOk(s.slots[i], s.log[i], false, Packet(0, 0, 0, []), 0);
  }

  lemma HitShown(sl: Slot, q: nat, out: Copy, p: Packet)
    requires Shows(sl, p) && CopyOk(sl, 4 + |out.words|, out) && out.seqno == q
    requires |out.words| == WordCount(sl.len)
    ensures HitOf(q, Hit(out.timestamp, out.dscp, out.len, out.words), p)
  {
    var n := |Pack(p.payload)|;
    UnpackPack(p.payload);
    assert out.words[..n] == Pack(p.payload);
    forall b | 0 <= b < |p.payload| ensures out.words[b / 8][b % 8] == p.payload[b] {
      assert Unpack(Pack(p.payload), |p.payload|)[b] == p.payload[b];
      assert out.words[b / 8] == Pack(p.payload)[b / 8];
    }
  }

  lemma ReadNextOk(s: State, rd: Reader)
    requires Inv(s) && ReaderOk(s, rd) && !rd.Waiting?
    ensures ReaderOk(s, ReadNext(s.slots[At(s, rd.q)], rd))
  {
    var i := At(s, rd.q);
    var sl := s.slots[i];
    assert |sl.words| == PAYLOAD_WORDS;
    hide SlotsOk;
    if rd.Recheck? && sl.gen == rd.g && rd.out.valid && rd.out.seqno == rd.q {
      StableSlot(s, i);
      var p := s.log[i][|s.log[i]| - 1];
      HitShown(sl, rd.q, rd.out, p);
      assert p in s.log[i];
    }
  }

  lemma ActInv(s: State, a: Action)
    requires Inv(s)
    ensures Inv(Act(s, a))
  {
    match a
    case WriterStep => if s.writer.Storing? { WriterInv(s); }
    case ReaderStep(r) =>
      if r < |s.readers| && !s.readers[r].Waiting? {
        ReadNextOk(s, s.readers[r]);
        SameSlots(s, Act(s, a), r);
      }
    case Find(r, q) =>
      if r < |s.readers| && s.readers[r].Waiting? { SameSlots(s, Act(s, a), r); }
    case Store(p) => if s.writer.Resting? && Storable(p) { BeginStore(s, p); }
  }

  lemma SameSlots(s: State, s': State, r: nat)
    requires Inv(s) && r < |s.readers| == |s'.readers| && s' == s.(readers := s.readers[r := s'.readers[r]])
    requires ReaderOk(s, s'.readers[r])
    ensures Inv(s')
  {
    hide SlotOk, CopyOk, HitOf, WordCount, Pack;
    forall u | 0 <= u < |s'.readers| ensures ReaderOk(s', s'.readers[u]) {
      assert ReaderOk(s, s'.readers[u]);
    }
  }

  lemma BeginStore(s: State, p: Packet)
    requires Inv(s) && s.writer.Resting? && Storable(p)
    ensures Inv(s.(writer := Storing(p, 0)))
  {
    hide Shows, Partly, CopyOk, HitOf, WordCount, Pack;
    var s' := s.(writer := Storing(p, 0));
    forall u | 0 <= u < |s'.readers| ensures ReaderOk(s', s'.readers[u]) {
      assert ReaderOk(s, s.readers[u]);
    }
  }

  lemma {:induction false} ExecInv(ringSize: nat, readers: nat, acts: seq<Action>)
    requires ringSize > 0
    ensures Inv(Exec(ringSize, readers, acts))
  {
    hide Inv, Act;
    if acts == [] {
      StartInv(ringSize, readers);
    } else {
      ExecInv(ringSize, readers, acts[..|acts| - 1]);
      ActInv(Exec(ringSize, readers, acts[..|acts| - 1]), acts[|acts| - 1]);
    }
  }

  lemma StartInv(ringSize: nat, readers: nat)
    requires ringSize > 0
    ensures Inv(Start(ringSize, readers))
  {}

  /** The log holds nothing but packets handed to ret_ring_store. */
  lemma {:induction false} LogIsStores(ringSize: nat, readers: nat, acts: seq<Action>)
    requires ringSize > 0
    ensures var s := Exec(ringSize, readers, acts);
            && (s.writer.Storing? ==> Store(s.writer.p) in acts)
            && forall i, p :: 0 <= i < |s.log| && p in s.log[i] ==> Store(p) in acts
  {
    hide StoreStep, ReadNext;
    if acts != [] {
      var before, a := acts[..|acts| - 1], acts[|acts| - 1];
      LogIsStores(ringSize, readers, before);
      assert acts == before + [a];
    }
  }

  /** No torn reads: in every run, a hit for `q` is exactly one completed store of `q`. */
  lemma NoTornReads(ringSize: nat, readers: nat, acts: seq<Action>, r: nat) returns (p: Packet)
    requires ringSize > 0
    requires var s := Exec(ringSize, readers, acts); r < |s.readers| && s.readers[r].Returned? && s.readers[r].hit.Some?
    ensures var s := Exec(ringSize, readers, acts); var rd := s.readers[r];
            Store(p) in acts && p in s.log[At(s, rd.q)] && HitOf(rd.q, rd.hit.value, p)
  {
    LogIsStores(ringSize, readers, acts);
    var s := Exec(ringSize, readers, acts);
    ExecInv(ringSize, readers, acts);
    assert ReaderOk(s, s.readers[r]);
    p :| p in s.log[At(s, s.readers[r].q)] && HitOf(s.readers[r].q, s.readers[r].hit.value, p);
  }

  // ---- what a find answers ----

  /** No store to the slot is under way. */
  predicate Still(s: State, i: nat)
    requires Shape(s)
  {
    s.writer.Storing? && At(s, s.writer.p.seqno) == i ==> s.writer.step == 0
  }

  /** Reader `r` alone does `n` steps. */
  ghost function Alone(s: State, r: nat, n: nat): (s': State)
    requires Inv(s)
    decreases n
  {
    if n == 0 then s
    else
      ActInv(s, ReaderStep(r));
      Alone(Act(s, ReaderStep(r)), r, n - 1)
  }

  /** The right answer: the packet of the slot's newest completed store, if it has the number. */
  ghost predicate Answers(s: State, q: nat, hit: Option<Hit>)
    requires Shape(s)
  {
    var log := s.log[At(s, q)];
    if log != [] && log[|log| - 1].seqno == q then hit.Some? && HitOf(q, hit.value, log[|log| - 1]) else hit.None?
  }

  ghost predicate AnswersAlone(s: State, r: nat, q: nat, n: nat)
    requires Inv(s) && r < |s.readers|
  {
    exists hit :: Answers(s, q, hit) && Alone(s, r, n) == s.(readers := s.readers[r := Returned(q, hit)])
  }

  /** One step before the end. */
  lemma StepBefore(s: State, r: nat, q: nat, n: nat)
    requires Inv(s) && r < |s.readers| && !s.readers[r].Waiting?
    requires Inv(Act(s, ReaderStep(r))) && AnswersAlone(Act(s, ReaderStep(r)), r, q, n)
    ensures AnswersAlone(s, r, q, n + 1)
  {
    hide SlotsOk, ReaderOk, ReadNext, HitOf;
    var s1 := Act(s, ReaderStep(r));
    var hit :| Answers(s1, q, hit) && Alone(s1, r, n) == s1.(readers := s1.readers[r := Returned(q, hit)]);
    assert s1.readers[r := Returned(q, hit)] == s.readers[r := Returned(q, hit)];
    assert Answers(s, q, hit);
  }

  lemma StillEven(s: State, i: nat)
    requires Inv(s) && i < |s.slots| && Still(s, i)
    ensures SlotOk(s.slots[i], s.log[i], false, Packet(0, 0, 0, []), 0)
    ensures s.slots[i].gen % 2 == 0
  {
    hide Shows, Partly, ReaderOk;
  }

  lemma FromRecheck(s: State, r: nat) returns (n: nat)
    requires Inv(s) && r < |s.readers| && s.readers[r].Recheck?
    requires var rd := s.readers[r]; Still(s, At(s, rd.q)) && s.slots[At(s, rd.q)].gen == rd.g
    ensures AnswersAlone(s, r, s.readers[r].q, n)
  {
    n := 1;
    var rd := s.readers[r];
    var i := At(s, rd.q);
    var sl := s.slots[i];
    StillEven(s, i);
    assert ReaderOk(s, rd);
    if sl.valid && rd.out.seqno == rd.q {
      HitShown(sl, rd.q, rd.out, s.log[i][|s.log[i]| - 1]);
    }
    hide SlotsOk, SlotOk, CopyOk, HitOf;
    ActInv(s, ReaderStep(r));
    var s1 := Act(s, ReaderStep(r));
    assert Alone(s, r, 1) == Alone(s1, r, 0) == s1;
  }

  lemma {:induction false} FromLoading(s: State, r: nat) returns (n: nat)
    requires Inv(s) && r < |s.readers| && s.readers[r].Loading?
    requires var rd := s.readers[r]; Still(s, At(s, rd.q)) && s.slots[At(s, rd.q)].gen == rd.g
    ensures AnswersAlone(s, r, s.readers[r].q, n)
    decreases 5 + PAYLOAD_WORDS - s.readers[r].step
  {
    hide SlotsOk, HitOf, Still, Alone, AnswersAlone;
    var rd := s.readers[r];
    assert ReaderOk(s, rd);
    ActInv(s, ReaderStep(r));
    var s1 := Act(s, ReaderStep(r));
    StillStays(s, r);
    if s1.readers[r].Loading? {
      n := FromLoading(s1, r);
    } else {
      n := FromRecheck(s1, r);
    }
    StepBefore(s, r, rd.q, n);
    n := n + 1;
  }

  lemma StillStays(s: State, r: nat)
    requires Inv(s) && r < |s.readers|
    ensures var s1 := Act(s, ReaderStep(r));
            Shape(s1) && s1.slots == s.slots && (forall i: nat :: i < |s.slots| && Still(s, i) ==> Still(s1, i))
  {
    hide SlotsOk, ReaderOk, ReadNext;
  }

  /**
   * A find at the start of one of its eight attempts, with no store to its slot under way, answers
   * with the newest packet of the slot if that has the number asked for, and with nothing otherwise.
   */
  lemma FindAnswers(s: State, r: nat, q: nat, tries: nat) returns (n: nat)
    requires Inv(s) && r < |s.readers| && s.readers[r] == LoadGen(q, tries) && tries < 8 && Still(s, At(s, q))
    ensures AnswersAlone(s, r, q, n)
  {
    hide SlotsOk, HitOf, Still, Alone, AnswersAlone;
    StillEven(s, At(s, q));
    ActInv(s, ReaderStep(r));
    StillStays(s, r);
    n := FromLoading(Act(s, ReaderStep(r)), r);
    StepBefore(s, r, q, n);
    n := n + 1;
  }

  /** After eight attempts under stores a find gives up. */
  lemma GivesUp(s: State, r: nat, q: nat, tries: nat)
    requires Inv(s) && r < |s.readers| && s.readers[r] == LoadGen(q, tries)
    ensures Act(s, ReaderStep(r)).readers[r] == Returned(q, None) <==> tries >= 8
  {
  }

  ghost function Steps(r: nat, n: nat): (acts: seq<Action>)
    ensures |acts| == n
  {
    seq(n, _ => ReaderStep(r))
  }

  lemma {:induction false} AloneIsRun(ringSize: nat, readers: nat, acts: seq<Action>, r: nat, n: nat)
    requires ringSize > 0 && Inv(Exec(ringSize, readers, acts))
    ensures Exec(ringSize, readers, acts + Steps(r, n)) == Alone(Exec(ringSize, readers, acts), r, n)
    decreases n
  {
    hide Inv, Act;
    if n == 0 {
      assert acts + Steps(r, 0) == acts;
    } else {
      var next := acts + [ReaderStep(r)];
      assert next[..|acts|] == acts;
      ActInv(Exec(ringSize, readers, acts), ReaderStep(r));
      AloneIsRun(ringSize, readers, next, r, n - 1);
      assert acts + Steps(r, n) == next + Steps(r, n - 1);
    }
  }

  /**
   * After every run in which no store to the slot of `q` is under way, a find by a waiting reader
   * that is not interfered with returns the packet numbered `q` if it is the newest completed store of
   * that slot - all its fields and bytes - and nothing otherwise. Nothing else changes.
   */
  lemma FindReturns(ringSize: nat, readers: nat, acts: seq<Action>, r: nat, q: nat) returns (n: nat, hit: Option<Hit>)
    requires ringSize > 0
    requires var s := Exec(ringSize, readers, acts);
             r < |s.readers| && s.readers[r].Waiting? && Still(s, At(s, q))
    ensures var s := Exec(ringSize, readers, acts);
            Exec(ringSize, readers, acts + [Find(r, q)] + Steps(r, n))
              == s.(readers := s.readers[r := Returned(q, hit)])
    ensures var s := Exec(ringSize, readers, acts); var log := s.log[At(s, q)];
            if log != [] && log[|log| - 1].seqno == q then hit.Some? && HitOf(q, hit.value, log[|log| - 1])
            else hit.None?
  {
    hide Inv, Exec, SlotsOk, HitOf;
    var s := Exec(ringSize, readers, acts);
    ExecInv(ringSize, readers, acts);
    ActInv(s, Find(r, q));
    var s1 := Act(s, Find(r, q));
    ExecStep(ringSize, readers, acts, Find(r, q));
    n := FindAnswers(s1, r, q, 0);
    AloneIsRun(ringSize, readers, acts + [Find(r, q)], r, n);
    hit :| Answers(s1, q, hit) && Alone(s1, r, n) == s1.(readers := s1.readers[r := Returned(q, hit)]);
    assert s1.readers[r := Returned(q, hit)] == s.readers[r := Returned(q, hit)];
  }

  lemma ExecStep(ringSize: nat, readers: nat, acts: seq<Action>, a: Action)
    requires ringSize > 0
    ensures Exec(ringSize, readers, acts + [a]) == Act(Exec(ringSize, readers, acts), a)
  {
    hide Act;
    assert (acts + [a])[..|acts|] == acts;
  }

  ghost function Writes(n: nat): (acts: seq<Action>)
    ensures |acts| == n
  {
    seq(n, _ => WriterStep)
  }

  lemma {:induction false} StoreEnds(ringSize: nat, readers: nat, acts: seq<Action>) returns (n: nat)
    requires ringSize > 0 && Exec(ringSize, readers, acts).writer.Storing?
    ensures var s, s' := Exec(ringSize, readers, acts), Exec(ringSize, readers, acts + Writes(n));
            var p := s.writer.p; var i := At(s, p.seqno);
            && s'.writer.Resting? && s'.readers == s.readers && s'.log == s.log[i := s.log[i] + [p]]
    decreases var w := Exec(ringSize, readers, acts).writer; 6 + |Pack(w.p.payload)| - w.step
  {
    hide Exec, StoreStep, Pack;
    var s := Exec(ringSize, readers, acts);
    var next := acts + [WriterStep];
    ExecStep(ringSize, readers, acts, WriterStep);
    if s.writer.step == 6 + |Pack(s.writer.p.payload)| {
      n := 1;
      assert acts + Writes(1) == next;
    } else {
      n := StoreEnds(ringSize, readers, next);
      assert next + Writes(n) == acts + Writes(n + 1);
      n := n + 1;
    }
  }

  /** What is stored is found: the store ends, and a find of its number then returns the packet. */
  lemma StoreThenFind(ringSize: nat, readers: nat, acts: seq<Action>, p: Packet, r: nat)
    returns (m: nat, n: nat, hit: Hit)
    requires ringSize > 0 && |p.payload| <= 1472
    requires var s := Exec(ringSize, readers, acts); s.writer.Resting? && r < |s.readers| && s.readers[r].Waiting?
    ensures var s := Exec(ringSize, readers, acts + [Store(p)] + Writes(m) + [Find(r, p.seqno)] + Steps(r, n));
            r < |s.readers| && s.readers[r] == Returned(p.seqno, Some(hit)) && HitOf(p.seqno, hit, p)
  {
    hide Exec, HitOf;
    ExecStep(ringSize, readers, acts, Store(p));
    m := StoreEnds(ringSize, readers, acts + [Store(p)]);
    var found;
    n, found := FindReturns(ringSize, readers, acts + [Store(p)] + Writes(m), r, p.seqno);
    hit := found.value;
  }
}
