/**
 Who holds a burst (src/dipifccret/fcc/burst_table.c, burst.c and the pacer loop
 of src/dipifccret/run/pacer.c): runs of request threads and the pacer over one
 session table. A burst's reference count always equals the number of its
 holders, so it is freed exactly once and never while anyone can reach it.
 */
module BurstRefs {
  import opened Wrappers
  import opened BurstTable

  // `fresh`: just created, not yet started; `held`: pacer snapshots and references handed over by
  // a replaced or cleared slot. Both record who owes a burst_release; `freed` records burst_free
  // calls in order.
  datatype World = World(t: Table, refs: map<nat, nat>, next: nat, fresh_: set<nat>, held: multiset<nat>,
                         freed: seq<nat>)

  datatype Action =
    | Create                                             // burst_new
    | Start(a: Addr, fd: int, b: nat)                    // burst_table_start
    | Nack(a: Addr, threshold: nat)                      // burst_table_note_nack
    | Acquire(i: nat)                                    // burst_table_acquire
    | Release(i: nat, b: nat, clear: bool)               // burst_table_release
    | Drop(b: nat)                                       // burst_release

  function Down(w: World, b: nat): World
    requires b in w.refs
  {
    if w.refs[b] == 1 then w.(refs := w.refs - {b}, freed := w.freed + [b])
    else w.(refs := w.refs[b := if w.refs[b] > 0 then w.refs[b] - 1 else 0])
  }

  function Act(pick: Addr -> nat, w: World, a: Action): World
    requires TableOk(w.t, pick)
  {
    match a
    case Create =>
      w.(refs := w.refs[w.next := 1], next := w.next + 1, fresh_ := w.fresh_ + {w.next})
    case Start(addr, fd, b) =>
      if b !in w.fresh_ then w
      else
        (match BurstTable.Start(w.t, pick, addr, fd, b)
         case Updated(t, old_, _) => w.(t := t, fresh_ := w.fresh_ - {b}, held := w.held + multiset{old_})
         case Claimed(t) => w.(t := t, fresh_ := w.fresh_ - {b})
         case Full(t) => w.(t := t))
    case Nack(addr, threshold) =>
      w.(t := NoteNack(w.t, pick, addr, threshold))
    case Acquire(i) =>
      if i < |w.t.slots| && w.t.slots[i].InUse? && w.t.slots[i].b in w.refs
      then w.(refs := w.refs[w.t.slots[i].b := w.refs[w.t.slots[i].b] + 1], held := w.held + multiset{w.t.slots[i].b})
      else w
    case Release(i, b, clear) =>
      if b in w.held && i < |w.t.slots| && w.t.slots[i].InUse? && w.t.slots[i].b == b && clear
      then w.(t := Clear(w.t, pick, i), held := w.held + multiset{b})
      else w
    case Drop(b) =>
      if b in w.held && b in w.refs then Down(w.(held := w.held - multiset{b}), b)
      else if b in w.fresh_ && b in w.refs then Down(w.(fresh_ := w.fresh_ - {b}), b)
      else w
  }

  // ---- holders ----

  predicate InSlot(t: Table, b: nat) {
    exists i :: 0 <= i < |t.slots| && t.slots[i].InUse? && t.slots[i].b == b
  }

  function Holders(w: World, b: nat): nat {
    (if InSlot(w.t, b) then 1 else 0) + (if b in w.fresh_ then 1 else 0) + w.held[b]
  }

  ghost predicate OneSlotEach(t: Table) {
    forall i, j ::
      && 0 <= i < |t.slots| && 0 <= j < |t.slots|
      && t.slots[i].InUse? && t.slots[j].InUse? && t.slots[i].b == t.slots[j].b
      ==> i == j
  }

  /** Counts are holders, counted bursts are alive, and the rest of the ids ever handed out was
      freed exactly once. */
  ghost predicate RefsOk(w: World) {
    && (forall b: nat :: b in w.fresh_ ==> !InSlot(w.t, b) && w.held[b] == 0)
    && (forall b: nat :: b in w.refs ==> w.refs[b] == Holders(w, b) && w.refs[b] > 0 && b < w.next)
    && (forall b: nat :: b !in w.refs ==> Holders(w, b) == 0)
  }

  ghost predicate FreedOk(refs: map<nat, nat>, next: nat, freed: seq<nat>) {
    && (forall x, y :: 0 <= x < y < |freed| ==> freed[x] != freed[y])
    && (forall b: nat :: b < next ==> (b in freed <==> b !in refs))
    && (forall x :: 0 <= x < |freed| ==> freed[x] < next)
  }

  ghost predicate Inv(pick: Addr -> nat, w: World) {
    TableOk(w.t, pick) && OneSlotEach(w.t) && RefsOk(w) && FreedOk(w.refs, w.next, w.freed)
  }

  lemma CreateInv(pick: Addr -> nat, w: World)
    requires Inv(pick, w)
    ensures Inv(pick, Act(pick, w, Create))
  {
    hide TableOk, InSlot, OneSlotEach;
    assert w.next !in w.refs && Holders(w, w.next) == 0;
  }

  lemma AcquireInv(pick: Addr -> nat, w: World, i: nat)
    requires Inv(pick, w)
    ensures Inv(pick, Act(pick, w, Acquire(i)))
  {
    if i < |w.t.slots| && w.t.slots[i].InUse? && w.t.slots[i].b in w.refs {
      var b := w.t.slots[i].b;
      assert InSlot(w.t, b);
      hide TableOk, InSlot, OneSlotEach;
    }
  }

  /** Giving one holding back keeps the books, whichever kind of holding it was. */
  lemma DownOk(w: World, w1: World, b: nat)
    requires RefsOk(w) && FreedOk(w.refs, w.next, w.freed) && b in w.refs
    requires w1.t == w.t && w1.refs == w.refs && w1.next == w.next && w1.freed == w.freed
    requires Holders(w1, b) == Holders(w, b) - 1 && forall c: nat :: c != b ==> Holders(w1, c) == Holders(w, c)
    requires forall c: nat :: c in w1.fresh_ ==> c in w.fresh_ && w1.held[c] <= w.held[c]
    ensures RefsOk(Down(w1, b)) && FreedOk(Down(w1, b).refs, w.next, Down(w1, b).freed)
  {
    hide InSlot, Holders;
    var w' := Down(w1, b);
    assert forall c: nat :: Holders(w', c) == Holders(w1, c) by { SameHolders(w1, w'); }
    if w.refs[b] == 1 {
      assert b !in w.freed;
    }
  }

  lemma SameHolders(w: World, w': World)
    requires w'.t == w.t && w'.fresh_ == w.fresh_ && w'.held == w.held
    ensures forall c: nat :: Holders(w', c) == Holders(w, c)
  {}

  lemma DropInv(pick: Addr -> nat, w: World, b: nat)
    requires Inv(pick, w)
    ensures Inv(pick, Act(pick, w, Drop(b)))
  {
    hide TableOk, InSlot, OneSlotEach, FreedOk, Down;
    DownTable(w, b);
    if b in w.held && b in w.refs {
      DownTable(w.(held := w.held - multiset{b}), b);
      DownOk(w, w.(held := w.held - multiset{b}), b);
    } else if b in w.fresh_ && b in w.refs {
      DownTable(w.(fresh_ := w.fresh_ - {b}), b);
      DownOk(w, w.(fresh_ := w.fresh_ - {b}), b);
    }
  }

  lemma DownTable(w: World, b: nat)
    ensures b in w.refs ==> Down(w, b).t == w.t && Down(w, b).next == w.next
  {}

  lemma SlotSwap(t: Table, i: nat, s: Slot)
    requires i < |t.slots| && OneSlotEach(t) && t.slots[i].InUse? && s.InUse? && !InSlot(t, s.b)
    ensures var t' := t.(slots := t.slots[i := s]);
            && OneSlotEach(t') && InSlot(t', s.b) && !InSlot(t', t.slots[i].b)
            && forall b: nat :: b != s.b && b != t.slots[i].b ==> InSlot(t', b) == InSlot(t, b)
  {
    var t' := t.(slots := t.slots[i := s]);
    assert t'.slots[i].b == s.b;
    forall b: nat | b != s.b && b != t.slots[i].b ensures InSlot(t', b) == InSlot(t, b) {
      if j :| 0 <= j < |t.slots| && t.slots[j].InUse? && t.slots[j].b == b {
        assert t'.slots[j].b == b;
      }
    }
  }

  lemma SlotFill(t: Table, t': Table, i: nat, s: Slot)
    requires i < |t.slots| && OneSlotEach(t) && t.slots[i].Vacant? && s.InUse? && !InSlot(t, s.b)
             && t'.slots == t.slots[i := s]
    ensures OneSlotEach(t') && InSlot(t', s.b)
    ensures forall b: nat :: b != s.b ==> InSlot(t', b) == InSlot(t, b)
  {
    assert t'.slots[i].b == s.b;
    forall b: nat | b != s.b ensures InSlot(t', b) == InSlot(t, b) {
      if j :| 0 <= j < |t.slots| && t.slots[j].InUse? && t.slots[j].b == b {
        assert t'.slots[j].b == b;
      }
    }
  }

  lemma SlotEmpty(t: Table, t': Table, i: nat)
    requires i < |t.slots| && OneSlotEach(t) && t.slots[i].InUse? && t'.slots == t.slots[i := Vacant]
    ensures OneSlotEach(t') && !InSlot(t', t.slots[i].b)
    ensures forall b: nat :: b != t.slots[i].b ==> InSlot(t', b) == InSlot(t, b)
  {
    forall b: nat | b != t.slots[i].b ensures InSlot(t', b) == InSlot(t, b) {
      if j :| 0 <= j < |t.slots| && t.slots[j].InUse? && t.slots[j].b == b {
        assert t'.slots[j].b == b;
      }
    }
  }

  lemma ReplaceRefs(w: World, t: Table, b: nat, old_: nat)
    requires RefsOk(w) && b in w.fresh_ && InSlot(w.t, old_) && InSlot(t, b) && !InSlot(t, old_)
    requires forall c: nat :: c != b && c != old_ ==> InSlot(t, c) == InSlot(w.t, c)
    ensures RefsOk(w.(t := t, fresh_ := w.fresh_ - {b}, held := w.held + multiset{old_}))
  {
    hide InSlot;
    var w' := w.(t := t, fresh_ := w.fresh_ - {b}, held := w.held + multiset{old_});
    assert forall c: nat :: Holders(w', c) == Holders(w, c);
    hide Holders;
  }

  lemma FillRefs(w: World, t: Table, b: nat)
    requires RefsOk(w) && b in w.fresh_ && InSlot(t, b)
    requires forall c: nat :: c != b ==> InSlot(t, c) == InSlot(w.t, c)
    ensures RefsOk(w.(t := t, fresh_ := w.fresh_ - {b}))
  {
    hide InSlot;
    var w' := w.(t := t, fresh_ := w.fresh_ - {b});
    assert forall c: nat :: Holders(w', c) == Holders(w, c);
    hide Holders;
  }

  lemma StartInv(pick: Addr -> nat, w: World, a: Addr, fd: int, b: nat)
    requires Inv(pick, w)
    ensures Inv(pick, Act(pick, w, Action.Start(a, fd, b)))
  {
    if b in w.fresh_ {
      var k := pick(a) % |w.t.stripes|;
      HitIsLive(w.t, pick, a);
      assert StripeOk(w.t, k, pick);
      if FindValid(w.t, k, a).0.Some? {
        ReplaceInv(pick, w, a, fd, b);
      } else if w.t.stripes[k].free != [] {
        FillInv(pick, w, a, fd, b);
      }
    }
  }

  lemma ReplaceInv(pick: Addr -> nat, w: World, a: Addr, fd: int, b: nat)
    requires Inv(pick, w) && b in w.fresh_ && FindValid(w.t, pick(a) % |w.t.stripes|, a).0.Some?
    ensures Inv(pick, Act(pick, w, Action.Start(a, fd, b)))
  {
    HitIsLive(w.t, pick, a);
    var i := FindValid(w.t, pick(a) % |w.t.stripes|, a).0.value;
    var s := w.t.slots[i];
    var s' := InUse(s.addr, fd, b, (s.msn + 1) % 256, 0, false);
    UpdateOk(w.t, pick, i, s');
    SlotSwap(w.t, i, s');
    assert InSlot(w.t, s.b);
    hide TableOk, InSlot, OneSlotEach, StripeOk, RefsOk, FreedOk;
    ReplaceRefs(w, w.t.(slots := w.t.slots[i := s']), b, s.b);
  }

  lemma FillInv(pick: Addr -> nat, w: World, a: Addr, fd: int, b: nat)
    requires Inv(pick, w) && b in w.fresh_ && FindValid(w.t, pick(a) % |w.t.stripes|, a).0.None?
    requires w.t.stripes[pick(a) % |w.t.stripes|].free != []
    ensures Inv(pick, Act(pick, w, Action.Start(a, fd, b)))
  {
    var k := pick(a) % |w.t.stripes|;
    HitIsLive(w.t, pick, a);
    assert StripeOk(w.t, k, pick);
    ClaimOk(w.t, pick, a, fd, b);
    var i := w.t.stripes[k].free[|w.t.stripes[k].free| - 1];
    SlotFill(w.t, Claim(w.t, k, a, fd, b), i, InUse(a, fd, b, 0, 0, false));
    hide TableOk, InSlot, OneSlotEach, StripeOk, RefsOk, FreedOk;
    FillRefs(w, Claim(w.t, k, a, fd, b), b);
  }

  lemma NackInv(pick: Addr -> nat, w: World, a: Addr, threshold: nat)
    requires Inv(pick, w)
    ensures Inv(pick, Act(pick, w, Nack(a, threshold)))
  {
    var k := pick(a) % |w.t.stripes|;
    HitIsLive(w.t, pick, a);
    assert StripeOk(w.t, k, pick);
    var hit := FindValid(w.t, k, a).0;
    if hit.Some? {
      var s' := NackSlot(w.t.slots[hit.value], threshold);
      UpdateOk(w.t, pick, hit.value, s');
      SameBursts(w.t, hit.value, s');
      hide TableOk, InSlot, OneSlotEach, StripeOk;
    }
  }

  lemma SameBursts(t: Table, i: nat, s: Slot)
    requires i < |t.slots| && OneSlotEach(t) && t.slots[i].InUse? && s.InUse? && s.b == t.slots[i].b
    ensures OneSlotEach(t.(slots := t.slots[i := s]))
            && forall b: nat :: InSlot(t.(slots := t.slots[i := s]), b) == InSlot(t, b)
  {
    var t' := t.(slots := t.slots[i := s]);
    forall b: nat ensures InSlot(t', b) == InSlot(t, b) {
      if j :| 0 <= j < |t.slots| && t.slots[j].InUse? && t.slots[j].b == b {
        assert t'.slots[j].b == b;
      }
    }
  }

  lemma ReleaseInv(pick: Addr -> nat, w: World, i: nat, b: nat, clear: bool)
    requires Inv(pick, w)
    ensures Inv(pick, Act(pick, w, Release(i, b, clear)))
  {
    if b in w.held && i < |w.t.slots| && w.t.slots[i].InUse? && w.t.slots[i].b == b && clear {
      ClearOk(w.t, pick, i);
      SlotEmpty(w.t, Clear(w.t, pick, i), i);
      assert InSlot(w.t, b);
      hide TableOk, InSlot, OneSlotEach;
    }
  }

  lemma ActInv(pick: Addr -> nat, w: World, a: Action)
    requires TableOk(w.t, pick) && Inv(pick, w)
    ensures Inv(pick, Act(pick, w, a))
  {
    hide Inv, Act;
    match a
    case Create => CreateInv(pick, w);
    case Start(addr, fd, b) => StartInv(pick, w, addr, fd, b);
    case Nack(addr, threshold) => NackInv(pick, w, addr, threshold);
    case Acquire(i) => AcquireInv(pick, w, i);
    case Release(i, b, clear) => ReleaseInv(pick, w, i, b, clear);
    case Drop(b) => DropInv(pick, w, b);
  }

  // ---- runs ----

  ghost predicate Initial(pick: Addr -> nat, w: World) {
    && TableOk(w.t, pick) && (forall i :: 0 <= i < |w.t.slots| ==> w.t.slots[i].Vacant?)
    && w.refs == map[] && w.next == 0 && w.fresh_ == {} && w.held == multiset{} && w.freed == []
  }

  ghost function Exec(pick: Addr -> nat, w: World, acts: seq<Action>): (w': World)
    requires Initial(pick, w)
    ensures Inv(pick, w')
  {
    if acts == [] then w
    else
      var before := Exec(pick, w, acts[..|acts| - 1]);
      ActInv(pick, before, acts[|acts| - 1]);
      Act(pick, before, acts[|acts| - 1])
  }

  /** Reference counts are exact in every run: a burst is alive exactly while somebody holds it. */
  lemma CountsAreHolders(pick: Addr -> nat, w0: World, acts: seq<Action>, b: nat)
    requires Initial(pick, w0)
    ensures var w := Exec(pick, w0, acts);
            && (b in w.refs <==> Holders(w, b) > 0)
            && (b in w.refs ==> w.refs[b] == Holders(w, b))
  {
    var w := Exec(pick, w0, acts);
    hide Exec;
  }

  /** Every created burst is either alive or freed, never both, and never freed twice; what sits
      in a slot or is held by a thread has not been freed. */
  lemma FreedOnce(pick: Addr -> nat, w0: World, acts: seq<Action>, b: nat)
    requires Initial(pick, w0) && b < Exec(pick, w0, acts).next
    ensures var w := Exec(pick, w0, acts);
            && multiset(w.freed)[b] == (if b in w.refs then 0 else 1)
            && (InSlot(w.t, b) || b in w.held || b in w.fresh_ ==> b !in w.freed)
  {
    var w := Exec(pick, w0, acts);
    hide Exec;
    assert Holders(w, b) > 0 ==> b in w.refs;
    OnceInSeq(w.freed, b);
  }

  lemma {:induction false} OnceInSeq(s: seq<nat>, b: nat)
    requires forall x, y :: 0 <= x < y < |s| ==> s[x] != s[y]
    ensures multiset(s)[b] == if b in s then 1 else 0
  {
    if s != [] {
      var n := |s| - 1;
      assert s == s[..n] + [s[n]];
      OnceInSeq(s[..n], b);
    }
  }

  /** What each call does to the holders of a burst, in every state of every run. */
  lemma AcquireAdds(pick: Addr -> nat, w0: World, acts: seq<Action>, i: nat)
    requires Initial(pick, w0)
    requires var w := Exec(pick, w0, acts); i < |w.t.slots| && w.t.slots[i].InUse?
    ensures var w := Exec(pick, w0, acts); var b, w' := w.t.slots[i].b, Act(pick, w, Acquire(i));
            && b in w.refs && b in w'.refs && w'.refs[b] == w.refs[b] + 1 && w'.held[b] == w.held[b] + 1
            && b !in w.freed && w'.t == w.t && w'.freed == w.freed
  {
    var w := Exec(pick, w0, acts);
    hide Exec;
    var b := w.t.slots[i].b;
    assert InSlot(w.t, b);
    assert Holders(w, b) > 0;
  }

  /** Giving back the last reference frees the burst, and no other does. */
  lemma DropTakes(pick: Addr -> nat, w0: World, acts: seq<Action>, b: nat)
    requires Initial(pick, w0)
    requires var w := Exec(pick, w0, acts); b in w.held || b in w.fresh_
    ensures var w := Exec(pick, w0, acts); var w' := Act(pick, w, Drop(b));
            && Holders(w', b) == Holders(w, b) - 1 && w'.t == w.t
            && w'.freed == (if Holders(w, b) == 1 then w.freed + [b] else w.freed)
            && (b in w'.refs <==> Holders(w, b) > 1)
  {
    var w := Exec(pick, w0, acts);
    hide Exec, TableOk, InSlot, OneSlotEach;
    assert Holders(w, b) > 0;
  }

  /** A slot that is cleared hands its reference to the caller; a session that is replaced too. */
  lemma ReleaseHandsOver(pick: Addr -> nat, w0: World, acts: seq<Action>, i: nat)
    requires Initial(pick, w0)
    requires var w := Exec(pick, w0, acts); i < |w.t.slots| && w.t.slots[i].InUse? && w.t.slots[i].b in w.held
    ensures var w := Exec(pick, w0, acts);
            var b := w.t.slots[i].b; var w' := Act(pick, w, Release(i, b, true));
            && w'.t.slots == w.t.slots[i := Vacant] && !InSlot(w'.t, b)
            && w'.held[b] == w.held[b] + 1 && Holders(w', b) == Holders(w, b)
  {
    var w := Exec(pick, w0, acts);
    hide Exec;
    var b := w.t.slots[i].b;
    assert InSlot(w.t, b);
    ClearOk(w.t, pick, i);
    SlotEmpty(w.t, Clear(w.t, pick, i), i);
    hide TableOk, OneSlotEach, InSlot;
  }

  /** Every new burst ends in a slot, or stays with its maker when its stripe is full. */
  lemma StartPlaces(pick: Addr -> nat, w0: World, acts: seq<Action>, a: Addr, fd: int, b: nat)
    requires Initial(pick, w0)
    requires b in Exec(pick, w0, acts).fresh_
    ensures var w := Exec(pick, w0, acts); var w' := Act(pick, w, Action.Start(a, fd, b));
            && Inv(pick, w') && w'.refs == w.refs
            && (b !in w'.fresh_ ==> InSlot(w'.t, b) && Holders(w', b) == 1)
            && (b in w'.fresh_ ==> w'.t.slots == w.t.slots && w'.held == w.held && w'.fresh_ == w.fresh_)
  {
    var w := Exec(pick, w0, acts);
    hide Exec, Inv;
    ActInv(pick, w, Action.Start(a, fd, b));
    StartKeepsRefs(pick, w, a, fd, b);
  }

  lemma StartKeepsRefs(pick: Addr -> nat, w: World, a: Addr, fd: int, b: nat)
    requires Inv(pick, w) && b in w.fresh_ && Inv(pick, Act(pick, w, Action.Start(a, fd, b)))
    ensures var w' := Act(pick, w, Action.Start(a, fd, b));
            && w'.refs == w.refs
            && (b !in w'.fresh_ ==> InSlot(w'.t, b) && Holders(w', b) == 1)
            && (b in w'.fresh_ ==> w'.t.slots == w.t.slots && w'.held == w.held && w'.fresh_ == w.fresh_)
  {
    assert Holders(w, b) == 1 && b in w.refs;
    var w' := Act(pick, w, Action.Start(a, fd, b));
    HitIsLive(w.t, pick, a);
    match BurstTable.Start(w.t, pick, a, fd, b) {
      case Updated(t, old_, _) =>
        assert InSlot(w.t, old_);
      case _ =>
    }
    assert w'.refs == w.refs;
    assert w'.refs[b] == Holders(w', b);
    hide TableOk, OneSlotEach, FreedOk, InSlot;
  }

  /** Sessions started over any run: one live slot per client address, and the free lists are
      exactly the vacant slots, stripe by stripe. */
  lemma SessionsAndFreeLists(pick: Addr -> nat, w0: World, acts: seq<Action>, i: nat, j: nat)
    requires Initial(pick, w0)
    ensures var t := Exec(pick, w0, acts).t;
            && (&& i < |t.slots| && j < |t.slots|
                && t.slots[i].InUse? && t.slots[j].InUse? && t.slots[i].addr == t.slots[j].addr
                ==> i == j)
            && (i < |t.slots| ==> (t.slots[i].Vacant? <==> exists k: nat :: k < |t.stripes| && i in t.stripes[k].free))
            && (i < |t.slots| && t.slots[i].InUse? ==> i < t.highWater)
  {
    var t := Exec(pick, w0, acts).t;
    hide Exec;
    if i < |t.slots| {
      if j < |t.slots| && t.slots[i].InUse? && t.slots[j].InUse? && t.slots[i].addr == t.slots[j].addr {
        OneSessionPerAddress(t, pick, i, j);
      }
      if k: nat :| k < |t.stripes| && i in t.stripes[k].free {
        assert StripeOk(t, k, pick);
      }
      var l := StripeExists(t.stripes, |t.slots|, i, 0);
      assert StripeOk(t, l, pick);
    }
  }
}
