/**
 The burst session table (src/dipifccret/fcc/burst_table.c): slots split into
 stripes, each with its own free list and address index, holding reference-counted
 bursts. Operations run under a stripe lock and are single steps; dropping a
 reference happens after the lock is gone and is a step of its own.
 */
module BurstTable {
  import opened Wrappers

  // The fields sockaddr_eq compares.
  datatype Addr = Addr(family: int, host: seq<int>, port: int)

  datatype Slot = Vacant | InUse(addr: Addr, fd: int, b: nat, msn: nat, nacks: nat, adapted: bool)

  datatype Stripe = Stripe(base: nat, count: nat, free: seq<nat>, index: map<Addr, nat>)

  datatype Table = Table(slots: seq<Slot>, stripes: seq<Stripe>, highWater: nat)

  const STRIPE_COUNT_MAX := 8

  // ---- structure ----

  predicate InStripe(st: Stripe, i: nat) { st.base <= i < st.base + st.count }

  /** Consecutive stripes tile [0, cap). */
  ghost predicate Tiles(stripes: seq<Stripe>, cap: nat) {
    && |stripes| > 0 && stripes[0].base == 0
    && stripes[|stripes| - 1].base + stripes[|stripes| - 1].count == cap
    && forall k :: 0 <= k < |stripes| - 1 ==> stripes[k].base + stripes[k].count == stripes[k + 1].base
  }

  /** The free list is exactly the vacant slots of the stripe, without repetition. */
  ghost predicate FreeListOk(slots: seq<Slot>, st: Stripe) {
    && st.base + st.count <= |slots|
    && (forall x, y :: 0 <= x < y < |st.free| ==> st.free[x] != st.free[y])
    && (forall x :: 0 <= x < |st.free| ==> InStripe(st, st.free[x]) && slots[st.free[x]].Vacant?)
    && (forall i: nat :: InStripe(st, i) && slots[i].Vacant? ==> i in st.free)
  }

  /** The address index is exactly the live sessions of the stripe. */
  ghost predicate IndexOk(slots: seq<Slot>, st: Stripe) {
    && st.base + st.count <= |slots|
    && (forall a :: a in st.index ==>
        InStripe(st, st.index[a]) && slots[st.index[a]].InUse? && slots[st.index[a]].addr == a)
    && (forall i: nat :: InStripe(st, i) && slots[i].InUse? ==>
        slots[i].addr in st.index && st.index[slots[i].addr] == i)
  }

  ghost predicate StripeOk(t: Table, k: nat, pick: Addr -> nat)
    requires k < |t.stripes|
  {
    && FreeListOk(t.slots, t.stripes[k]) && IndexOk(t.slots, t.stripes[k])
    && forall i: nat :: InStripe(t.stripes[k], i) && t.slots[i].InUse? ==> pick(t.slots[i].addr) % |t.stripes| == k
  }

  ghost predicate TableOk(t: Table, pick: Addr -> nat) {
    && Tiles(t.stripes, |t.slots|)
    && (forall k: nat :: k < |t.stripes| ==> StripeOk(t, k, pick))
    && (forall i :: 0 <= i < |t.slots| && t.slots[i].InUse? ==> i < t.highWater)
  }

  lemma {:induction false} TilesOrder(stripes: seq<Stripe>, cap: nat, k: nat, l: nat)
    requires Tiles(stripes, cap) && k < l < |stripes|
    ensures stripes[k].base + stripes[k].count <= stripes[l].base
    decreases l
  {
    if k < l - 1 {
      TilesOrder(stripes, cap, k, l - 1);
    }
  }

  lemma {:induction false} StripeExists(stripes: seq<Stripe>, cap: nat, i: nat, from: nat) returns (k: nat)
    requires Tiles(stripes, cap) && i < cap && from < |stripes| && stripes[from].base <= i
    ensures k < |stripes| && InStripe(stripes[k], i)
    decreases |stripes| - from
  {
    if InStripe(stripes[from], i) {
      k := from;
    } else {
      k := StripeExists(stripes, cap, i, from + 1);
    }
  }

  lemma OneStripe(stripes: seq<Stripe>, cap: nat, i: nat, k: nat, l: nat)
    requires Tiles(stripes, cap) && k < |stripes| && l < |stripes| && InStripe(stripes[k], i) && InStripe(stripes[l], i)
    ensures k == l
  {
    if k < l { TilesOrder(stripes, cap, k, l); }
    if l < k { TilesOrder(stripes, cap, l, k); }
  }

  /** At most one live session per client address. */
  lemma OneSessionPerAddress(t: Table, pick: Addr -> nat, i: nat, j: nat)
    requires TableOk(t, pick) && i < |t.slots| && j < |t.slots|
    requires t.slots[i].InUse? && t.slots[j].InUse? && t.slots[i].addr == t.slots[j].addr
    ensures i == j
  {
    var k := StripeExists(t.stripes, |t.slots|, i, 0);
    var l := StripeExists(t.stripes, |t.slots|, j, 0);
    assert StripeOk(t, k, pick) && StripeOk(t, l, pick);
  }

  // ---- operations ----

  function WithStripe(t: Table, k: nat, st: Stripe): Table
    requires k < |t.stripes|
  {
    t.(stripes := t.stripes[k := st])
  }

  /** find_valid: an index hit that no longer matches its slot is dropped. */
  function FindValid(t: Table, k: nat, a: Addr): (Option<nat>, Table)
    requires k < |t.stripes|
  {
    var st := t.stripes[k];
    if a !in st.index then (None, t)
    else
      var i := st.index[a];
      if i < |t.slots| && t.slots[i].InUse? && t.slots[i].addr == a then (Some(i), t)
      else (None, WithStripe(t, k, st.(index := st.index - {a})))
  }

  /** claim_locked on a stripe with a free slot. */
  function Claim(t: Table, k: nat, a: Addr, fd: int, b: nat): Table
    requires k < |t.stripes| && t.stripes[k].free != [] && t.stripes[k].free[|t.stripes[k].free| - 1] < |t.slots|
  {
    var st := t.stripes[k];
    var i := st.free[|st.free| - 1];
    Table(t.slots[i := InUse(a, fd, b, 0, 0, false)],
          t.stripes[k := st.(free := st.free[..|st.free| - 1], index := st.index[a := i])],
          if i + 1 > t.highWater then i + 1 else t.highWater)
  }

  datatype Started = Updated(t: Table, old_: nat, msn: nat) | Claimed(t: Table) | Full(t: Table)

  function Start(t: Table, pick: Addr -> nat, a: Addr, fd: int, b: nat): Started
    requires TableOk(t, pick)
  {
    var k := pick(a) % |t.stripes|;
    var (hit, t1) := FindValid(t, k, a);
    match hit
    case Some(i) =>
      var s := t1.slots[i];
      var msn := (s.msn + 1) % 256;
      Updated(t1.(slots := t1.slots[i := InUse(s.addr, fd, b, msn, 0, false)]), s.b, msn)
    case None =>
      assert StripeOk(t, k, pick);
      if t1.stripes[k].free == [] then Full(t1) else Claimed(Claim(t1, k, a, fd, b))
  }

  function StripeOf(t: Table, pick: Addr -> nat, i: nat): (k: nat)
    requires TableOk(t, pick) && i < |t.slots|
    ensures k < |t.stripes| && InStripe(t.stripes[k], i)
  {
    StripeFrom(t.stripes, |t.slots|, i, 0)
  }

  /** stripe_of_idx never runs off the end. */
  function StripeFrom(stripes: seq<Stripe>, ghost cap: nat, i: nat, from: nat): (k: nat)
    requires Tiles(stripes, cap) && i < cap && from < |stripes| && stripes[from].base <= i
    ensures k < |stripes| && InStripe(stripes[k], i)
    decreases |stripes| - from
  {
    if InStripe(stripes[from], i) then from else StripeFrom(stripes, cap, i, from + 1)
  }

  /** burst_table_release with should_clear on a slot still holding the expected burst. */
  function Clear(t: Table, pick: Addr -> nat, i: nat): Table
    requires TableOk(t, pick) && i < |t.slots| && t.slots[i].InUse?
  {
    var k := StripeOf(t, pick, i);
    var st := t.stripes[k];
    Table(t.slots[i := Vacant], t.stripes[k := st.(free := st.free + [i], index := st.index - {t.slots[i].addr})],
          t.highWater)
  }

  function NackSlot(s: Slot, threshold: nat): Slot
    requires s.InUse?
  {
    var n := s.nacks + 1;
    if threshold > 0 && n < threshold && !s.adapted && threshold / 2 > 0 && n >= threshold / 2
    then s.(nacks := n, adapted := true, msn := (s.msn + 1) % 256)
    else s.(nacks := n)
  }

  datatype NackAction = Counted | Adapted | Terminated

  /** What the caller is told, and what happens to the burst: nothing, half its rate, or its end. */
  function ActionOf(s: Slot, threshold: nat): NackAction
    requires s.InUse?
  {
    if threshold > 0 && s.nacks + 1 >= threshold then Terminated
    else if NackSlot(s, threshold).adapted && !s.adapted then Adapted
    else Counted
  }

  /** burst_table_note_nack, the slot part: count, and halve the rate once at half the threshold. */
  function NoteNack(t: Table, pick: Addr -> nat, a: Addr, threshold: nat): Table
    requires TableOk(t, pick)
  {
    var (hit, t1) := FindValid(t, pick(a) % |t.stripes|, a);
    if hit.None? then t1 else t1.(slots := t1.slots[hit.value := NackSlot(t1.slots[hit.value], threshold)])
  }

  // ---- each operation keeps the structure ----

  lemma SameTiles(stripes: seq<Stripe>, k: nat, st: Stripe, cap: nat)
    requires Tiles(stripes, cap) && k < |stripes| && st.base == stripes[k].base && st.count == stripes[k].count
    ensures Tiles(stripes[k := st], cap)
  {}

  /** Changing one slot and its own stripe leaves the other stripes alone. */
  lemma OtherStripe(t: Table, t': Table, pick: Addr -> nat, k: nat, i: nat, l: nat)
    requires TableOk(t, pick) && k < |t.stripes| && InStripe(t.stripes[k], i) && i < |t.slots| && l < |t.stripes|
             && l != k
    requires |t'.slots| == |t.slots| && t'.slots == t.slots[i := t'.slots[i]]
    requires |t'.stripes| == |t.stripes| && t'.stripes[l] == t.stripes[l]
    ensures StripeOk(t', l, pick)
  {
    assert StripeOk(t, l, pick);
    assert !InStripe(t.stripes[l], i) by {
      if InStripe(t.stripes[l], i) { OneStripe(t.stripes, |t.slots|, i, k, l); }
    }
  }

  lemma HitIsLive(t: Table, pick: Addr -> nat, a: Addr)
    requires TableOk(t, pick)
    ensures var k := pick(a) % |t.stripes|;
            && FindValid(t, k, a).1 == t
            && (FindValid(t, k, a).0.Some?
                <==> exists i :: 0 <= i < |t.slots| && t.slots[i].InUse? && t.slots[i].addr == a)
  {
    var k := pick(a) % |t.stripes|;
    assert StripeOk(t, k, pick);
    if i :| 0 <= i < |t.slots| && t.slots[i].InUse? && t.slots[i].addr == a {
      var l := StripeExists(t.stripes, |t.slots|, i, 0);
      assert StripeOk(t, l, pick);
    }
  }

  lemma UpdateOk(t: Table, pick: Addr -> nat, i: nat, s: Slot)
    requires TableOk(t, pick) && i < |t.slots| && t.slots[i].InUse? && s.InUse? && s.addr == t.slots[i].addr
    ensures TableOk(t.(slots := t.slots[i := s]), pick)
  {
    var t' := t.(slots := t.slots[i := s]);
    forall k: nat | k < |t'.stripes| ensures StripeOk(t', k, pick) {
      assert StripeOk(t, k, pick);
    }
  }

  lemma ClaimOk(t: Table, pick: Addr -> nat, a: Addr, fd: int, b: nat)
    requires TableOk(t, pick)
    requires var k := pick(a) % |t.stripes|; t.stripes[k].free != [] && FindValid(t, k, a).0.None?
    requires var k := pick(a) % |t.stripes|; t.stripes[k].free[|t.stripes[k].free| - 1] < |t.slots|
    ensures TableOk(Claim(t, pick(a) % |t.stripes|, a, fd, b), pick)
  {
    var k := pick(a) % |t.stripes|;
    var t' := Claim(t, k, a, fd, b);
    var st, st' := t.stripes[k], t'.stripes[k];
    var i := st.free[|st.free| - 1];
    assert StripeOk(t, k, pick);
    HitIsLive(t, pick, a);
    SameTiles(t.stripes, k, st', |t.slots|);
    assert FreeListOk(t'.slots, st') by {
      forall j: nat | InStripe(st', j) && t'.slots[j].Vacant? ensures j in st'.free {
        assert j in st.free;
        var x :| 0 <= x < |st.free| && st.free[x] == j;
        assert st'.free[x] == j;
      }
    }
    assert IndexOk(t'.slots, st');
    forall l: nat | l < |t'.stripes| ensures StripeOk(t', l, pick) {
      if l != k { OtherStripe(t, t', pick, k, i, l); }
    }
  }

  lemma ClearOk(t: Table, pick: Addr -> nat, i: nat)
    requires TableOk(t, pick) && i < |t.slots| && t.slots[i].InUse?
    ensures TableOk(Clear(t, pick, i), pick)
  {
    var k := StripeOf(t, pick, i);
    var t' := Clear(t, pick, i);
    var st, st' := t.stripes[k], t'.stripes[k];
    assert StripeOk(t, k, pick);
    SameTiles(t.stripes, k, st', |t.slots|);
    assert FreeListOk(t'.slots, st') by {
      forall j: nat | InStripe(st', j) && t'.slots[j].Vacant? ensures j in st'.free {
        if j != i {
          assert j in st.free;
          var x :| 0 <= x < |st.free| && st.free[x] == j;
          assert st'.free[x] == j;
        } else {
          assert st'.free[|st.free|] == i;
        }
      }
    }
    assert IndexOk(t'.slots, st');
    forall l: nat | l < |t'.stripes| ensures StripeOk(t', l, pick) {
      if l != k { OtherStripe(t, t', pick, k, i, l); }
    }
  }

  /** burst_table_new: the remainder is spread over the first stripes. */
  method New(cap: nat, pick: Addr -> nat) returns (t: Option<Table>)
    ensures t.None? <==> cap == 0
    ensures t.Some? ==> TableOk(t.value, pick) && |t.value.slots| == cap
    ensures t.Some? ==> |t.value.stripes| == if cap < 8 then cap else 8
    ensures t.Some? ==> forall i :: 0 <= i < cap ==> t.value.slots[i].Vacant?
    ensures t.Some? ==> forall k, l :: 0 <= k < l < |t.value.stripes| ==>
            0 <= t.value.stripes[k].count - t.value.stripes[l].count <= 1
  {
    if cap == 0 {
      return None;
    }
    var n := if cap < STRIPE_COUNT_MAX then cap else STRIPE_COUNT_MAX;
    var slots: seq<Slot> := seq(cap, _ => Vacant);
    var stripes := Layout(slots, n, cap / n, cap % n);
    hide FreeListOk;
    t := Some(Table(slots, stripes, 0));
    NewOk(t.value, pick);
  }

  method Layout(slots: seq<Slot>, n: nat, base: nat, extra: nat) returns (stripes: seq<Stripe>)
    requires base * n + extra == |slots| && extra < n && forall i :: 0 <= i < |slots| ==> slots[i].Vacant?
    ensures |stripes| == n && Tiles(stripes, |slots|)
    ensures forall k :: 0 <= k < n ==> FreeListOk(slots, stripes[k]) && stripes[k].index == map[]
    ensures forall k :: 0 <= k < n ==> stripes[k].count == base + (if k < extra then 1 else 0)
  {
    stripes := [];
    var off := 0;
    assert Room(base, n, extra, 0) == |slots|;
    hide Room, FreeListOk;
    for i := 0 to n
      invariant |stripes| == i && off + Room(base, n, extra, i) == |slots|
      invariant forall k :: 0 <= k < i ==> stripes[k].count == base + (if k < extra then 1 else 0)
      invariant if i == 0 then off == 0 else stripes[0].base == 0 && stripes[i - 1].base + stripes[i - 1].count == off
      invariant forall k :: 0 <= k < i - 1 ==> stripes[k].base + stripes[k].count == stripes[k + 1].base
      invariant forall k :: 0 <= k < i ==> FreeListOk(slots, stripes[k]) && stripes[k].index == map[]
    {
      var count := base + if i < extra then 1 else 0;
      RoomStep(base, n, extra, i);
      var st := NewStripe(slots, off, count);
      stripes := stripes + [st];
      off := off + count;
    }
    RoomStep(base, n, extra, n);
  }

  lemma NewOk(t: Table, pick: Addr -> nat)
    requires Tiles(t.stripes, |t.slots|) && forall i :: 0 <= i < |t.slots| ==> t.slots[i].Vacant?
    requires forall k :: 0 <= k < |t.stripes| ==> FreeListOk(t.slots, t.stripes[k]) && t.stripes[k].index == map[]
    ensures TableOk(t, pick)
  {
    forall k: nat | k < |t.stripes| ensures StripeOk(t, k, pick) {
      assert FreeListOk(t.slots, t.stripes[k]);
    }
  }

  /** Slots still to be handed out before stripe `i`. */
  function Room(base: nat, n: nat, extra: nat, i: nat): nat
    requires i <= n
  {
    base * (n - i) + if i < extra then extra - i else 0
  }

  lemma RoomStep(base: nat, n: nat, extra: nat, i: nat)
    requires i <= n && extra < n
    ensures i < n ==> Room(base, n, extra, i) == base + (if i < extra then 1 else 0) + Room(base, n, extra, i + 1)
    ensures i == n ==> Room(base, n, extra, i) == 0
  {
    assert base * (n - i) == base + base * (n - i - 1);
  }

  /** stripe_init: the free list is a stack with the lowest slot on top. */
  method NewStripe(slots: seq<Slot>, base: nat, count: nat) returns (st: Stripe)
    requires base + count <= |slots| && forall i :: 0 <= i < |slots| ==> slots[i].Vacant?
    ensures FreeListOk(slots, st) && st.base == base && st.count == count && st.index == map[]
    ensures forall x :: 0 <= x < count ==> |st.free| == count && st.free[x] == base + count - 1 - x
  {
    var free: seq<nat> := [];
    for i := 0 to count
      invariant |free| == i && forall x :: 0 <= x < i ==> free[x] == base + count - 1 - x
    {
      free := free + [base + count - 1 - i];
    }
    st := Stripe(base, count, free, map[]);
    forall i: nat | InStripe(st, i) ensures i in st.free {
      assert free[base + count - 1 - i] == i;
    }
  }

  // ---- a run of NACKs ----

  ghost function Nacked(s: Slot, threshold: nat, n: nat): (r: Slot)
    requires s.InUse?
    ensures r.InUse?
  {
    if n == 0 then s else NackSlot(Nacked(s, threshold, n - 1), threshold)
  }

  /**
   * The course of a session's NACKs: with a threshold of at least two the rate is halved once, at
   * exactly half the threshold; the burst is ended from the threshold on; threshold zero does neither.
   */
  lemma {:induction false} NackCourse(s: Slot, threshold: nat, n: nat)
    requires s.InUse? && s.nacks == 0 && !s.adapted
    ensures var r, halved := Nacked(s, threshold, n), threshold >= 2 && n >= threshold / 2;
            r == s.(nacks := n, adapted := halved, msn := if halved then (s.msn + 1) % 256 else s.msn)
    ensures ActionOf(Nacked(s, threshold, n), threshold)
         == (if threshold > 0 && n + 1 >= threshold then Terminated
             else if threshold >= 2 && n + 1 == threshold / 2 then Adapted else Counted)
  {
    if n > 0 {
      NackCourse(s, threshold, n - 1);
    }
  }

  /** The table updated in place, each method holding the stripe lock throughout. */
  class Sessions {
    const pick: Addr -> nat
    var slots: seq<Slot>
    var stripes: seq<Stripe>
    var highWater: nat

    ghost function View(): Table
      reads this
    {
      Table(slots, stripes, highWater)
    }

    ghost predicate Valid()
      reads this
    {
      TableOk(View(), pick)
    }

    method Find(k: nat, a: Addr) returns (hit: Option<nat>)
      requires k < |stripes|
      modifies this`stripes
      ensures (hit, View()) == FindValid(old(View()), k, a)
    {
      if a !in stripes[k].index {
        return None;
      }
      var i := stripes[k].index[a];
      if i >= |slots| || !slots[i].InUse? || slots[i].addr != a {
        stripes := stripes[k := stripes[k].(index := stripes[k].index - {a})];
        return None;
      }
      return Some(i);
    }

    /** claim_locked. */
    method ClaimLocked(k: nat, a: Addr, fd: int, b: nat) returns (ok: bool)
      requires Valid() && k < |stripes|
      modifies this
      ensures ok <==> old(stripes[k].free) != []
      ensures !ok ==> View() == old(View())
      ensures ok ==>
              old(stripes[k].free)[|old(stripes[k].free)| - 1] < |old(slots)|
              && View() == Claim(old(View()), k, a, fd, b)
    {
      var st := stripes[k];
      if |st.free| == 0 {
        return false;
      }
      assert StripeOk(View(), k, pick);
      var i := st.free[|st.free| - 1];
      if i + 1 > highWater {
        highWater := i + 1;
      }
      slots := slots[i := InUse(a, fd, b, 0, 0, false)];
      var index := (st.index - {a})[a := i];
      assert index == st.index[a := i];
      stripes := stripes[k := Stripe(st.base, st.count, st.free[..|st.free| - 1], index)];
      ok := true;
    }

    /** burst_table_start: `replaced` is the burst whose slot reference the caller now owes. */
    method StartBurst(a: Addr, fd: int, b: nat) returns (rc: int, msn: nat, replaced: Option<nat>)
      requires Valid()
      modifies this
      ensures Valid()
      ensures match Start(old(View()), pick, a, fd, b)
              case Updated(t, prior, m) => rc == 1 && View() == t && replaced == Some(prior) && msn == m
              case Claimed(t) => rc == 0 && View() == t && replaced == None && msn == 0
              case Full(t) => rc == -1 && View() == t && replaced == None
    {
      var k := pick(a) % |stripes|;
      HitIsLive(View(), pick, a);
      assert StripeOk(View(), k, pick);
      var hit := Find(k, a);
      if hit.Some? {
        var s := slots[hit.value];
        msn := (s.msn + 1) % 256;
        UpdateOk(View(), pick, hit.value, InUse(s.addr, fd, b, msn, 0, false));
        slots := slots[hit.value := InUse(s.addr, fd, b, msn, 0, false)];
        return 1, msn, Some(s.b);
      }
      if |stripes[k].free| > 0 {
        ClaimOk(View(), pick, a, fd, b);
      }
      hide TableOk, StripeOk;
      var ok := ClaimLocked(k, a, fd, b);
      return if ok then 0 else -1, 0, None;
    }

    /** burst_table_note_nack; the burst itself is ended or slowed down by the caller of this model. */
    method Nack(a: Addr, threshold: nat) returns (action: Option<NackAction>)
      requires Valid()
      modifies this
      ensures Valid() && View() == NoteNack(old(View()), pick, a, threshold)
      ensures var hit := FindValid(old(View()), pick(a) % |old(stripes)|, a).0;
              if hit.None? then action == None
              else hit.value < |old(slots)| && old(slots)[hit.value].InUse?
                   && action == Some(ActionOf(old(slots)[hit.value], threshold))
    {
      var k := pick(a) % |stripes|;
      HitIsLive(View(), pick, a);
      var hit := Find(k, a);
      if hit.None? {
        return None;
      }
      var i := hit.value;
      var s := slots[i];
      ghost var t := View();
      UpdateOk(t, pick, i, NackSlot(s, threshold));
      hide TableOk;
      var s', told := CountNack(s, threshold);
      slots := slots[i := s'];
      assert View() == t.(slots := t.slots[i := s']);
      action := Some(told);
    }

    method CountNack(s: Slot, threshold: nat) returns (s': Slot, action: NackAction)
      requires s.InUse?
      ensures s' == NackSlot(s, threshold) && action == ActionOf(s, threshold)
    {
      s', action := s.(nacks := s.nacks + 1), Counted;
      var adaptAt := threshold / 2;
      if threshold > 0 {
        if s'.nacks >= threshold {
          action := Terminated;
        } else if !s.adapted && adaptAt > 0 && s'.nacks >= adaptAt {
          s' := s'.(adapted := true, msn := (s.msn + 1) % 256);
          action := Adapted;
        }
      }
    }

    /** burst_table_release. */
    method Release(i: nat, expect_: nat, shouldClear: bool) returns (owns: bool, cleared: bool)
      requires Valid() && i < |slots|
      modifies this
      ensures Valid()
      ensures owns <==> old(slots[i]).InUse? && old(slots[i]).b == expect_
      ensures cleared <==> owns && shouldClear
      ensures !cleared ==> View() == old(View())
      ensures cleared ==> View() == Clear(old(View()), pick, i)
    {
      owns, cleared := false, false;
      if slots[i].InUse? && slots[i].b == expect_ {
        owns := true;
        if shouldClear {
          ClearOk(View(), pick, i);
          var k := FindStripe(i);
          var st, a := stripes[k], slots[i].addr;
          slots := slots[i := Vacant];
          stripes := stripes[k := Stripe(st.base, st.count, st.free + [i], st.index - {a})];
          cleared := true;
        }
      }
    }

    /** stripe_of_idx: its NULL result is unreachable. */
    method FindStripe(i: nat) returns (k: nat)
      requires Valid() && i < |slots|
      ensures k == StripeOf(View(), pick, i)
    {
      k := 0;
      while !InStripe(stripes[k], i)
        invariant k < |stripes| && stripes[k].base <= i
        invariant StripeFrom(stripes, |slots|, i, k) == StripeOf(View(), pick, i)
        decreases |stripes| - k
      {
        k := k + 1;
      }
    }
  }
}
