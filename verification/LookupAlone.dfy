/**
 What channel_lookup answers (src/dipifccret/channel/channel.c, hash.c). From every state the
 protocol reaches with no claim and no rebuild under way, a lookup that is not interfered with is
 lookup-or-insert on the map of live channels: it returns the key's channel, or makes one in a free
 slot, or returns nothing when no slot is free. It ends exactly when the key has a channel or the
 table has an empty bucket. A rebuild that is not interfered with indexes every live channel and
 leaves no tombstone.
 */
module LookupAlone {
  import opened Wrappers
  import opened LookupProtocol
  import opened IndexInvariant
  import opened LookupSafety
  import opened ReapRace
  import opened ChannelTable

  // ---- one thread stepped alone ----

  ghost function Steps(t: nat, n: nat): (acts: seq<Action>)
    ensures |acts| == n
  {
    seq(n, _ => Step(t))
  }

  ghost function Alone(c: Config, s: State, t: nat, n: nat): (s': State)
    requires Shape(c, s)
    ensures Shape(c, s')
    decreases n
  {
    if n == 0 then s
    else
      ActShape(c, s, Step(t));
      Alone(c, Act(c, s, Step(t)), t, n - 1)
  }

  lemma {:induction false} AloneIsRun(c: Config, s: State, t: nat, n: nat)
    requires Shape(c, s)
    ensures Exec(c, s, Steps(t, n)) == Alone(c, s, t, n)
    decreases n
  {
    hide Act, Shape;
    NothingDone(c, s);
    if n == 0 {
      assert Steps(t, 0) == [];
    } else {
      ActShape(c, s, Step(t));
      AloneIsRun(c, Act(c, s, Step(t)), t, n - 1);
      var first: seq<Action> := [Step(t)];
      assert Steps(t, n) == first + Steps(t, n - 1);
      ExecTwice(c, s, first, Steps(t, n - 1));
      assert first[..0] == [];
    }
  }

  /** The thread has left the section with this answer, over this index. */
  function Left(s: State, t: nat, k: Key, res: Option<nat>, ix: Index): State
    requires t < |s.threads|
  {
    s.(ix := ix, writers := s.writers - 1, threads := s.threads[t := Done(k, res, s.reaps)])
  }

  lemma Onward(c: Config, s: State, t: nat, n: nat, k: Key, res: Option<nat>, ix: Index)
    requires Shape(c, s) && t < |s.threads| && (Finding(s.threads[t]) || HasClaim(s.threads[t]))
    requires var s1 := Act(c, s, Step(t));
             Shape(c, s1) && t < |s1.threads| && Alone(c, s1, t, n) == Left(s1, t, k, res, ix)
    ensures Alone(c, s, t, n + 1) == Left(s, t, k, res, ix)
  {
    hide PcShape, ScanStep, BucketAt;
    var s1 := Act(c, s, Step(t));
    assert s1.threads == s.threads[t := s1.threads[t]];
    assert s1.threads[t := Done(k, res, s.reaps)] == s.threads[t := Done(k, res, s.reaps)];
  }

  lemma ExitEnds(c: Config, s: State, t: nat) returns (n: nat)
    requires Shape(c, s) && t < |s.threads| && s.threads[t].Exit? && s.threads[t].epoch == s.reaps
    ensures Alone(c, s, t, n) == Left(s, t, s.threads[t].k, s.threads[t].res, s.ix)
  {
    n := 1;
    ActShape(c, s, Step(t));
    var s1 := Act(c, s, Step(t));
    assert Alone(c, s1, t, 0) == s1;
  }

  // ---- with a claimed bucket ----

  function MadeIn(c: Config, ix: Index, k: Key, a: nat, x: nat): Index
    requires |ix.buckets| == c.size && a < c.size && x < |ix.slots|
  {
    Index(ix.buckets[c.Pos(k, a) := Chan(x)], ix.slots[x := Live(k)])
  }

  lemma PublishEnds(c: Config, s: State, t: nat) returns (n: nat)
    requires Shape(c, s) && t < |s.threads| && s.threads[t].Publish?
    ensures var pc := s.threads[t];
            pc.a < c.size
              && Alone(c, s, t, n) == Left(s, t, pc.k, Some(pc.j), SetBucket(c, s, pc.k, pc.a, Chan(pc.j)).ix)
  {
    var pc := s.threads[t];
    assert PcShape(c, pc);
    ActShape(c, s, Step(t));
    n := ExitEnds(c, Act(c, s, Step(t)), t);
    Onward(c, s, t, n, pc.k, Some(pc.j), SetBucket(c, s, pc.k, pc.a, Chan(pc.j)).ix);
    n := n + 1;
  }

  lemma RollbackEnds(c: Config, s: State, t: nat) returns (n: nat)
    requires Shape(c, s) && t < |s.threads| && s.threads[t].Rollback?
    ensures var pc := s.threads[t];
            pc.a < c.size
            && Alone(c, s, t, n)
               == Left(s, t, pc.k, None, SetBucket(c, s, pc.k, pc.a, if pc.wasTomb then Tomb else Empty).ix)
  {
    var pc := s.threads[t];
    assert PcShape(c, pc);
    ActShape(c, s, Step(t));
    n := ExitEnds(c, Act(c, s, Step(t)), t);
    Onward(c, s, t, n, pc.k, None, SetBucket(c, s, pc.k, pc.a, if pc.wasTomb then Tomb else Empty).ix);
    n := n + 1;
  }

  lemma InitEnds(c: Config, s: State, t: nat) returns (n: nat)
    requires Shape(c, s) && t < |s.threads| && s.threads[t].Init?
    ensures var pc := s.threads[t];
            pc.a < c.size && pc.j < |s.ix.slots|
            && Alone(c, s, t, n) == Left(s, t, pc.k, Some(pc.j), MadeIn(c, s.ix, pc.k, pc.a, pc.j))
  {
    var pc := s.threads[t];
    assert PcShape(c, pc);
    ActShape(c, s, Step(t));
    n := PublishEnds(c, Act(c, s, Step(t)), t);
    Onward(c, s, t, n, pc.k, Some(pc.j), MadeIn(c, s.ix, pc.k, pc.a, pc.j));
    n := n + 1;
  }

  /** The scan for a free channel from slot j on. */
  lemma {:induction false} AllocEnds(c: Config, s: State, t: nat) returns (n: nat, res: Option<nat>)
    requires Shape(c, s) && t < |s.threads| && s.threads[t].Alloc?
    ensures var Alloc(k, a, w, j) := s.threads[t];
            && a < c.size
            && (res.Some? ==>
                  && j <= res.value < |s.ix.slots| && s.ix.slots[res.value] == Free
                  && Alone(c, s, t, n) == Left(s, t, k, res, MadeIn(c, s.ix, k, a, res.value)))
            && (res.None? ==>
                  && (forall x :: j <= x < |s.ix.slots| ==> s.ix.slots[x] != Free)
                  && Alone(c, s, t, n) == Left(s, t, k, None, SetBucket(c, s, k, a, if w then Tomb else Empty).ix))
    decreases c.maxChannels - s.threads[t].j
  {
    hide Alone, Left;
    var Alloc(k, a, w, j) := s.threads[t];
    assert PcShape(c, s.threads[t]);
    ActShape(c, s, Step(t));
    var s1 := Act(c, s, Step(t));
    if j == c.maxChannels {
      n := RollbackEnds(c, s1, t);
      res := None;
      Onward(c, s, t, n, k, res, SetBucket(c, s, k, a, if w then Tomb else Empty).ix);
    } else if s.ix.slots[j] == Free {
      n := InitEnds(c, s1, t);
      res := Some(j);
      assert s.ix.slots[j := Building(t)][j := Live(k)] == s.ix.slots[j := Live(k)];
      Onward(c, s, t, n, k, res, MadeIn(c, s.ix, k, a, j));
    } else {
      n, res := AllocEnds(c, s1, t);
      assert s1.ix == s.ix;
      Onward(c, s, t, n, k, res,
             if res.Some? then MadeIn(c, s.ix, k, a, res.value)
             else SetBucket(c, s, k, a, if w then Tomb else Empty).ix);
    }
    n := n + 1;
  }

  /** The answer of a lookup that finds no channel of its key. */
  ghost predicate Inserts(c: Config, s: State, t: nat, k: Key, n: nat, res: Option<nat>)
    requires Shape(c, s) && t < |s.threads|
  {
    match res
    case Some(x) =>
      && x < |s.ix.slots| && s.ix.slots[x] == Free
      && exists a: nat ::
           && a < c.size && BucketAt(c, s.ix, k, a) in {Empty, Tomb}
           && Alone(c, s, t, n) == Left(s, t, k, res, MadeIn(c, s.ix, k, a, x))
    case None =>
      (forall x :: 0 <= x < |s.ix.slots| ==> s.ix.slots[x] != Free) && Alone(c, s, t, n) == Left(s, t, k, None, s.ix)
  }

  lemma InsertsBefore(c: Config, s: State, t: nat, k: Key, n: nat, res: Option<nat>)
    requires Shape(c, s) && t < |s.threads| && (s.threads[t].Scan? || s.threads[t].Inspect?)
    requires var s1 := Act(c, s, Step(t));
             Shape(c, s1) && s1.ix == s.ix && t < |s1.threads| && Inserts(c, s1, t, k, n, res)
    ensures Inserts(c, s, t, k, n + 1, res)
  {
    hide Act, Alone, Left, MadeIn;
    var s1 := Act(c, s, Step(t));
    if res.Some? {
      var a: nat :| a < c.size && BucketAt(c, s1.ix, k, a) in {Empty, Tomb}
                    && Alone(c, s1, t, n) == Left(s1, t, k, res, MadeIn(c, s1.ix, k, a, res.value));
      Onward(c, s, t, n, k, res, MadeIn(c, s.ix, k, a, res.value));
    } else {
      Onward(c, s, t, n, k, res, s.ix);
    }
  }

  lemma CasEnds(c: Config, s: State, t: nat) returns (n: nat, res: Option<nat>)
    requires Shape(c, s) && t < |s.threads| && s.threads[t].Cas?
    requires var Cas(k, a, w) := s.threads[t]; a < c.size && BucketAt(c, s.ix, k, a) == if w then Tomb else Empty
    ensures Inserts(c, s, t, s.threads[t].k, n, res)
  {
    hide Alone, Left;
    var Cas(k, a, w) := s.threads[t];
    ActShape(c, s, Step(t));
    var s1 := Act(c, s, Step(t));
    n, res := AllocEnds(c, s1, t);
    var b := c.Pos(k, a);
    if res.Some? {
      assert s1.ix.buckets[b := Chan(res.value)] == s.ix.buckets[b := Chan(res.value)];
      Onward(c, s, t, n, k, res, MadeIn(c, s.ix, k, a, res.value));
    } else {
      assert s1.ix.buckets[b := if w then Tomb else Empty] == s.ix.buckets;
      Onward(c, s, t, n, k, res, s.ix);
    }
    n := n + 1;
  }

  /** A search that meets only channels of other keys and tombstones before an empty bucket. */
  lemma {:induction false} ScanMisses(c: Config, s: State, t: nat, e: nat) returns (n: nat, res: Option<nat>)
    requires Shape(c, s) && t < |s.threads| && s.threads[t].Scan?
    requires var Scan(k, m, avail) := s.threads[t];
             && m <= e < c.size && BucketAt(c, s.ix, k, e) == Empty
             && (forall x: nat :: m <= x < e ==> Passable(c, s.ix, k, x))
             && (avail.Some? ==> avail.value < c.size && BucketAt(c, s.ix, k, avail.value) == Tomb)
    ensures Inserts(c, s, t, s.threads[t].k, n, res)
    decreases e - s.threads[t].n
  {
    hide Inserts;
    var Scan(k, m, avail) := s.threads[t];
    ActShape(c, s, Step(t));
    var s1 := Act(c, s, Step(t));
    if m == e {
      n, res := CasEnds(c, s1, t);
    } else {
      assert Passable(c, s.ix, k, m);
      if s1.threads[t].Inspect? {
        ActShape(c, s1, Step(t));
        n, res := ScanMisses(c, Act(c, s1, Step(t)), t, e);
        InsertsBefore(c, s1, t, k, n, res);
        n := n + 1;
      } else {
        n, res := ScanMisses(c, s1, t, e);
      }
    }
    InsertsBefore(c, s, t, k, n, res);
    n := n + 1;
  }

  /** A search that meets channel i of its key. */
  lemma {:induction false} ScanHits(c: Config, s: State, t: nat, e: nat, i: nat) returns (n: nat)
    requires Shape(c, s) && t < |s.threads| && s.threads[t].Scan? && i < |s.ix.slots|
    requires var Scan(k, m, avail) := s.threads[t];
             && m <= e < c.size && BucketAt(c, s.ix, k, e) == Chan(i) && s.ix.slots[i] == Live(k)
             && (forall x: nat :: m <= x < e ==> Passable(c, s.ix, k, x))
    ensures Alone(c, s, t, n) == Left(s, t, s.threads[t].k, Some(i), s.ix)
    decreases e - s.threads[t].n
  {
    hide Alone, Left;
    var Scan(k, m, avail) := s.threads[t];
    ActShape(c, s, Step(t));
    var s1 := Act(c, s, Step(t));
    if m < e {
      assert Passable(c, s.ix, k, m);
    }
    if s1.threads[t].Inspect? {
      ActShape(c, s1, Step(t));
      var s2 := Act(c, s1, Step(t));
      if m == e {
        n := ExitEnds(c, s2, t);
      } else {
        n := ScanHits(c, s2, t, e, i);
      }
      Onward(c, s1, t, n, k, Some(i), s.ix);
      n := n + 1;
    } else {
      n := ScanHits(c, s1, t, e, i);
    }
    Onward(c, s, t, n, k, Some(i), s.ix);
    n := n + 1;
  }

  // ---- the whole lookup ----

  ghost predicate Quiet(s: State) { !s.rebuilding && ReapRace.Unclaimed(s.ix) }

  lemma Entered(c: Config, s: State, t: nat, k: Key)
    requires Shape(c, s) && t < |s.threads| && !s.rebuilding
    ensures Shape(c, Goto(s, t, Enter(k))) && Shape(c, Goto(s.(writers := s.writers + 1), t, Check(k)))
    ensures Act(c, Goto(s, t, Enter(k)), Step(t)) == Goto(s.(writers := s.writers + 1), t, Check(k))
    ensures Act(c, Goto(s.(writers := s.writers + 1), t, Check(k)), Step(t))
         == Goto(s.(writers := s.writers + 1), t, Scan(k, 0, None))
  {
    EnterShape(c, s, t, k);
    hide PcShape;
    ActShape(c, Goto(s, t, Enter(k)), Step(t));
  }

  lemma EnterShape(c: Config, s: State, t: nat, k: Key)
    requires Shape(c, s) && t < |s.threads|
    ensures Shape(c, Goto(s, t, Enter(k)))
  {
  }

  lemma EnterAlone(c: Config, s: State, t: nat, k: Key, n: nat, res: Option<nat>, ix: Index)
    requires Shape(c, s) && t < |s.threads| && !s.rebuilding
    requires var s1 := Goto(s.(writers := s.writers + 1), t, Scan(k, 0, None));
             Shape(c, s1) && Alone(c, s1, t, n) == Left(s1, t, k, res, ix)
    ensures Shape(c, Goto(s, t, Enter(k)))
    ensures Alone(c, Goto(s, t, Enter(k)), t, n + 2)
         == s.(ix := ix, threads := s.threads[t := Done(k, res, s.reaps)])
  {
    hide Shape, Act;
    Entered(c, s, t, k);
    var s0, s1 := Goto(s, t, Enter(k)), Goto(s.(writers := s.writers + 1), t, Scan(k, 0, None));
    var s2 := Goto(s.(writers := s.writers + 1), t, Check(k));
    assert Alone(c, s0, t, n + 2) == Alone(c, s2, t, n + 1) == Alone(c, s1, t, n);
    assert s1.threads[t := Done(k, res, s.reaps)] == s.threads[t := Done(k, res, s.reaps)];
  }

  lemma ScanStarts(c: Config, s: State, t: nat, k: Key)
    requires Shape(c, s) && t < |s.threads|
    ensures Shape(c, Goto(s.(writers := s.writers + 1), t, Scan(k, 0, None)))
  {
    hide PcShape;
    assert PcShape(c, Scan(k, 0, None)) by { StartShape(c, k); }
    var s1 := Goto(s.(writers := s.writers + 1), t, Scan(k, 0, None));
    forall u | 0 <= u < |s1.threads| ensures PcShape(c, s1.threads[u]) {
      assert PcShape(c, s.threads[u]);
    }
  }

  lemma StartShape(c: Config, k: Key)
    requires c.size >= 1
    ensures PcShape(c, Scan(k, 0, None))
  {
  }

  lemma QuietTable(c: Config, s: State)
    requires Inv(c, s) && Quiet(s)
    ensures Table(c, s.ix, c.maxChannels) && LiveUnique(s.ix) && Settled(s)
    ensures forall i: nat :: i < |s.ix.slots| && s.ix.slots[i].Live? ==>
              exists b :: 0 <= b < |s.ix.buckets| && s.ix.buckets[b] == Chan(i)
  {
    assert Settled(s) by {
      hide Links, ThreadOk, BodyOk, Table, LiveUnique;
      assert OneRebuilder(s);
    }
    hide Table, LiveUnique, ThreadOk, BodyOk, Gate;
    forall i: nat | i < |s.ix.slots| && s.ix.slots[i].Live?
      ensures exists b :: 0 <= b < |s.ix.buckets| && s.ix.buckets[b] == Chan(i)
    {
      assert Placed(s, i);
      forall u | 0 <= u < |s.threads| ensures !s.threads[u].Publish? {
        assert ThreadLinks(c, s.ix, u, s.threads[u]) && PcShape(c, s.threads[u]);
      }
    }
  }

  /** The channel of a key stands behind channels of other keys and tombstones only. */
  lemma Met(c: Config, s: State, i: nat) returns (e: nat)
    requires Shape(c, s) && ReapRace.Unclaimed(s.ix) && Table(c, s.ix, c.maxChannels)
    requires i < |s.ix.slots| && s.ix.slots[i].Live?
             && exists b :: 0 <= b < |s.ix.buckets| && s.ix.buckets[b] == Chan(i)
    ensures var k := s.ix.slots[i].key;
            e < c.size && BucketAt(c, s.ix, k, e) == Chan(i) && forall m: nat :: m < e ==> Passable(c, s.ix, k, m)
  {
    var k := s.ix.slots[i].key;
    var b :| 0 <= b < |s.ix.buckets| && s.ix.buckets[b] == Chan(i);
    e := DistanceTo(c, k, b);
    assert Owner(c, s.ix, k, e);
    forall m: nat | m < e ensures Passable(c, s.ix, k, m) {
      assert Solid(BucketAt(c, s.ix, k, m)) && !Owner(c, s.ix, k, m);
    }
  }

  ghost predicate SomeLive(ix: Index, k: Key) { exists i :: 0 <= i < |ix.slots| && ix.slots[i] == Live(k) }

  ghost predicate SomeEmpty(ix: Index) { exists b :: 0 <= b < |ix.buckets| && ix.buckets[b] == Empty }

  /** What the lookup does to the index and what it answers. */
  ghost predicate Answered(ix: Index, ix': Index, k: Key, res: Option<nat>) {
    if SomeLive(ix, k) then res.Some? && res.value < |ix.slots| && ix.slots[res.value] == Live(k) && ix' == ix
    else
      match res
      case Some(x) =>
        && x < |ix.slots| && ix.slots[x] == Free && ix'.slots == ix.slots[x := Live(k)]
        && exists b ::
             0 <= b < |ix.buckets| && ix.buckets[b] in {Empty, Tomb} && ix'.buckets == ix.buckets[b := Chan(x)]
      case None => ix' == ix && forall x :: 0 <= x < |ix.slots| ==> ix.slots[x] != Free
  }

  lemma HitAlone(c: Config, s: State, s1: State, t: nat, k: Key) returns (n: nat, res: Option<nat>)
    requires Inv(c, s) && Quiet(s) && SomeLive(s.ix, k) && t < |s.threads|
    requires Shape(c, s1) && s1 == Goto(s.(writers := s.writers + 1), t, Scan(k, 0, None))
    ensures Answered(s.ix, s.ix, k, res) && Alone(c, s1, t, n) == Left(s1, t, k, res, s.ix)
  {
    hide Table, LiveUnique, Act, Alone, Inv, Left, PcShape;
    QuietTable(c, s);
    InvShape(c, s);
    var i: nat :| i < |s.ix.slots| && s.ix.slots[i] == Live(k);
    var e := Met(c, s, i);
    n := ScanHits(c, s1, t, e, i);
    res := Some(i);
  }

  lemma MissAlone(c: Config, s: State, s1: State, t: nat, k: Key) returns (n: nat, res: Option<nat>, ix': Index)
    requires Inv(c, s) && Quiet(s) && !SomeLive(s.ix, k) && SomeEmpty(s.ix) && t < |s.threads|
    requires Shape(c, s1) && s1 == Goto(s.(writers := s.writers + 1), t, Scan(k, 0, None))
    ensures Answered(s.ix, ix', k, res) && Alone(c, s1, t, n) == Left(s1, t, k, res, ix')
  {
    hide Table, LiveUnique, Act, Alone, Inv, Left, PcShape;
    QuietTable(c, s);
    InvShape(c, s);
    var b: nat :| b < |s.ix.buckets| && s.ix.buckets[b] == Empty;
    var d := DistanceTo(c, k, b);
    var e := FirstEmpty(c, s.ix, k, 0, d);
    PassableAll(c, s, k, e);
    n, res := ScanMisses(c, s1, t, e);
    ix' := s.ix;
    if res.Some? {
      var a: nat :| a < c.size && BucketAt(c, s1.ix, k, a) in {Empty, Tomb}
                    && Alone(c, s1, t, n) == Left(s1, t, k, res, MadeIn(c, s1.ix, k, a, res.value));
      ix' := MadeIn(c, s.ix, k, a, res.value);
    }
  }

  lemma FromEnter(c: Config, s: State, t: nat, k: Key) returns (n: nat, res: Option<nat>, ix': Index)
    requires Inv(c, s) && Quiet(s) && t < |s.threads| && (SomeLive(s.ix, k) || SomeEmpty(s.ix))
    ensures Answered(s.ix, ix', k, res) && Shape(c, Goto(s, t, Enter(k)))
    ensures Alone(c, Goto(s, t, Enter(k)), t, n) == s.(ix := ix', threads := s.threads[t := Done(k, res, s.reaps)])
  {
    hide Act, Alone, Inv, Left, SomeLive, SomeEmpty, Answered, ReapRace.Unclaimed, PcShape;
    InvShape(c, s);
    ScanStarts(c, s, t, k);
    var s1 := Goto(s.(writers := s.writers + 1), t, Scan(k, 0, None));
    if SomeLive(s.ix, k) {
      n, res := HitAlone(c, s, s1, t, k);
      ix' := s.ix;
    } else {
      n, res, ix' := MissAlone(c, s, s1, t, k);
    }
    EnterAlone(c, s, t, k, n, res, ix');
    n := n + 2;
  }

  lemma AnswersAlone(c: Config, s: State, t: nat, k: Key) returns (n: nat, res: Option<nat>, ix': Index)
    requires Inv(c, s) && Quiet(s) && t < |s.threads| && s.threads[t].Idle?
    requires SomeLive(s.ix, k) || SomeEmpty(s.ix)
    ensures Answered(s.ix, ix', k, res) && Shape(c, Act(c, s, Lookup(t, k)))
    ensures Alone(c, Act(c, s, Lookup(t, k)), t, n)
         == s.(ix := ix', threads := s.threads[t := Done(k, res, s.reaps)])
  {
    hide Alone, Inv, SomeLive, SomeEmpty, Answered, ReapRace.Unclaimed, PcShape;
    InvShape(c, s);
    n, res, ix' := FromEnter(c, s, t, k);
  }

  lemma PassableAll(c: Config, s: State, k: Key, e: nat)
    requires Shape(c, s) && ReapRace.Unclaimed(s.ix) && Table(c, s.ix, c.maxChannels) && !SomeLive(s.ix, k)
             && e <= c.size
    requires forall m: nat :: 0 <= m < e ==> BucketAt(c, s.ix, k, m) != Empty
    ensures forall m: nat :: 0 <= m < e ==> Passable(c, s.ix, k, m)
  {
    PassableBefore(c, s.ix, k, 0, e);
  }

  /**
   * From every reachable state with no claim and no rebuild under way, a lookup by an idle thread that
   * is not interfered with is lookup-or-insert on the map of live channels: the key's channel if it has
   * one; otherwise a channel made in a free slot; nothing exactly if there is none of either. Nothing
   * else of the state changes.
   */
  lemma LookupAnswers(c: Config, acts: seq<Action>, t: nat, k: Key) returns (n: nat, res: Option<nat>)
    requires c.size >= 1
    requires var s := Run(c, acts);
             && Quiet(s) && t < |s.threads| && s.threads[t].Idle? && (SomeLive(s.ix, k) || SomeEmpty(s.ix))
    ensures var s, s' := Run(c, acts), Run(c, acts + [Lookup(t, k)] + Steps(t, n));
            && s' == s.(ix := s'.ix, threads := s.threads[t := Done(k, res, s.reaps)])
            && Answered(s.ix, s'.ix, k, res)
            && LiveUnique(Index([], s.ix.slots)) && LiveUnique(Index([], s'.ix.slots))
            && var m := ChannelMap(s.ix.slots);
               ChannelMap(s'.ix.slots) == (if k !in m && res.Some? then m[k := res.value] else m)
               && (k in m ==> res == Some(m[k]))
  {
    hide Exec, Inv, Act, Shape, ChannelMap, LiveUnique;
    var s := Run(c, acts);
    RunInv(c, acts);
    var ix';
    n, res, ix' := AnswersAlone(c, s, t, k);
    var s0 := Start(c);
    LookupSafety.StartInv(c);
    InvShape(c, s0);
    var more: seq<Action> := [Lookup(t, k)];
    ExecTwice(c, s0, acts, more);
    OneAct(c, s, Lookup(t, k));
    ExecTwice(c, s0, acts + more, Steps(t, n));
    AloneIsRun(c, Act(c, s, Lookup(t, k)), t, n);
    RunInv(c, acts + more + Steps(t, n));
    MapAnswered(c, s, Run(c, acts + more + Steps(t, n)), k, res);
  }

  lemma OneAct(c: Config, s: State, a: Action)
    requires Shape(c, s)
    ensures Exec(c, s, [a]) == Act(c, s, a)
  {
    hide Act, Shape;
    NothingDone(c, s);
    assert [a][..0] == [];
  }

  /** A lookup that a rebuild has sent back waits without holding it up, and changes nothing. */
  lemma BacksOff(c: Config, acts: seq<Action>, t: nat)
    requires c.size >= 1
    requires var s := Run(c, acts); s.rebuilding && t < |s.threads| && s.threads[t].Check?
    ensures var s := Run(c, acts);
            Run(c, acts + Steps(t, 2)) == s.(writers := s.writers - 1, threads := s.threads[t := Spin(s.threads[t].k)])
  {
    hide Exec, Inv;
    var s, s0 := Run(c, acts), Start(c);
    LookupSafety.StartInv(c);
    ActShape(c, s, Step(t));
    var s1 := Act(c, s, Step(t));
    ActShape(c, s1, Step(t));
    var s2 := Act(c, s1, Step(t));
    assert Alone(c, s, t, 2) == Alone(c, s1, t, 1) == Alone(c, s2, t, 0) == s2;
    AloneIsRun(c, s, t, 2);
    ExecTwice(c, s0, acts, Steps(t, 2));
    assert s.threads[t := Back(s.threads[t].k)][t := Spin(s.threads[t].k)] == s.threads[t := Spin(s.threads[t].k)];
  }

  /** Once the rebuild is over it starts again and is answered like any other. */
  lemma WaiterAnswers(c: Config, acts: seq<Action>, t: nat) returns (n: nat, res: Option<nat>)
    requires c.size >= 1
    requires var s := Run(c, acts);
             && Quiet(s) && t < |s.threads| && s.threads[t].Spin?
             && (SomeLive(s.ix, s.threads[t].k) || SomeEmpty(s.ix))
    ensures var s, s' := Run(c, acts), Run(c, acts + Steps(t, n)); var k := s.threads[t].k;
            s' == s.(ix := s'.ix, threads := s.threads[t := Done(k, res, s.reaps)]) && Answered(s.ix, s'.ix, k, res)
  {
    hide Exec, Inv, Act, Shape, SomeLive, SomeEmpty, Answered, PcShape;
    var s, s0 := Run(c, acts), Start(c);
    RunInv(c, acts);
    LookupSafety.StartInv(c);
    InvShape(c, s0);
    InvShape(c, s);
    var k := s.threads[t].k;
    var ix';
    n, res, ix' := FromEnter(c, s, t, k);
    SpinEnds(c, s, t);
    n := n + 1;
    AloneIsRun(c, s, t, n);
    ExecTwice(c, s0, acts, Steps(t, n));
  }

  lemma SpinEnds(c: Config, s: State, t: nat)
    requires Shape(c, s) && t < |s.threads| && s.threads[t].Spin? && !s.rebuilding
    ensures Act(c, s, Step(t)) == Goto(s, t, Enter(s.threads[t].k))
  {
  }

  lemma NotMapped(ix: Index, k: Key)
    requires LiveUnique(Index([], ix.slots)) && !SomeLive(ix, k)
    ensures k !in ChannelMap(ix.slots)
  {
  }

  lemma MapAnswered(c: Config, s: State, s': State, k: Key, res: Option<nat>)
    requires Inv(c, s) && Inv(c, s') && Answered(s.ix, s'.ix, k, res)
    ensures LiveUnique(Index([], s.ix.slots)) && LiveUnique(Index([], s'.ix.slots))
    ensures var m := ChannelMap(s.ix.slots);
            ChannelMap(s'.ix.slots) == (if k !in m && res.Some? then m[k := res.value] else m)
            && (k in m ==> res == Some(m[k]))
  {
    assert LiveUnique(s.ix) && LiveUnique(s'.ix);
    assert LiveUnique(Index([], s.ix.slots)) && LiveUnique(Index([], s'.ix.slots));
    hide Inv, ChannelMap, LiveUnique;
    if SomeLive(s.ix, k) {
      MapAt(s.ix.slots, res.value);
    } else {
      NotMapped(s.ix, k);
      if res.Some? {
        ChannelMapAdd(s.ix.slots, k, res.value);
      }
    }
  }

  // ---- when a lookup does not end ----

  ghost predicate Searching(s: State, t: nat, k: Key) {
    && t < |s.threads| && (s.threads[t].Scan? || s.threads[t].Inspect?) && s.threads[t].k == k
    && (s.threads[t].Inspect? ==> s.threads[t].i < |s.ix.slots| && !Bears(s.ix.slots[s.threads[t].i], k))
  }

  lemma {:induction false} KeepsSearching(c: Config, s: State, t: nat, k: Key, n: nat)
    requires Shape(c, s) && Searching(s, t, k) && !SomeLive(s.ix, k) && !SomeEmpty(s.ix)
    requires ReapRace.Unclaimed(s.ix) && ChansLive(s.ix, c.maxChannels)
    ensures Searching(Alone(c, s, t, n), t, k) && Alone(c, s, t, n).ix == s.ix
    decreases n
  {
    if n > 0 {
      assert PcShape(c, s.threads[t]);
      ActShape(c, s, Step(t));
      KeepsSearching(c, Act(c, s, Step(t)), t, k, n - 1);
    }
  }

  /** With neither a channel of its key nor an empty bucket the search goes round for ever. */
  lemma LookupSpins(c: Config, acts: seq<Action>, t: nat, k: Key, n: nat)
    requires c.size >= 1
    requires var s := Run(c, acts);
             && Quiet(s) && t < |s.threads| && s.threads[t].Idle? && !SomeLive(s.ix, k) && !SomeEmpty(s.ix)
    ensures var s' := Run(c, acts + [Lookup(t, k)] + Steps(t, n)); t < |s'.threads| && !s'.threads[t].Done?
  {
    hide Exec, Inv, Act, Shape, Searching, SomeLive, SomeEmpty, ReapRace.Unclaimed;
    var s, s0 := Run(c, acts), Start(c);
    RunInv(c, acts);
    QuietTable(c, s);
    ScanStarts(c, s, t, k);
    Entered(c, s, t, k);
    LookupEnters(c, s, t, k);
    var more: seq<Action> := [Lookup(t, k)];
    LookupSafety.StartInv(c);
    InvShape(c, s0);
    ExecTwice(c, s0, acts, more);
    OneAct(c, s, Lookup(t, k));
    ExecTwice(c, s0, acts + more, Steps(t, n));
    var e, h := Goto(s, t, Enter(k)), Goto(s.(writers := s.writers + 1), t, Check(k));
    var s1 := Goto(s.(writers := s.writers + 1), t, Scan(k, 0, None));
    AloneIsRun(c, e, t, n);
    if n >= 2 {
      assert Alone(c, e, t, n) == Alone(c, h, t, n - 1) == Alone(c, s1, t, n - 2);
      StartsSearching(s1, t, k);
      KeepsSearching(c, s1, t, k, n - 2);
      NotDone(Alone(c, s1, t, n - 2), t, k);
    } else if n == 1 {
      assert Alone(c, e, t, 1) == Alone(c, h, t, 0) == h;
    }
  }

  lemma LookupEnters(c: Config, s: State, t: nat, k: Key)
    requires Shape(c, s) && t < |s.threads| && s.threads[t].Idle?
    ensures Act(c, s, Lookup(t, k)) == Goto(s, t, Enter(k))
  {
  }

  lemma StartsSearching(s: State, t: nat, k: Key)
    requires t < |s.threads| && s.threads[t] == Scan(k, 0, None)
    ensures Searching(s, t, k)
  {
  }

  lemma NotDone(s: State, t: nat, k: Key)
    requires Searching(s, t, k)
    ensures t < |s.threads| && !s.threads[t].Done?
  {
  }

  // ---- a rebuild ----

  /** Every live channel is indexed and nothing else is; the thread is idle again. */
  ghost predicate Reindexed(s: State, s': State, t: nat)
    requires t < |s.threads|
  {
    && s' == s.(ix := s'.ix, rebuilding := false, threads := s.threads[t := Idle])
    && s'.ix.slots == s.ix.slots && OnlyChans(s'.ix)
    && forall i: nat :: i < |s.ix.slots| && s.ix.slots[i].Live? ==>
         exists b :: 0 <= b < |s'.ix.buckets| && s'.ix.buckets[b] == Chan(i)
  }

  lemma ReindexedBefore(c: Config, s: State, s': State, t: nat, n: nat)
    requires Shape(c, s) && t < |s.threads| && (s.threads[t].RbTry? || Rebuilder(s.threads[t])) && !MeetsDying(s, t)
    requires var s1 := Act(c, s, Step(t));
             Shape(c, s1) && t < |s1.threads| && Alone(c, s1, t, n) == s' && Reindexed(s1, s', t)
    ensures Alone(c, s, t, n + 1) == s' && Reindexed(s, s', t)
  {
    hide PcShape, MeetsDying, OnlyChans, BucketAt;
    var s1 := Act(c, s, Step(t));
    assert s1.threads == s.threads[t := s1.threads[t]];
    assert s1.threads[t := Idle] == s.threads[t := Idle];
  }

  /** How far a rebuild is. */
  function Phase(pc: Pc): nat {
    match pc
    case RbTry => 4
    case RbWait => 3
    case RbClear(_) => 2
    case RbRelease => 0
    case _ => 1
  }

  function Rows(c: Config, pc: Pc): int {
    match pc
    case RbClear(h) => c.size - h
    case RbInsert(i) => 2 * (c.maxChannels - i) + 1
    case RbProbe(i, n) => 2 * (c.maxChannels - i)
    case _ => 0
  }

  function Probes(c: Config, pc: Pc): int { if pc.RbProbe? then c.size - pc.n else 0 }

  /** What a rebuild has inserted so far are no more buckets than channels it has looked at. */
  ghost predicate Few(s: State, pc: Pc) {
    match pc
    case RbInsert(i) => NonEmpty(s.ix.buckets) <= i
    case RbProbe(i, _) => NonEmpty(s.ix.buckets) <= i
    case _ => true
  }

  ghost predicate NoneDying(ix: Index) { forall i :: 0 <= i < |ix.slots| ==> !ix.slots[i].Dying? }

  lemma {:induction false} RebuildEnds(c: Config, s: State, t: nat) returns (n: nat, s': State)
    requires Rebuilds(c, s, t)
    ensures Alone(c, s, t, n) == s' && Reindexed(s, s', t)
    decreases Phase(s.threads[t]), Rows(c, s.threads[t]), Probes(c, s.threads[t])
  {
    hide Inv, Reindexed, Alone, NonEmpty, NoneDying, ThreadStep, MeetsDying;
    NotMeeting(s, t);
    ThreadInv(c, s, t);
    ActShape(c, s, Step(t));
    var s1 := Act(c, s, Step(t));
    if s.threads[t].RbRelease? {
      n, s' := 1, s1;
      ReleaseEnds(c, s, t);
    } else {
      RebuildMoves(c, s, t);
      n, s' := RebuildEnds(c, s1, t);
      ReindexedBefore(c, s, s', t, n);
      n := n + 1;
    }
  }

  lemma NotMeeting(s: State, t: nat)
    requires NoneDying(s.ix) && t < |s.threads|
    ensures !MeetsDying(s, t)
  {
  }

  lemma ReleaseEnds(c: Config, s: State, t: nat)
    requires Inv(c, s) && t < |s.threads| && s.threads[t].RbRelease?
    ensures Shape(c, s) && Shape(c, Act(c, s, Step(t)))
    ensures Alone(c, s, t, 1) == Act(c, s, Step(t)) && Reindexed(s, Act(c, s, Step(t)), t)
  {
    hide Links, LiveUnique, Gate;
    assert BodyOk(c, s, s.threads[t]);
    ActShape(c, s, Step(t));
    var s1 := Act(c, s, Step(t));
    assert Alone(c, s1, t, 0) == s1;
    NoPublish(c, s, t);
    hide Table, OnlyChans;
    forall i: nat | i < |s.ix.slots| && s.ix.slots[i].Live?
      ensures exists b :: 0 <= b < |s.ix.buckets| && s.ix.buckets[b] == Chan(i)
    {
      assert Placed(s, i);
    }
  }

  lemma NoPublish(c: Config, s: State, t: nat)
    requires Inv(c, s) && t < |s.threads| && InBody(s.threads[t])
    ensures forall u :: 0 <= u < |s.threads| ==> !s.threads[u].Publish?
  {
    hide Links, LiveUnique, ThreadsOk, BodiesOk, Table;
    BodyNoPublish(s, t);
  }

  predicate Further(c: Config, pc: Pc, pc1: Pc) {
    || Phase(pc1) < Phase(pc)
    || (Phase(pc1) == Phase(pc) && 0 <= Rows(c, pc1) < Rows(c, pc) && 0 <= Probes(c, pc1))
    || (Phase(pc1) == Phase(pc) && 0 <= Rows(c, pc1) == Rows(c, pc) && 0 <= Probes(c, pc1) < Probes(c, pc))
  }

  ghost predicate Moved(c: Config, s: State, t: nat, s1: State)
    requires t < |s.threads|
  {
    && Shape(c, s1) && |s1.threads| == |s.threads| && s1.writers == 0 && NoneDying(s1.ix)
    && Rebuilder(s1.threads[t]) && Few(s1, s1.threads[t]) && Further(c, s.threads[t], s1.threads[t])
  }

  ghost predicate Rebuilds(c: Config, s: State, t: nat) {
    && Inv(c, s) && Shape(c, s) && t < |s.threads| && c.maxChannels < c.size && s.writers == 0 && NoneDying(s.ix)
    && (Rebuilder(s.threads[t]) || (s.threads[t].RbTry? && !s.rebuilding)) && Few(s, s.threads[t])
  }

  /** A step before the last brings a rebuild further. */
  lemma RebuildMoves(c: Config, s: State, t: nat)
    requires Rebuilds(c, s, t) && !s.threads[t].RbRelease?
    ensures Moved(c, s, t, Act(c, s, Step(t)))
  {
    hide Links, LiveUnique, Gate, Table, AllPlaced, NonEmpty;
    if s.threads[t].RbProbe? {
      ProbeMoves(c, s, t);
    } else {
      NotMeeting(s, t);
      ActShape(c, s, Step(t));
      var pc := s.threads[t];
      assert BodyOk(c, s, pc) && PcShape(c, pc);
      if pc.RbClear? && pc.h == c.size {
        AllEmpty(s.ix.buckets);
      }
    }
  }

  lemma ProbeMoves(c: Config, s: State, t: nat)
    requires Rebuilds(c, s, t) && s.threads[t].RbProbe?
    ensures Moved(c, s, t, Act(c, s, Step(t)))
  {
    hide Links, LiveUnique, Gate, Table, AllPlaced, NonEmpty;
    ActShape(c, s, Step(t));
    var pc := s.threads[t];
    assert BodyOk(c, s, pc) && PcShape(c, pc);
    var k := s.ix.slots[pc.i].key;
    var b := EmptyExists(s.ix.buckets);
    var d := DistanceTo(c, k, b);
    assert BucketAt(c, s.ix, k, d) == Empty;
    NonEmptyUpdate(s.ix.buckets, c.Pos(k, pc.n), Chan(pc.i));
  }

  /**
   * From every reachable state with no bucket operation, no rebuild and no half-done reap under way, a
   * rebuild that is not interfered with ends with every live channel indexed and no tombstone left, and
   * changes no channel - in a table that is larger than the number of channels.
   */
  lemma RebuildIndexes(c: Config, acts: seq<Action>, t: nat) returns (n: nat)
    requires c.maxChannels < c.size
    requires var s := Run(c, acts);
             !s.rebuilding && s.writers == 0 && NoneDying(s.ix) && t < |s.threads| && s.threads[t].Idle?
    ensures var s, s' := Run(c, acts), Run(c, acts + [Rebuild(t)] + Steps(t, n));
            && s' == s.(ix := s'.ix) && s'.ix.slots == s.ix.slots && OnlyChans(s'.ix)
            && forall i: nat :: i < |s.ix.slots| && s.ix.slots[i].Live? ==>
                 exists b :: 0 <= b < |s'.ix.buckets| && s'.ix.buckets[b] == Chan(i)
  {
    hide Exec, Inv, Shape, Alone, NoneDying, Table;
    var s, s0 := Run(c, acts), Start(c);
    RunInv(c, acts);
    var more: seq<Action> := [Rebuild(t)];
    LookupSafety.StartInv(c);
    InvShape(c, s0);
    InvShape(c, s);
    ActInv(c, s, Rebuild(t));
    var s1 := Act(c, s, Rebuild(t));
    InvShape(c, s1);
    var s';
    n, s' := RebuildEnds(c, s1, t);
    ExecTwice(c, s0, acts, more);
    OneAct(c, s, Rebuild(t));
    ExecTwice(c, s0, acts + more, Steps(t, n));
    AloneIsRun(c, s1, t, n);
    assert s1.threads[t := Idle] == s.threads;
  }
}
