/**
 Container planning of the guide announcer (src/dipibcg/announce/segment.c): units
 are packed greedily into consecutive groups under two repository limits. The
 packing is proved sound and to use as few groups as any consecutive packing can;
 planning fails only when no packing into the allowed number of groups exists.
 */
module Packing {
  const REPO_MAX := 0xFFFF
  const MAX_SEGMENTS := 0xFFFF

  // Bytes of one unit in the access unit and string repositories, and its fragment count.
  datatype Unit = Unit(au: nat, str: nat, nf: nat)

  /** bitwriter_vluimsbf8_len: seven bits to the byte. */
  function VluLen(v: nat): (n: nat)
    ensures n >= 1
  {
    if v < 128 then 1 else 1 + VluLen(v / 128)
  }

  /** The first number that does not fit into n bytes of seven bits. */
  function Limit(n: nat): nat { if n == 0 then 1 else 128 * Limit(n - 1) }

  /** A number takes the fewest bytes that hold it, and at least one. */
  lemma {:induction false} VluLenIs(v: nat)
    ensures v < Limit(VluLen(v)) && (VluLen(v) > 1 ==> Limit(VluLen(v) - 1) <= v)
  {
    if v < 128 {
      assert Limit(1) == 128 * Limit(0);
    } else {
      VluLenIs(v / 128);
      assert VluLen(v) == 1 + VluLen(v / 128);
      if VluLen(v / 128) == 1 {
        assert Limit(1) == 128 * Limit(0);
      }
    }
  }

  lemma {:induction false} VluMonotone(v: nat, w: nat)
    requires v <= w
    ensures VluLen(v) <= VluLen(w)
  {
    if v >= 128 {
      VluMonotone(v / 128, w / 128);
    }
  }

  // ---- groups ----

  function Au(us: seq<Unit>, n: nat): nat
    requires n <= |us|
  {
    if n == 0 then 0 else Au(us, n - 1) + us[n - 1].au
  }

  function Str(us: seq<Unit>, n: nat): nat
    requires n <= |us|
  {
    if n == 0 then 0 else Str(us, n - 1) + us[n - 1].str
  }

  function Nf(us: seq<Unit>, n: nat): nat
    requires n <= |us|
  {
    if n == 0 then 0 else Nf(us, n - 1) + us[n - 1].nf
  }

  lemma {:induction false} SumsMonotone(us: seq<Unit>, i: nat, j: nat)
    requires i <= j <= |us|
    ensures Au(us, i) <= Au(us, j) && Str(us, i) <= Str(us, j) && Nf(us, i) <= Nf(us, j)
    decreases j
  {
    if i < j {
      SumsMonotone(us, i, j - 1);
    }
  }

  /** Units i..j-1 fit one container: the access unit with its fragment count, and the strings
      with their encoding byte. */
  predicate Fits(us: seq<Unit>, i: nat, j: nat)
    requires i <= j <= |us|
  {
    SumsMonotone(us, i, j);
    VluLen(Nf(us, j) - Nf(us, i)) + (Au(us, j) - Au(us, i)) <= REPO_MAX && 1 + (Str(us, j) - Str(us, i)) <= REPO_MAX
  }

  /** Part of a fitting group fits. */
  lemma FitsWithin(us: seq<Unit>, i: nat, j: nat, i': nat, j': nat)
    requires i <= i' <= j' <= j <= |us| && Fits(us, i, j)
    ensures Fits(us, i', j')
  {
    SumsMonotone(us, i, i');
    SumsMonotone(us, i', j');
    SumsMonotone(us, j', j);
    VluMonotone(Nf(us, j') - Nf(us, i'), Nf(us, j) - Nf(us, i));
  }

  ghost predicate GroupOk(us: seq<Unit>, bounds: seq<nat>, g: nat) {
    g + 1 < |bounds| && bounds[g] < bounds[g + 1] <= |us| && Fits(us, bounds[g], bounds[g + 1])
  }

  /** bounds[g]..bounds[g+1] are the groups: consecutive, non-empty, fitting, covering every unit
      once. */
  ghost predicate IsPacking(us: seq<Unit>, bounds: seq<nat>) {
    && |bounds| >= 1 && bounds[0] == 0 && bounds[|bounds| - 1] == |us|
    && forall g: nat :: g < |bounds| - 1 ==> GroupOk(us, bounds, g)
  }

  /** Group g was closed because the unit after it did not fit. */
  ghost predicate Closed(us: seq<Unit>, bounds: seq<nat>, g: nat) {
    g + 1 < |bounds| && bounds[g] <= bounds[g + 1] < |us| && !Fits(us, bounds[g], bounds[g + 1] + 1)
  }

  /** All groups before the one starting at the last boundary were closed that way. */
  ghost predicate Greedy(us: seq<Unit>, bounds: seq<nat>) {
    |bounds| >= 1 && bounds[0] == 0 && forall g: nat :: g < |bounds| - 1 ==> Closed(us, bounds, g)
  }

  /** The greedy boundary is never behind that of any other packing. */
  lemma {:induction false} StaysAhead(us: seq<Unit>, greedy: seq<nat>, other: seq<nat>, g: nat)
    requires Greedy(us, greedy) && IsPacking(us, other) && g < |greedy| && g < |other|
    ensures other[g] <= greedy[g]
  {
    if g > 0 {
      StaysAhead(us, greedy, other, g - 1);
      assert Closed(us, greedy, g - 1) && GroupOk(us, other, g - 1);
      if other[g] > greedy[g] {
        FitsWithin(us, other[g - 1], other[g], greedy[g - 1], greedy[g] + 1);
      }
    }
  }

  /** While units are left after the last greedy boundary, every packing has at least as many
      groups as there are boundaries. */
  lemma NoFewer(us: seq<Unit>, greedy: seq<nat>, other: seq<nat>)
    requires Greedy(us, greedy) && greedy[|greedy| - 1] < |us| && IsPacking(us, other)
    ensures |other| - 1 >= |greedy|
  {
    var m := |other| - 1;
    if m < |greedy| {
      StaysAhead(us, greedy, other, m);
      GreedyBound(us, greedy, m);
    }
  }

  lemma {:induction false} GreedyBound(us: seq<Unit>, greedy: seq<nat>, g: nat)
    requires Greedy(us, greedy) && g < |greedy|
    ensures greedy[g] <= greedy[|greedy| - 1]
    decreases |greedy| - g
  {
    if g < |greedy| - 1 {
      assert Closed(us, greedy, g);
      GreedyBound(us, greedy, g + 1);
    }
  }

  datatype Plan = Packed(bounds: seq<nat>) | TooLarge(unit_: nat) | TooMany

  /** plan_bounds with plan_unit: consecutive units join the running group while they fit. */
  method PlanBounds(us: seq<Unit>) returns (r: Plan)
    ensures us == [] ==> r == Packed([0, 0])
    ensures us != [] && r.Packed? ==> IsPacking(us, r.bounds) && |r.bounds| - 1 <= MAX_SEGMENTS
    ensures us != [] && r.Packed? ==> forall other :: IsPacking(us, other) ==> |other| >= |r.bounds|
    ensures r.TooLarge? ==> r.unit_ < |us| && !Fits(us, r.unit_, r.unit_ + 1)
    ensures !r.Packed? ==> forall other :: IsPacking(us, other) ==> |other| - 1 > MAX_SEGMENTS
  {
    var b: seq<nat> := [0];
    var au: nat, str: nat, nf: nat := 0, 0, 0;
    hide Fits, VluLen, IsPacking, Au, Str, Nf;
    NoUnits(us);
    for c := 0 to |us|
      invariant Greedy(us, b) && |b| <= MAX_SEGMENTS && b[|b| - 1] <= c
      invariant c > 0 ==> b[|b| - 1] < c && Fits(us, b[|b| - 1], c)
      invariant c == 0 ==> b == [0]
      invariant Running(us, b[|b| - 1], c, au, str, nf)
      invariant forall g: nat :: g < |b| - 1 ==> GroupOk(us, b, g)
    {
      var u := us[c];
      AloneTest(us, c);
      if VluLen(u.nf) + u.au > REPO_MAX || 1 + u.str > REPO_MAX {
        NoPacking(us, c);
        return TooLarge(c);
      }
      JoinTest(us, b[|b| - 1], c, au, str, nf);
      if c > 0 && (VluLen(nf + u.nf) + au + u.au > REPO_MAX || 1 + str + u.str > REPO_MAX) {
        GreedyExtend(us, b, c);
        if |b| >= MAX_SEGMENTS {
          forall other | IsPacking(us, other) ensures |other| - 1 > MAX_SEGMENTS { NoFewer(us, b + [c], other); }
          return TooMany;
        }
        GroupsExtend(us, b, c);
        b := b + [c];
        au, str, nf := 0, 0, 0;
        JoinTest(us, c, c, 0, 0, 0);
      }
      au, str, nf := au + u.au, str + u.str, nf + u.nf;
    }
    if us != [] {
      GroupsExtend(us, b, |us|);
      PackingDone(us, b + [|us|]);
      forall other | IsPacking(us, other) ensures |other| >= |b| + 1 { NoFewer(us, b, other); }
    }
    r := Packed(b + [|us|]);
  }

  lemma PackingDone(us: seq<Unit>, b: seq<nat>)
    requires |b| >= 1 && b[0] == 0 && b[|b| - 1] == |us| && forall g: nat :: g < |b| - 1 ==> GroupOk(us, b, g)
    ensures IsPacking(us, b)
  {}

  lemma GroupsExtend(us: seq<Unit>, b: seq<nat>, c: nat)
    requires |b| >= 1 && (forall g: nat :: g < |b| - 1 ==> GroupOk(us, b, g)) && b[|b| - 1] < c <= |us|
             && Fits(us, b[|b| - 1], c)
    ensures forall g: nat :: g < |b| ==> GroupOk(us, b + [c], g)
  {
    hide Fits;
    forall g: nat | g < |b| ensures GroupOk(us, b + [c], g) {
      if g < |b| - 1 { assert GroupOk(us, b, g); }
    }
  }

  /** plan_t: the sums of the running group i..c-1. */
  ghost predicate Running(us: seq<Unit>, i: nat, c: nat, au: nat, str: nat, nf: nat) {
    && i <= c <= |us|
    && au == Au(us, c) - Au(us, i) && str == Str(us, c) - Str(us, i) && nf == Nf(us, c) - Nf(us, i)
  }

  lemma NoUnits(us: seq<Unit>)
    ensures Running(us, 0, 0, 0, 0, 0)
  {}

  lemma AloneTest(us: seq<Unit>, c: nat)
    requires c < |us|
    ensures Fits(us, c, c + 1) <==> VluLen(us[c].nf) + us[c].au <= REPO_MAX && 1 + us[c].str <= REPO_MAX
  {
    hide VluLen;
  }

  lemma JoinTest(us: seq<Unit>, i: nat, c: nat, au: nat, str: nat, nf: nat)
    requires c < |us| && Running(us, i, c, au, str, nf)
    ensures Fits(us, i, c + 1) <==> VluLen(nf + us[c].nf) + au + us[c].au <= REPO_MAX && 1 + str + us[c].str <= REPO_MAX
    ensures Running(us, i, c + 1, au + us[c].au, str + us[c].str, nf + us[c].nf)
    ensures Running(us, c, c, 0, 0, 0)
  {
    hide VluLen;
  }

  lemma GreedyExtend(us: seq<Unit>, b: seq<nat>, c: nat)
    requires Greedy(us, b) && b[|b| - 1] < c < |us| && !Fits(us, b[|b| - 1], c + 1)
    ensures Greedy(us, b + [c])
  {
    forall g: nat | g < |b| ensures Closed(us, b + [c], g) {
      if g < |b| - 1 { assert Closed(us, b, g); }
    }
  }

  /** In any packing every unit fits alone. */
  lemma UnitFits(us: seq<Unit>, other: seq<nat>, c: nat)
    requires IsPacking(us, other) && c < |us|
    ensures Fits(us, c, c + 1)
  {
    var g := GroupOf(us, other, c, 0);
    assert GroupOk(us, other, g);
    FitsWithin(us, other[g], other[g + 1], c, c + 1);
  }

  lemma NoPacking(us: seq<Unit>, c: nat)
    requires c < |us| && !Fits(us, c, c + 1)
    ensures forall other :: !IsPacking(us, other)
  {
    forall other ensures !IsPacking(us, other) {
      if IsPacking(us, other) { UnitFits(us, other, c); }
    }
  }

  lemma {:induction false} GroupOf(us: seq<Unit>, other: seq<nat>, c: nat, from: nat) returns (g: nat)
    requires IsPacking(us, other) && c < |us| && from < |other| && other[from] <= c
    ensures g < |other| - 1 && other[g] <= c < other[g + 1]
    decreases |other| - from
  {
    if c < other[from + 1] {
      g := from;
    } else {
      g := GroupOf(us, other, c, from + 1);
    }
  }
}
