/**
 * Fragment identities of the guide announcer (src/dipibcg/announce/doc.c).
 *
 * Every fragment of a guide has a key. The announcer remembers, from build to build, the
 * identifier and the content version handed out for a key, in an array sorted by key. The
 * specification is a map; the class below is the sorted array.
 */
module Fragments {
  import opened Wrappers

  type Bytes = seq<nat>

  const BASE_MAX := 835
  const KEY_MAX := 847
  const ID_MAX := 0xFF_FFFF

  // ----- Content versions -----

  datatype Version = Version(number: nat, unsent: bool, last: Option<Bytes>)

  const Unset := Version(0, false, None)

  /** Unchanged content keeps its version; new content advances it and is marked unsent. */
  function SetVersion(v: Version, content: Bytes, wrap: nat): (r: Version)
    requires wrap > 0
    ensures r.last == Some(content)
    ensures r == v <==> v.last == Some(content)
    ensures v.last != Some(content) ==> r.unsent && r.number == (v.number + 1) % wrap
  {
    if v.last == Some(content) then v else Version((v.number + 1) % wrap, true, Some(content))
  }

  // ----- Keys: the base, and for the n-th fragment of one base in a build "#n" -----

  function Digits(n: nat): (s: string)
    ensures |s| > 0
  {
    if n < 10 then ['0' + n as char] else Digits(n / 10) + ['0' + (n % 10) as char]
  }

  function Value(s: string): int {
    if s == [] then 0 else 10 * Value(s[..|s| - 1]) + (s[|s| - 1] as int - '0' as int)
  }

  lemma {:induction false} ValueOfDigits(n: nat)
    ensures Value(Digits(n)) == n
  {
    if n >= 10 {
      ValueOfDigits(n / 10);
      assert Digits(n)[..|Digits(n)| - 1] == Digits(n / 10);
    } else {
      assert Digits(n)[..0] == [];
      assert Value(Digits(n)[..0]) == 0;
    }
  }

  function Suffixed(base: string, dup: nat): string {
    if dup <= 1 then base else base + "#" + Digits(dup)
  }

  lemma SuffixedInjective(base: string, d: nat, e: nat)
    requires 1 <= d && 1 <= e && Suffixed(base, d) == Suffixed(base, e)
    ensures d == e
  {
    if d > 1 && e > 1 {
      assert Suffixed(base, d)[|base| + 1..] == Digits(d);
      assert Suffixed(base, e)[|base| + 1..] == Digits(e);
      ValueOfDigits(d);
      ValueOfDigits(e);
    }
  }

  // ----- The table -----

  datatype Frag = Frag(id: nat, gen: nat, ver: Version)

  /** `next`: last identifier handed out; `gen`: number of the current build. */
  datatype Table = Table(frags: map<string, Frag>, next: nat, gen: nat)

  ghost function Tried(base: string, dup: nat): set<string> {
    set d: nat | 1 <= d < dup :: Suffixed(base, d)
  }

  predicate Emitted(t: Table, key: string) {
    key in t.frags && t.frags[key].gen == t.gen
  }

  lemma TriedGrows(keys: set<string>, base: string, dup: nat)
    requires 1 <= dup && Suffixed(base, dup) in keys
    ensures |keys - Tried(base, dup + 1)| < |keys - Tried(base, dup)|
  {
    var k := Suffixed(base, dup);
    if k in Tried(base, dup) {
      var d: nat :| 1 <= d < dup && Suffixed(base, d) == k;
      SuffixedInjective(base, d, dup);
    }
    assert Tried(base, dup + 1) == Tried(base, dup) + {k};
    assert keys - Tried(base, dup) == (keys - Tried(base, dup + 1)) + {k};
  }

  /** The first of base, base#2, base#3, ... that this build has not emitted yet. */
  function FreeKey(t: Table, base: string, dup: nat): (k: Option<string>)
    requires 1 <= dup
    ensures k.Some? ==> !Emitted(t, k.value) && |k.value| <= KEY_MAX
    decreases |t.frags.Keys - Tried(base, dup)|
  {
    var k := Suffixed(base, dup);
    if |k| > KEY_MAX then None
    else if Emitted(t, k) then
      TriedGrows(t.frags.Keys, base, dup);
      FreeKey(t, base, dup + 1)
    else Some(k)
  }

  /** The first of base, base#2, base#3, ... that is not among the keys `used`. */
  ghost function FreshKey(used: set<string>, base: string, dup: nat): (k: string)
    requires 1 <= dup
    ensures k !in used && |k| >= |base| && k[..|base|] == base && (|k| > |base| ==> k[|base|] == '#')
    decreases |used - Tried(base, dup)|
  {
    var k := Suffixed(base, dup);
    if k in used then
      TriedGrows(used, base, dup);
      FreshKey(used, base, dup + 1)
    else k
  }

  /** The search over suffixes, when exactly the keys `used` of those it meets were emitted. */
  lemma {:induction false} FreeKeyIsFresh(t: Table, used: set<string>, base: string, dup: nat)
    requires 1 <= dup && (forall k :: k in used ==> Emitted(t, k)) && !Emitted(t, FreshKey(used, base, dup))
    ensures FreeKey(t, base, dup).Some? ==> FreeKey(t, base, dup) == Some(FreshKey(used, base, dup))
    ensures (forall k :: k in used ==> |k| <= KEY_MAX) && |FreshKey(used, base, dup)| <= KEY_MAX ==>
            FreeKey(t, base, dup).Some?
    decreases |used - Tried(base, dup)|
  {
    if Suffixed(base, dup) in used {
      TriedGrows(used, base, dup);
      FreeKeyIsFresh(t, used, base, dup + 1);
    }
  }

  datatype Marked = Marked(table: Table, key: Option<string>)

  /** The fragment of a key, made if it is new, counted as emitted by this build. */
  function Mark(t: Table, base: string): Marked {
    if |base| > BASE_MAX then Marked(t, None)
    else
      var k := FreeKey(t, base, 1);
      if k.None? then Marked(t, None)
      else if k.value in t.frags then
        Marked(t.(frags := t.frags[k.value := t.frags[k.value].(gen := t.gen)]), k)
      else if t.next >= ID_MAX then Marked(t, None)
      else Marked(Table(t.frags[k.value := Frag(t.next + 1, t.gen, Unset)], t.next + 1, t.gen), k)
  }

  function Record(t: Table, key: string, content: Bytes): Table
    requires key in t.frags
  {
    var f := t.frags[key];
    t.(frags := t.frags[key := f.(ver := SetVersion(f.ver, content, 255))])
  }

  /** Fragments no longer part of the guide are forgotten. */
  function Prune(t: Table): Table {
    t.(frags := map k | k in t.frags && t.frags[k].gen == t.gen :: t.frags[k])
  }

  // ----- Identifiers are never shared, nor used twice -----

  ghost predicate TableOk(t: Table) {
    && (forall k :: k in t.frags ==> 1 <= t.frags[k].id <= t.next && t.frags[k].gen <= t.gen)
    && (forall k, l :: k in t.frags && l in t.frags && t.frags[k].id == t.frags[l].id ==> k == l)
  }

  lemma MarkOk(t: Table, base: string)
    requires TableOk(t)
    ensures TableOk(Mark(t, base).table)
    ensures Mark(t, base).table.gen == t.gen && t.next <= Mark(t, base).table.next
  {
    var k := FreeKey(t, base, 1);
    hide FreeKey;
  }

  lemma RecordOk(t: Table, key: string, content: Bytes)
    requires TableOk(t) && key in t.frags
    ensures TableOk(Record(t, key, content))
  {
  }

  lemma PruneOk(t: Table)
    requires TableOk(t)
    ensures TableOk(Prune(t))
  {
  }

  /** A base not yet emitted is its own key. */
  lemma MarkPlain(t: Table, base: string)
    requires !Emitted(t, base)
    ensures Mark(t, base).key.Some? ==> Mark(t, base).key == Some(base)
  {
  }

  /**
   * Why containers must not share a key: the second fragment of a base in one build, when the next
   * build marks it first, is taken for the first one and gets another identifier.
   */
  lemma SecondOfBaseDrifts(t: Table, base: string)
    requires TableOk(t) && !Emitted(t, base)
    requires Mark(t, base).key.Some? && Mark(Mark(t, base).table, base).key.Some?
    ensures var m := Mark(Mark(t, base).table, base);
            var later := m.table.(gen := m.table.gen + 1);
            && m.key.value in later.frags
            && Mark(later, base).key == Some(base)
            && Mark(later, base).table.frags[base].id != later.frags[m.key.value].id
  {
    var m1 := Mark(t, base);
    MarkPlain(t, base);
    MarkOk(t, base);
    var m := Mark(m1.table, base);
    MarkOk(m1.table, base);
    assert Emitted(m1.table, base);
    assert m.key.value != base;
    assert base in m.table.frags && m.key.value in m.table.frags;
  }

  /** Identifiers are not used again: a forgotten fragment comes back under a new one. */
  lemma ForgottenGetsNewId(t: Table, base: string)
    requires TableOk(t) && base in t.frags && !Emitted(t, base) && Mark(Prune(t), base).key.Some?
    ensures Mark(Prune(t), base).key == Some(base)
    ensures forall k :: k in t.frags ==> t.frags[k].id < Mark(Prune(t), base).table.frags[base].id
  {
  }

  // ----- Order of keys: strcmp -----

  predicate Less(a: string, b: string) {
    if a == [] then b != []
    else if b == [] then false
    else a[0] < b[0] || (a[0] == b[0] && Less(a[1..], b[1..]))
  }

  lemma {:induction false} LessTrans(a: string, b: string, c: string)
    requires Less(a, b) && Less(b, c)
    ensures Less(a, c)
  {
    if a != [] && a[0] == b[0] == c[0] {
      LessTrans(a[1..], b[1..], c[1..]);
    }
  }

  lemma {:induction false} LessTotal(a: string, b: string)
    ensures Less(a, b) || a == b || Less(b, a)
  {
    if a != [] && b != [] && a[0] == b[0] {
      LessTotal(a[1..], b[1..]);
      assert a == [a[0]] + a[1..] && b == [b[0]] + b[1..];
    }
  }

  lemma {:induction false} LessIrreflexive(a: string)
    ensures !Less(a, a)
  {
    if a != [] {
      LessIrreflexive(a[1..]);
    }
  }

  datatype Entry = Entry(key: string, frag: Frag)

  ghost predicate Sorted(list: seq<Entry>) {
    forall i, j :: 0 <= i < j < |list| ==> Less(list[i].key, list[j].key)
  }

  /** The array holds exactly the map. */
  ghost predicate Holds(list: seq<Entry>, m: map<string, Frag>) {
    && (forall i :: 0 <= i < |list| ==> list[i].key in m && m[list[i].key] == list[i].frag)
    && (forall k :: k in m ==> exists i :: 0 <= i < |list| && list[i].key == k)
  }

  lemma SortedDistinct(list: seq<Entry>, i: nat, j: nat)
    requires Sorted(list) && i < |list| && j < |list| && list[i].key == list[j].key
    ensures i == j
  {
    LessIrreflexive(list[i].key);
  }

  /** Where a key belongs in the array. */
  ghost predicate Splits(list: seq<Entry>, key: string, pos: nat) {
    && pos <= |list|
    && (forall i :: 0 <= i < pos ==> Less(list[i].key, key))
    && (forall i :: pos <= i < |list| ==> Less(key, list[i].key))
  }

  lemma SplitsAbsent(list: seq<Entry>, m: map<string, Frag>, key: string, pos: nat)
    requires Holds(list, m) && Splits(list, key, pos)
    ensures key !in m
  {
    LessIrreflexive(key);
  }

  function Inserted(list: seq<Entry>, pos: nat, e: Entry): seq<Entry>
    requires pos <= |list|
  {
    list[..pos] + [e] + list[pos..]
  }

  lemma InsertHolds(list: seq<Entry>, m: map<string, Frag>, pos: nat, e: Entry)
    requires Sorted(list) && Holds(list, m) && Splits(list, e.key, pos)
    ensures Sorted(Inserted(list, pos, e)) && Holds(Inserted(list, pos, e), m[e.key := e.frag])
  {
    hide Less;
    var r := Inserted(list, pos, e);
    SplitsAbsent(list, m, e.key, pos);
    var m2 := m[e.key := e.frag];
    forall k | k in m2 ensures exists i :: 0 <= i < |r| && r[i].key == k {
      if k == e.key {
        assert r[pos].key == k;
      } else {
        var i :| 0 <= i < |list| && list[i].key == k;
        assert r[if i < pos then i else i + 1].key == k;
      }
    }
  }

  lemma UpdateHolds(list: seq<Entry>, m: map<string, Frag>, pos: nat, f: Frag)
    requires Sorted(list) && Holds(list, m) && pos < |list|
    ensures Sorted(list[pos := Entry(list[pos].key, f)])
    ensures Holds(list[pos := Entry(list[pos].key, f)], m[list[pos].key := f])
  {
    hide Less;
    var k0 := list[pos].key;
    var r := list[pos := Entry(k0, f)];
    assert forall i :: 0 <= i < |list| ==> r[i].key == list[i].key;
    forall i | 0 <= i < |r| && i != pos ensures r[i].key != k0 {
      if r[i].key == k0 {
        SortedDistinct(list, i, pos);
      }
    }
    var m2 := m[k0 := f];
    forall k | k in m2 ensures exists i :: 0 <= i < |r| && r[i].key == k {
      var i :| 0 <= i < |list| && list[i].key == k;
      assert r[i].key == k;
    }
  }

  class FragmentList {
    var list: seq<Entry>
    var next: nat
    var gen: nat
    ghost var frags: map<string, Frag>

    ghost predicate Valid()
      reads this
    {
      Sorted(list) && Holds(list, frags)
    }

    ghost function Abs(): Table
      reads this
    {
      Table(frags, next, gen)
    }

    constructor ()
      ensures Valid() && Abs() == Table(map[], 0, 0)
    {
      list, next, gen, frags := [], 0, 0, map[];
    }

    /** Binary search. */
    method Find(key: string) returns (pos: nat, found: bool)
      requires Valid()
      ensures found <==> key in frags
      ensures found ==> pos < |list| && list[pos].key == key
      ensures !found ==> Splits(list, key, pos)
    {
      hide Less;
      var lo, hi := 0, |list|;
      while lo < hi
        invariant 0 <= lo <= hi <= |list|
        invariant forall i :: 0 <= i < lo ==> Less(list[i].key, key)
        invariant forall i :: hi <= i < |list| ==> Less(key, list[i].key)
      {
        var mid := lo + (hi - lo) / 2;
        if list[mid].key == key {
          return mid, true;
        }
        LessTotal(list[mid].key, key);
        if Less(list[mid].key, key) {
          forall i | 0 <= i < mid ensures Less(list[i].key, key) {
            LessTrans(list[i].key, list[mid].key, key);
          }
          lo := mid + 1;
        } else {
          forall i | mid < i < |list| ensures Less(key, list[i].key) {
            LessTrans(key, list[mid].key, list[i].key);
          }
          hi := mid;
        }
      }
      SplitsAbsent(list, frags, key, lo);
      return lo, false;
    }

    /** The search loop of `frag_get`: the first key of the base this build has not emitted. */
    method Locate(base: string) returns (key: Option<string>, pos: nat, found: bool)
      requires Valid()
      ensures key == FreeKey(Abs(), base, 1)
      ensures key.Some? ==> (found <==> key.value in frags)
      ensures key.Some? && found ==> pos < |list| && list[pos].key == key.value
      ensures key.Some? && !found ==> Splits(list, key.value, pos)
    {
      hide Sorted, Holds, Suffixed, Splits;
      var dup := 1;
      while true
        invariant 1 <= dup && FreeKey(Abs(), base, 1) == FreeKey(Abs(), base, dup)
        decreases |frags.Keys - Tried(base, dup)|
      {
        var k := Suffixed(base, dup);
        if |k| > KEY_MAX {
          return None, 0, false;
        }
        pos, found := Find(k);
        if found {
          HeldAt(list, frags, pos);
        }
        if !found || list[pos].frag.gen != gen {
          return Some(k), pos, found;
        }
        TriedGrows(frags.Keys, base, dup);
        dup := dup + 1;
      }
    }

    /** `frag_get`: on success the entry's position. */
    method Get(base: string) returns (pos: nat, ok: bool)
      requires Valid()
      modifies this
      ensures Valid()
      ensures Abs() == Mark(old(Abs()), base).table
      ensures ok <==> Mark(old(Abs()), base).key.Some?
      ensures ok ==> pos < |list| && Some(list[pos].key) == Mark(old(Abs()), base).key
    {
      hide Sorted, Holds, FreeKey, Splits;
      if |base| > BASE_MAX {
        return 0, false;
      }
      var key, at, found := Locate(base);
      if key.None? {
        return 0, false;
      }
      pos := at;
      if !found {
        assert pos <= |list| by { SplitsBound(list, key.value, pos); }
        if next >= ID_MAX {
          return 0, false;
        }
        next := next + 1;
        var e := Entry(key.value, Frag(next, gen, Unset));
        InsertHolds(list, frags, pos, e);
        list := Inserted(list, pos, e);
        frags := frags[key.value := e.frag];
      } else {
        var f := list[pos].frag.(gen := gen);
        HeldAt(list, frags, pos);
        UpdateHolds(list, frags, pos, f);
        list := list[pos := Entry(key.value, f)];
        frags := frags[key.value := f];
      }
      return pos, true;
    }

    /** The content of the fragment at `pos`. */
    method SetContent(pos: nat, content: Bytes)
      requires Valid() && pos < |list|
      modifies this`list, this`frags
      ensures Valid() && |list| == old(|list|) && list[pos].key in old(frags)
      ensures list[pos].key == old(list[pos].key)
      ensures Abs() == Record(old(Abs()), list[pos].key, content)
    {
      hide Sorted;
      var e := list[pos];
      var f := e.frag.(ver := SetVersion(e.frag.ver, content, 255));
      UpdateHolds(list, frags, pos, f);
      list := list[pos := Entry(e.key, f)];
      frags := frags[e.key := f];
    }

    /** `frag_prune`: in-place compaction. */
    method PruneAll()
      requires Valid()
      modifies this`list, this`frags
      ensures Valid() && Abs() == Prune(old(Abs()))
    {
      hide Sorted, Holds;
      var kept: seq<Entry> := [];
      var i := 0;
      while i < |list|
        invariant 0 <= i <= |list|
        invariant kept == Emits(list[..i], gen)
      {
        assert list[..i + 1][..i] == list[..i];
        if list[i].frag.gen == gen {
          kept := kept + [list[i]];
        }
        i := i + 1;
      }
      assert list[..i] == list;
      EmitsHolds(list, Abs());
      frags := Prune(Abs()).frags;
      list := kept;
    }
  }

  /** The entries of build `gen`, in order. */
  function Emits(list: seq<Entry>, gen: nat): seq<Entry> {
    if list == [] then []
    else
      var e := list[|list| - 1];
      Emits(list[..|list| - 1], gen) + (if e.frag.gen == gen then [e] else [])
  }

  lemma {:induction false} EmitsMembers(list: seq<Entry>, gen: nat)
    ensures forall e :: e in Emits(list, gen) <==> e in list && e.frag.gen == gen
  {
    if list != [] {
      EmitsMembers(list[..|list| - 1], gen);
      assert list == list[..|list| - 1] + [list[|list| - 1]];
    }
  }

  lemma {:induction false} EmitsSorted(list: seq<Entry>, gen: nat)
    requires Sorted(list)
    ensures Sorted(Emits(list, gen))
  {
    hide Less;
    if list != [] {
      var front := list[..|list| - 1];
      EmitsSorted(front, gen);
      EmitsMembers(front, gen);
      var r := Emits(front, gen);
      forall i | 0 <= i < |r| ensures Less(r[i].key, list[|list| - 1].key) {
        assert r[i] in front;
      }
    }
  }

  lemma EmitsHolds(list: seq<Entry>, t: Table)
    requires Sorted(list) && Holds(list, t.frags)
    ensures Sorted(Emits(list, t.gen)) && Holds(Emits(list, t.gen), Prune(t).frags)
  {
    hide Sorted, Emits;
    EmitsSorted(list, t.gen);
    var r := Emits(list, t.gen);
    forall i | 0 <= i < |r| ensures r[i].key in Prune(t).frags && Prune(t).frags[r[i].key] == r[i].frag {
      EmittedKept(list, t, i);
    }
    forall k | k in Prune(t).frags ensures exists i :: 0 <= i < |r| && r[i].key == k {
      var i := KeptEmitted(list, t, k);
      assert r[i].key == k;
    }
  }

  lemma EmittedKept(list: seq<Entry>, t: Table, i: nat)
    requires Sorted(list) && Holds(list, t.frags) && i < |Emits(list, t.gen)|
    ensures var e := Emits(list, t.gen)[i]; e.key in Prune(t).frags && Prune(t).frags[e.key] == e.frag
  {
    hide Sorted, Emits;
    EmitsMembers(list, t.gen);
    var e := Emits(list, t.gen)[i];
    assert e in list;
    var j :| 0 <= j < |list| && list[j] == e;
  }

  lemma KeptEmitted(list: seq<Entry>, t: Table, k: string) returns (i: nat)
    requires Sorted(list) && Holds(list, t.frags) && k in Prune(t).frags
    ensures i < |Emits(list, t.gen)| && Emits(list, t.gen)[i].key == k
  {
    hide Sorted, Emits;
    EmitsMembers(list, t.gen);
    var r := Emits(list, t.gen);
    var j :| 0 <= j < |list| && list[j].key == k;
    assert list[j] in r;
    i :| 0 <= i < |r| && r[i] == list[j];
  }

  lemma SplitsBound(list: seq<Entry>, key: string, pos: nat)
    requires Splits(list, key, pos)
    ensures pos <= |list|
  {
  }

  lemma HeldAt(list: seq<Entry>, m: map<string, Frag>, pos: nat)
    requires Holds(list, m) && pos < |list|
    ensures list[pos].key in m && m[list[pos].key] == list[pos].frag
  {
  }
}
