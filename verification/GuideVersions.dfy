/**
 * When a fragment's version moves (src/dipibcg/announce/doc.c): exactly when the bytes encoded for it
 * are others than those recorded, modulo 255. Between them the fragments of a container hold every
 * byte of its encoded body.
 */
module GuideVersions {
  import opened Wrappers
  import opened Fragments
  import opened Guide
  import opened GuideReuse

  // ----- The bytes of a fragment -----

  /** Fragments begin and end at the same places. */
  ghost predicate SameLayout(u: Unit, u': Unit) {
    u.offs == u'.offs && |u.au| == |u'.au| && |u.strs| == |u'.strs|
  }

  lemma PieceParts(u: Unit, u': Unit, i: nat)
    requires UnitOk(u, |u.offs|) && UnitOk(u', |u'.offs|) && SameLayout(u, u') && i < |u.offs|
    requires Piece(u, i) == Piece(u', i)
    ensures u.au[u.offs[i].au..AuEnd(u, i)] == u'.au[u.offs[i].au..AuEnd(u, i)]
    ensures u.strs[u.offs[i].str..StrEnd(u, i)] == u'.strs[u.offs[i].str..StrEnd(u, i)]
  {
    var a, s := u.au[u.offs[i].au..AuEnd(u, i)], u.strs[u.offs[i].str..StrEnd(u, i)];
    var a', s' := u'.au[u.offs[i].au..AuEnd(u, i)], u'.strs[u.offs[i].str..StrEnd(u, i)];
    assert (a + s)[..|a|] == a && (a' + s')[..|a|] == a' && (a + s)[|a|..] == s && (a' + s')[|a|..] == s';
  }

  lemma {:induction false} PiecesTile(u: Unit, u': Unit, n: nat)
    requires UnitOk(u, |u.offs|) && UnitOk(u', |u'.offs|) && SameLayout(u, u') && 0 < n <= |u.offs|
    requires u.offs[0] == Offset(0, 0) && forall i :: 0 <= i < n ==> Piece(u, i) == Piece(u', i)
    ensures u.au[..AuEnd(u, n - 1)] == u'.au[..AuEnd(u, n - 1)]
    ensures u.strs[..StrEnd(u, n - 1)] == u'.strs[..StrEnd(u, n - 1)]
  {
    hide Piece, UnitOk;
    EndsAt(u, n - 1);
    EndsAt(u', n - 1);
    PieceParts(u, u', n - 1);
    if n > 1 {
      PiecesTile(u, u', n - 1);
      EndsAt(u, n - 2);
      JoinPrefix(u.au, u'.au, u.offs[n - 1].au, AuEnd(u, n - 1));
      JoinPrefix(u.strs, u'.strs, u.offs[n - 1].str, StrEnd(u, n - 1));
    }
  }

  lemma EndsAt(u: Unit, i: nat)
    requires UnitOk(u, |u.offs|) && i < |u.offs|
    ensures u.offs[i].au <= AuEnd(u, i) <= |u.au| && u.offs[i].str <= StrEnd(u, i) <= |u.strs|
    ensures i + 1 < |u.offs| ==> AuEnd(u, i) == u.offs[i + 1].au && StrEnd(u, i) == u.offs[i + 1].str
  {
  }

  lemma JoinPrefix(x: Bytes, y: Bytes, a: nat, b: nat)
    requires a <= b <= |x| && b <= |y| && x[..a] == y[..a] && x[a..b] == y[a..b]
    ensures x[..b] == y[..b]
  {
    assert x[..b] == x[..a] + x[a..b] && y[..b] == y[..a] + y[a..b];
  }

  lemma SameBodies(u: Unit, u': Unit)
    requires UnitOk(u, |u.offs|) && UnitOk(u', |u'.offs|) && SameLayout(u, u')
    requires u.offs != [] && u.offs[0] == Offset(0, 0) && forall i :: 0 <= i < |u.offs| ==> Piece(u, i) == Piece(u', i)
    ensures u.au == u'.au && u.strs == u'.strs
  {
    PiecesTile(u, u', |u.offs|);
    hide Piece, UnitOk;
    assert u.au[..|u.au|] == u.au && u'.au[..|u.au|] == u'.au;
    assert u.strs[..|u.strs|] == u.strs && u'.strs[..|u.strs|] == u'.strs;
  }

  /** An encoded body of the same layout that differs anywhere differs in some fragment. */
  lemma EveryByteCounts(u: Unit, u': Unit) returns (i: nat)
    requires UnitOk(u, |u.offs|) && UnitOk(u', |u'.offs|) && SameLayout(u, u')
    requires u.offs != [] && u.offs[0] == Offset(0, 0) && (u.au != u'.au || u.strs != u'.strs)
    ensures i < |u.offs| && Piece(u, i) != Piece(u', i)
  {
    var n := |u.offs|;
    if forall i :: 0 <= i < n ==> Piece(u, i) == Piece(u', i) { SameBodies(u, u'); }
    i :| 0 <= i < n && Piece(u, i) != Piece(u', i);
  }

  // ----- The version of a fragment -----

  /** The number a fragment gets for this content. */
  ghost function NextNumber(t: Table, k: string, content: Bytes): nat {
    if k !in t.frags then 1
    else if t.frags[k].ver.last == Some(content) then t.frags[k].ver.number
    else (t.frags[k].ver.number + 1) % 255
  }

  lemma MarkKeepsVersion(t: Table, base: string)
    ensures var m := Mark(t, base);
            m.key.Some? ==>
              && m.key.value in m.table.frags
              && m.table.frags[m.key.value].ver == if m.key.value in t.frags then t.frags[m.key.value].ver else Unset
  {
    hide FreeKey;
  }

  lemma RecordMoves(t: Table, k: string, content: Bytes, old_: Table)
    requires k in t.frags && t.frags[k].ver == if k in old_.frags then old_.frags[k].ver else Unset
    ensures k in Record(t, k, content).frags
            && Record(t, k, content).frags[k].ver.number == NextNumber(old_, k, content)
  {
  }

  /**
   * Encoding a container: a new fragment gets version 1, a known one keeps its version when its bytes
   * are those recorded and takes the next, modulo 255, when they are not.
   */
  lemma VersionMoves(t: Table, doc: Doc, refs: seq<Ref>, u: Unit, n: nat, i: nat)
    requires i < n <= |refs| && UnitOk(u, |refs|) && Unmarked(t, Keys(doc, refs, |refs|))
    requires Walk(t, doc, refs, Some(u), n).ok
    ensures |u.offs| == |refs| && |Walk(t, doc, refs, Some(u), n).refs| == n
    ensures Walk(t, doc, refs, Some(u), n).refs[i].version == NextNumber(t, Key(doc, refs, i), Piece(u, i))
    decreases n
  {
    hide Mark, Record, Base, Piece, Key, Keys, SameOutside, Unmarked, AllEmitted, NextNumber;
    if i < n - 1 {
      VersionMoves(t, doc, refs, u, n - 1, i);
    } else {
      WalkFrame(t, doc, refs, Some(u), n - 1);
      var w := Walk(t, doc, refs, Some(u), n - 1);
      var key := Key(doc, refs, n - 1);
      MarkNext(t, w.table, doc, refs, n);
      LastKey(doc, refs, n);
      MarkKeepsVersion(w.table, Base(doc, refs[n - 1]));
      OutsideAt(t, w.table, Keys(doc, refs, n - 1), key);
      RecordMoves(Mark(w.table, Base(doc, refs[n - 1])).table, key, Piece(u, n - 1), t);
    }
  }
}
