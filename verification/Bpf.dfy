/**
 The kernel filter compiler (src/dipifccret/capture/bpf.c): a list of address
 ranges becomes a classic BPF program with hand-computed jump offsets. The
 program is given meaning by an interpreter, and is proved to accept exactly the
 frames whose destination the userspace matcher accepts, precisely as long as
 the 8-bit jump over the IPv4 clauses does not wrap.
 */
module Bpf {
  import opened Wrappers
  import opened Cidr

  // struct sock_filter restricted to the opcodes used. Conditional offsets are 8 bits wide.
  type U8 = n: nat | n < 256
  datatype Insn =
    | LdW(off: nat)
    | LdH(off: nat)
    | And(mask: bv32)
    | Jeq(k: bv32, jt: U8, jf: U8)
    | Ja(skip: nat)
    | Ret(code: bv32)

  const ACCEPT_ALL: bv32 := 0xFFFF_FFFF
  const MAX_INSNS := 4096
  const ETH_P_IP: bv32 := 0x0800
  const ETH_P_IPV6: bv32 := 0x86DD
  const ETH_P_8021Q: bv32 := 0x8100

  // ---- meaning of a program ----

  datatype Outcome = Verdict(code: bv32) | Escaped

  function Half(p: Bytes, off: nat): bv32
    requires off + 2 <= |p|
  {
    ((p[off] as bv32) << 8) | (p[off + 1] as bv32)
  }

  /** Classic BPF: a load beyond the packet ends the program with verdict 0. */
  function Run(prog: seq<Insn>, p: Bytes, pc: nat, a: bv32): Outcome
    decreases |prog| - pc
  {
    if pc >= |prog| then Escaped
    else
      match prog[pc]
      case LdW(off) => if off + 4 <= |p| then Run(prog, p, pc + 1, WordAt(p, off)) else Verdict(0)
      case LdH(off) => if off + 2 <= |p| then Run(prog, p, pc + 1, Half(p, off)) else Verdict(0)
      case And(m) => Run(prog, p, pc + 1, Masked32(a, m))
      case Jeq(k, jt, jf) => Run(prog, p, pc + 1 + (if a == k then jt else jf), a)
      case Ja(skip) => Run(prog, p, pc + 1 + skip, a)
      case Ret(code) => Verdict(code)
  }

  /** What the compiled filter is for: an untagged or single-tagged frame, long enough
      to hold its destination address, whose destination is in one of the ranges. */
  ghost predicate Wanted(ranges: seq<Range>, p: Bytes) {
    && |p| >= 14
    && if Half(p, 12) == ETH_P_8021Q
       then |p| >= 18 && WantedPayload(ranges, p, 18, Half(p, 16))
       else WantedPayload(ranges, p, 14, Half(p, 12))
  }

  ghost predicate WantedPayload(ranges: seq<Range>, p: Bytes, base: nat, ethertype: bv32) {
    || (ethertype == ETH_P_IP && |p| >= base + 20 && InRanges(Inet, p[base + 16..base + 20], ranges))
    || (ethertype == ETH_P_IPV6 && |p| >= base + 40 && InRanges(Inet6, p[base + 24..base + 40], ranges))
  }

  // ---- code templates ----

  function V4Clause(off: nat, r: Range): (code: seq<Insn>)
    requires r.V4?
    ensures |code| == 4
  {
    var mask := WordAt(r.mask, 0);
    [LdW(off), And(mask), Jeq(Masked32(WordAt(r.addr, 0), mask), 0, 1), Ret(ACCEPT_ALL)]
  }

  function V6WordCheck(off: nat, r: Range, w: nat): seq<Insn>
    requires r.V6? && w < 4
  {
    var mask := V6WordMask(r.prefix, w);
    [LdW(off + 4 * w), And(mask), Jeq(Masked32(WordAt(r.addr6, 4 * w), mask), 0, (3 - w) * 3 + 1)]
  }

  function V6Clause(off: nat, r: Range): (code: seq<Insn>)
    requires r.V6?
    ensures |code| == 13
  {
    V6WordCheck(off, r, 0) + V6WordCheck(off, r, 1) + V6WordCheck(off, r, 2) + V6WordCheck(off, r, 3)
    + [Ret(ACCEPT_ALL)]
  }

  function V4s(ranges: seq<Range>): seq<Range4>
  {
    if ranges == [] then [] else (if ranges[0].V4? then [ranges[0]] else []) + V4s(ranges[1..])
  }

  function V6s(ranges: seq<Range>): seq<Range6>
  {
    if ranges == [] then [] else (if ranges[0].V6? then [ranges[0]] else []) + V6s(ranges[1..])
  }

  function V4Code(off: nat, rs: seq<Range4>): (code: seq<Insn>)
    ensures |code| == 4 * |rs|
  {
    if rs == [] then [] else V4Clause(off, rs[0]) + V4Code(off, rs[1..])
  }

  function V6Code(off: nat, rs: seq<Range6>): (code: seq<Insn>)
    ensures |code| == 13 * |rs|
  {
    if rs == [] then [] else V6Clause(off, rs[0]) + V6Code(off, rs[1..])
  }

  function DispatchLen(ranges: seq<Range>): nat {
    4 * |V4s(ranges)| + 13 * |V6s(ranges)| + 5
  }

  /** The conversion of the IPv4 section length to the 8-bit `jf` field drops its high bits. */
  function V4Skip(ranges: seq<Range>): U8 {
    (4 * |V4s(ranges)| + 1) % 256
  }

  function V4Part(base: nat, ranges: seq<Range>): seq<Insn> {
    V4Code(base + 16, V4s(ranges)) + [Ret(0)]
  }

  function V6Part(base: nat, ranges: seq<Range>): seq<Insn> {
    V6Code(base + 24, V6s(ranges)) + [Ret(0)]
  }

  function Dispatch(base: nat, ranges: seq<Range>): (code: seq<Insn>)
    ensures |code| == DispatchLen(ranges)
  {
    [Jeq(ETH_P_IP, 0, V4Skip(ranges))] + V4Part(base, ranges) + [Jeq(ETH_P_IPV6, 1, 0), Ret(0)] + V6Part(base, ranges)
  }

  function ProgramLen(ranges: seq<Range>): nat {
    2 * DispatchLen(ranges) + 4
  }

  function Program(ranges: seq<Range>): (prog: seq<Insn>)
    ensures |prog| == ProgramLen(ranges)
  {
    [LdH(12), Jeq(ETH_P_8021Q, 0, 1), Ja(DispatchLen(ranges))] + Dispatch(14, ranges)
    + [LdH(16)] + Dispatch(18, ranges)
  }

  // ---- the compiler ----

  lemma SplitStep(ranges: seq<Range>, i: nat)
    requires i < |ranges|
    ensures V4s(ranges[i..]) == (if ranges[i].V4? then [ranges[i]] else []) + V4s(ranges[i + 1..])
    ensures V6s(ranges[i..]) == (if ranges[i].V6? then [ranges[i]] else []) + V6s(ranges[i + 1..])
  {
    assert ranges[i..][1..] == ranges[i + 1..];
  }

  lemma Assoc(a: seq<Insn>, b: seq<Insn>, c: seq<Insn>)
    ensures a + (b + c) == a + b + c
  {}

  lemma NoCode(off: nat)
    ensures V4Code(off, V4s([])) == [] && V6Code(off, V6s([])) == []
  {}

  lemma CodeStep(off: nat, ranges: seq<Range>, i: nat)
    requires i < |ranges|
    ensures V4Code(off, V4s(ranges[i..]))
         == (if ranges[i].V4? then V4Clause(off, ranges[i]) else []) + V4Code(off, V4s(ranges[i + 1..]))
    ensures V6Code(off, V6s(ranges[i..]))
         == (if ranges[i].V6? then V6Clause(off, ranges[i]) else []) + V6Code(off, V6s(ranges[i + 1..]))
  {
    hide V4Clause, V6Clause;
    SplitStep(ranges, i);
    var four, six := V4s(ranges[i + 1..]), V6s(ranges[i + 1..]);
    if ranges[i].V4? {
      assert V4s(ranges[i..])[1..] == four && V6s(ranges[i..]) == six;
    } else {
      assert V6s(ranges[i..])[1..] == six && V4s(ranges[i..]) == four;
    }
  }

  /** The checks of the first w words of an address. */
  ghost function V6Checks(off: nat, r: Range, w: nat): seq<Insn>
    requires r.V6? && w <= 4
  {
    if w == 0 then [] else V6Checks(off, r, w - 1) + V6WordCheck(off, r, w - 1)
  }

  lemma NoV6Checks(off: nat, r: Range)
    requires r.V6?
    ensures V6Checks(off, r, 0) == []
  {
  }

  lemma NextV6Check(off: nat, r: Range, w: nat)
    requires r.V6? && w < 4
    ensures V6Checks(off, r, w + 1) == V6Checks(off, r, w) + V6WordCheck(off, r, w)
  {
  }

  lemma AllV6Checks(off: nat, r: Range)
    requires r.V6?
    ensures V6Checks(off, r, 4) + [Ret(ACCEPT_ALL)] == V6Clause(off, r)
  {
    hide V6WordCheck;
    assert V6Checks(off, r, 1) == [] + V6WordCheck(off, r, 0);
    assert V6Checks(off, r, 2) == V6Checks(off, r, 1) + V6WordCheck(off, r, 1);
    assert V6Checks(off, r, 3) == V6Checks(off, r, 2) + V6WordCheck(off, r, 2);
  }

  class Buffer {
    var insns: seq<Insn>

    constructor ()
      ensures insns == []
    {
      insns := [];
    }

    method Emit(i: Insn)
      modifies this
      ensures insns == old(insns) + [i]
    {
      insns := insns + [i];
    }

    method EmitV4Clause(off: nat, r: Range)
      requires r.V4?
      modifies this
      ensures insns == old(insns) + V4Clause(off, r)
    {
      var mask := WordAt(r.mask, 0);
      var net := Masked32(WordAt(r.addr, 0), mask);
      Emit(LdW(off));
      Emit(And(mask));
      Emit(Jeq(net, 0, 1));
      Emit(Ret(ACCEPT_ALL));
    }

    method EmitV6Clause(off: nat, r: Range)
      requires r.V6?
      modifies this
      ensures insns == old(insns) + V6Clause(off, r)
    {
      ghost var start := insns;
      hide *;
      NoV6Checks(off, r);
      for w := 0 to 4
        invariant insns == start + V6Checks(off, r, w)
      {
        NextV6Check(off, r, w);
        Assoc(start, V6Checks(off, r, w), V6WordCheck(off, r, w));
        EmitV6Word(off, r, w);
      }
      AllV6Checks(off, r);
      Assoc(start, V6Checks(off, r, 4), [Ret(ACCEPT_ALL)]);
      Emit(Ret(ACCEPT_ALL));
    }

    /** The body of that loop: one word of the address. */
    method EmitV6Word(off: nat, r: Range, w: nat)
      requires r.V6? && w < 4
      modifies this
      ensures insns == old(insns) + V6WordCheck(off, r, w)
    {
      var mask := V6WordMask(r.prefix, w);
      var net := Masked32(WordAt(r.addr6, 4 * w), mask);
      var jf := if w == 3 then 1 else (3 - w) * 3 + 1;
      Emit(LdW(off + w * 4));
      Emit(And(mask));
      Emit(Jeq(net, 0, jf));
    }

    method EmitV4Clauses(off: nat, ranges: seq<Range>)
      modifies this
      ensures insns == old(insns) + V4Code(off, V4s(ranges))
    {
      hide *;
      ghost var all := insns + V4Code(off, V4s(ranges));
      assert ranges[0..] == ranges;
      for i := 0 to |ranges|
        invariant insns + V4Code(off, V4s(ranges[i..])) == all
      {
        CodeStep(off, ranges, i);
        ghost var rest := V4Code(off, V4s(ranges[i + 1..]));
        if ranges[i].V4? {
          Assoc(insns, V4Clause(off, ranges[i]), rest);
          EmitV4Clause(off, ranges[i]);
          assert insns + rest == all;
        } else {
          assert [] + rest == rest;
        }
      }
      assert ranges[|ranges|..] == [];
      NoCode(off);
    }

    method EmitV6Clauses(off: nat, ranges: seq<Range>)
      modifies this
      ensures insns == old(insns) + V6Code(off, V6s(ranges))
    {
      hide *;
      ghost var all := insns + V6Code(off, V6s(ranges));
      assert ranges[0..] == ranges;
      for i := 0 to |ranges|
        invariant insns + V6Code(off, V6s(ranges[i..])) == all
      {
        CodeStep(off, ranges, i);
        ghost var rest := V6Code(off, V6s(ranges[i + 1..]));
        if ranges[i].V6? {
          Assoc(insns, V6Clause(off, ranges[i]), rest);
          EmitV6Clause(off, ranges[i]);
          assert insns + rest == all;
        } else {
          assert [] + rest == rest;
        }
      }
      assert ranges[|ranges|..] == [];
      NoCode(off);
    }

    method EmitDispatchBlock(base: nat, ranges: seq<Range>)
      modifies this
      ensures insns == old(insns) + Dispatch(base, ranges)
    {
      hide V4Code, V6Code, V4s, V6s;
      var nv4, nv6 := CountFamilies(ranges);
      var sectionLen := 4 * nv4 + 1;
      Emit(Jeq(ETH_P_IP, 0, sectionLen % 256));
      EmitV4Clauses(base + 16, ranges);
      Emit(Ret(0));
      Emit(Jeq(ETH_P_IPV6, 1, 0));
      Emit(Ret(0));
      EmitV6Clauses(base + 24, ranges);
      Emit(Ret(0));
    }
  }

  method CountFamilies(ranges: seq<Range>) returns (nv4: nat, nv6: nat)
    ensures nv4 == |V4s(ranges)| && nv6 == |V6s(ranges)|
  {
    nv4, nv6 := 0, 0;
    for i := 0 to |ranges|
      invariant nv4 + |V4s(ranges[i..])| == |V4s(ranges)|
      invariant nv6 + |V6s(ranges[i..])| == |V6s(ranges)|
    {
      SplitStep(ranges, i);
      if ranges[i].V4? {
        nv4 := nv4 + 1;
      } else {
        nv6 := nv6 + 1;
      }
    }
  }

  /** capture_build_bpf. */
  method Build(ranges: seq<Range>) returns (prog: Option<seq<Insn>>)
    ensures prog.Some? <==> ProgramLen(ranges) <= 4096
    ensures prog.Some? ==> prog.value == Program(ranges)
    ensures prog.Some? && |V4s(ranges)| <= 63 ==>
              forall p: Bytes ::
                Run(prog.value, p, 0, 0) == if Wanted(ranges, p) then Verdict(ACCEPT_ALL) else Verdict(0)
  {
    hide Run, Wanted, Dispatch;
    var nv4, nv6 := CountFamilies(ranges);
    var dispatchLen := 4 * nv4 + 13 * nv6 + 5;
    var total := 2 * dispatchLen + 4;
    if total > MAX_INSNS {
      return None;
    }
    var b := new Buffer();
    b.Emit(LdH(12));
    b.Emit(Jeq(ETH_P_8021Q, 0, 1));
    b.Emit(Ja(dispatchLen));
    b.EmitDispatchBlock(14, ranges);
    b.Emit(LdH(16));
    b.EmitDispatchBlock(18, ranges);
    if |b.insns| != total {
      return None;
    }
    prog := Some(b.insns);
    if |V4s(ranges)| <= 63 {
      forall p: Bytes {
        ProgramCorrect(ranges, p);
      }
    }
  }

  // ---- correctness of the templates ----

  ghost predicate At(prog: seq<Insn>, pc: nat, code: seq<Insn>) {
    pc + |code| <= |prog| && prog[pc..pc + |code|] == code
  }

  lemma AtParts(prog: seq<Insn>, pc: nat, x: seq<Insn>, y: seq<Insn>)
    requires At(prog, pc, x + y)
    ensures At(prog, pc, x) && At(prog, pc + |x|, y)
  {
    assert x == (x + y)[..|x|] && y == (x + y)[|x|..];
  }

  lemma AtIndex(prog: seq<Insn>, pc: nat, code: seq<Insn>, i: nat)
    requires At(prog, pc, code) && i < |code|
    ensures pc + |code| <= |prog| && prog[pc + i] == code[i]
  {
    assert prog[pc..pc + |code|][i] == prog[pc + i];
  }

  /** Executing the compare half of an IPv4 clause with a loaded accumulator. */
  lemma V4CompareRuns(prog: seq<Insn>, p: Bytes, pc: nat, off: nat, r: Range, a: bv32)
    requires r.V4? && At(prog, pc, V4Clause(off, r))
    ensures Run(prog, p, pc + 1, a)
         == if Masked32(a, WordAt(r.mask, 0)) == Masked32(WordAt(r.addr, 0), WordAt(r.mask, 0))
            then Verdict(ACCEPT_ALL)
            else Run(prog, p, pc + 4, Masked32(a, WordAt(r.mask, 0)))
  {
    hide Masked32, WordAt;
    var m := Masked32(a, WordAt(r.mask, 0));
    AtIndex(prog, pc, V4Clause(off, r), 1);
    AtIndex(prog, pc, V4Clause(off, r), 2);
    AtIndex(prog, pc, V4Clause(off, r), 3);
    assert Run(prog, p, pc + 1, a) == Run(prog, p, pc + 2, m);
    assert Run(prog, p, pc + 3, m) == Verdict(ACCEPT_ALL);
  }

  /** A clause accepts, rejects a short frame, or falls through with accumulator `a'`. */
  lemma V4ClauseRuns(prog: seq<Insn>, p: Bytes, pc: nat, off: nat, r: Range, a: bv32) returns (a': bv32)
    requires r.V4? && At(prog, pc, V4Clause(off, r))
    ensures off + 4 > |p| ==> Run(prog, p, pc, a) == Verdict(0)
    ensures off + 4 <= |p| && Matches4(p[off..off + 4], r) ==> Run(prog, p, pc, a) == Verdict(ACCEPT_ALL)
    ensures off + 4 <= |p| && !Matches4(p[off..off + 4], r) ==> Run(prog, p, pc, a) == Run(prog, p, pc + 4, a')
  {
    hide Masked32, Masked8, Word;
    a' := a;
    AtIndex(prog, pc, V4Clause(off, r), 0);
    if off + 4 <= |p| {
      a' := Masked32(WordAt(p, off), WordAt(r.mask, 0));
      V4CompareRuns(prog, p, pc, off, r, WordAt(p, off));
      WordDecidesRange4(p[off..off + 4], r.addr, r.mask);
    }
  }

  ghost predicate Any4(a: Addr4, rs: seq<Range4>) {
    rs != [] && (Matches4(a, rs[0]) || Any4(a, rs[1..]))
  }

  lemma {:induction false} V4CodeRuns(prog: seq<Insn>, p: Bytes, pc: nat, off: nat, rs: seq<Range4>, a: bv32)
    requires At(prog, pc, V4Code(off, rs) + [Ret(0)])
    ensures Run(prog, p, pc, a)
         == if off + 4 <= |p| && Any4(p[off..off + 4], rs) then Verdict(ACCEPT_ALL) else Verdict(0)
    decreases |rs|
  {
    hide Matches4, V4Clause;
    if rs == [] {
      AtIndex(prog, pc, V4Code(off, rs) + [Ret(0)], 0);
    } else {
      var clause, rest := V4Clause(off, rs[0]), V4Code(off, rs[1..]) + [Ret(0)];
      assert V4Code(off, rs) + [Ret(0)] == clause + rest;
      AtParts(prog, pc, clause, rest);
      var a' := V4ClauseRuns(prog, p, pc, off, rs[0], a);
      if off + 4 <= |p| && !Matches4(p[off..off + 4], rs[0]) {
        V4CodeRuns(prog, p, pc + 4, off, rs[1..], a');
      }
    }
  }

  /** One word check: fail on a short frame, go on to the next word, or skip the clause. */
  lemma V6WordRuns(prog: seq<Insn>, p: Bytes, pc: nat, off: nat, r: Range, w: nat, a: bv32) returns (a': bv32)
    requires r.V6? && w < 4 && At(prog, pc, V6WordCheck(off, r, w))
    ensures off + 4 * w + 4 > |p| ==> Run(prog, p, pc, a) == Verdict(0)
    ensures off + 4 * w + 4 <= |p| ==>
              || Run(prog, p, pc, a) == Run(prog, p, pc + 3, a')
              || Run(prog, p, pc, a) == Run(prog, p, pc + 13 - 3 * w, a')
    ensures off + 16 <= |p| ==>
              Run(prog, p, pc, a) == if WordMatch6(p[off..off + 16], r.addr6, r.prefix, w)
                                     then Run(prog, p, pc + 3, a')
                                     else Run(prog, p, pc + 13 - 3 * w, a')
  {
    hide Masked32, Word, V6WordMask;
    a' := a;
    var code := V6WordCheck(off, r, w);
    AtIndex(prog, pc, code, 0);
    AtIndex(prog, pc, code, 1);
    AtIndex(prog, pc, code, 2);
    if off + 4 * w + 4 <= |p| {
      var x := WordAt(p, off + 4 * w);
      a' := Masked32(x, V6WordMask(r.prefix, w));
      assert Run(prog, p, pc, a) == Run(prog, p, pc + 1, x) == Run(prog, p, pc + 2, a');
      if off + 16 <= |p| {
        assert WordAt(p[off..off + 16], 4 * w) == x;
      }
    }
  }

  ghost predicate WordsMatchFrom(a: Addr16, r: Range, w: nat)
    requires r.V6?
  {
    forall v: nat | w <= v < 4 :: WordMatch6(a, r.addr6, r.prefix, v)
  }

  /** A clause entered at word `w`: accepts, rejects a short frame, or falls through. */
  lemma {:induction false} V6WordsRun(prog: seq<Insn>, p: Bytes, pc: nat, off: nat, r: Range, w: nat, a: bv32)
    returns (a': bv32)
    requires r.V6? && w <= 4
    requires forall v: nat | v < 4 :: At(prog, pc + 3 * v, V6WordCheck(off, r, v))
    requires At(prog, pc + 12, [Ret(ACCEPT_ALL)])
    ensures off + 16 <= |p| ==>
              Run(prog, p, pc + 3 * w, a) == if WordsMatchFrom(p[off..off + 16], r, w)
                                             then Verdict(ACCEPT_ALL) else Run(prog, p, pc + 13, a')
    ensures off + 16 > |p| && w < 4 ==>
              Run(prog, p, pc + 3 * w, a) == Verdict(0) || Run(prog, p, pc + 3 * w, a) == Run(prog, p, pc + 13, a')
    decreases 4 - w
  {
    hide V6WordCheck, WordMatch6, Run;
    if w == 4 {
      RetRuns(prog, p, pc + 12, ACCEPT_ALL, a);
      return a;
    }
    a' := V6WordRuns(prog, p, pc + 3 * w, off, r, w, a);
    if off + 16 <= |p| {
      ghost var dst := p[off..off + 16];
      assert WordsMatchFrom(dst, r, w) <==> WordMatch6(dst, r.addr6, r.prefix, w) && WordsMatchFrom(dst, r, w + 1);
      if WordMatch6(dst, r.addr6, r.prefix, w) {
        a' := V6WordsRun(prog, p, pc, off, r, w + 1, a');
      }
    } else if off + 4 * w + 4 <= |p| {
      if Run(prog, p, pc + 3 * w, a) == Run(prog, p, pc + 3 * w + 3, a') {
        a' := V6WordsRun(prog, p, pc, off, r, w + 1, a');
      }
    }
  }

  lemma V6ClauseRuns(prog: seq<Insn>, p: Bytes, pc: nat, off: nat, r: Range, a: bv32) returns (a': bv32)
    requires r.V6? && At(prog, pc, V6Clause(off, r))
    ensures off + 16 <= |p| && Matches6(p[off..off + 16], r) ==> Run(prog, p, pc, a) == Verdict(ACCEPT_ALL)
    ensures off + 16 <= |p| && !Matches6(p[off..off + 16], r) ==> Run(prog, p, pc, a) == Run(prog, p, pc + 13, a')
    ensures off + 16 > |p| ==> Run(prog, p, pc, a) == Verdict(0) || Run(prog, p, pc, a) == Run(prog, p, pc + 13, a')
  {
    hide V6WordCheck, WordMatch6, PrefixMatch, Run, V6Clause;
    V6ClauseParts(prog, pc, off, r);
    if off + 16 <= |p| {
      WordsDecidePrefix(p[off..off + 16], r.addr6, r.prefix);
    }
    a' := V6WordsRun(prog, p, pc, off, r, 0, a);
  }

  lemma RetRuns(prog: seq<Insn>, p: Bytes, pc: nat, code: bv32, a: bv32)
    requires At(prog, pc, [Ret(code)])
    ensures Run(prog, p, pc, a) == Verdict(code)
  {
    AtIndex(prog, pc, [Ret(code)], 0);
  }

  lemma V6ClauseParts(prog: seq<Insn>, pc: nat, off: nat, r: Range)
    requires r.V6? && At(prog, pc, V6Clause(off, r))
    ensures forall w: nat | w < 4 :: At(prog, pc + 3 * w, V6WordCheck(off, r, w))
    ensures At(prog, pc + 12, [Ret(ACCEPT_ALL)])
  {
    var c0, c1, c2, c3 := V6WordCheck(off, r, 0), V6WordCheck(off, r, 1), V6WordCheck(off, r, 2),
      V6WordCheck(off, r, 3);
    AtParts(prog, pc, c0 + c1 + c2 + c3, [Ret(ACCEPT_ALL)]);
    AtParts(prog, pc, c0 + c1 + c2, c3);
    AtParts(prog, pc, c0 + c1, c2);
    AtParts(prog, pc, c0, c1);
  }

  ghost predicate Any6(a: Addr16, rs: seq<Range6>) {
    rs != [] && (Matches6(a, rs[0]) || Any6(a, rs[1..]))
  }

  lemma {:induction false} V6CodeRuns(prog: seq<Insn>, p: Bytes, pc: nat, off: nat, rs: seq<Range6>, a: bv32)
    requires At(prog, pc, V6Code(off, rs) + [Ret(0)])
    ensures Run(prog, p, pc, a)
         == if off + 16 <= |p| && Any6(p[off..off + 16], rs) then Verdict(ACCEPT_ALL) else Verdict(0)
    decreases |rs|
  {
    hide Matches6, V6Clause;
    if rs == [] {
      AtIndex(prog, pc, V6Code(off, rs) + [Ret(0)], 0);
    } else {
      var clause, rest := V6Clause(off, rs[0]), V6Code(off, rs[1..]) + [Ret(0)];
      assert V6Code(off, rs) + [Ret(0)] == clause + rest;
      AtParts(prog, pc, clause, rest);
      var a' := V6ClauseRuns(prog, p, pc, off, rs[0], a);
      V6CodeRuns(prog, p, pc + 13, off, rs[1..], a');
    }
  }

  lemma InRangesStep(family: Family, a: Bytes, ranges: seq<Range>)
    requires ranges != []
    ensures InRanges(family, a, ranges) <==> Matches(family, a, ranges[0]) || InRanges(family, a, ranges[1..])
  {
    hide Matches;
    assert forall i :: 0 < i < |ranges| ==> ranges[i] == ranges[1..][i - 1];
  }

  lemma {:induction false} AnyIsInRanges(a: Bytes, ranges: seq<Range>)
    ensures |a| == 4 ==> (Any4(a, V4s(ranges)) <==> InRanges(Inet, a, ranges))
    ensures |a| == 16 ==> (Any6(a, V6s(ranges)) <==> InRanges(Inet6, a, ranges))
  {
    hide MaskedEqual, PrefixMatch, InRanges;
    if ranges == [] {
      assert !InRanges(Inet, a, ranges) && !InRanges(Inet6, a, ranges) by {
        NoRanges(Inet, a);
        NoRanges(Inet6, a);
      }
    } else {
      InRangesStep(Inet, a, ranges);
      InRangesStep(Inet6, a, ranges);
      AnyIsInRanges(a, ranges[1..]);
      SplitStep(ranges, 0);
      assert ranges[0..] == ranges;
      if ranges[0].V4? {
        assert V4s(ranges)[1..] == V4s(ranges[1..]) && V6s(ranges) == V6s(ranges[1..]);
      } else {
        assert V6s(ranges)[1..] == V6s(ranges[1..]) && V4s(ranges) == V4s(ranges[1..]);
      }
    }
  }

  lemma NoRanges(family: Family, a: Bytes)
    ensures !InRanges(family, a, [])
  {}

  lemma JumpRuns(prog: seq<Insn>, p: Bytes, pc: nat, k: bv32, jt: U8, jf: U8, a: bv32)
    requires pc < |prog| && prog[pc] == Jeq(k, jt, jf)
    ensures Run(prog, p, pc, a) == Run(prog, p, pc + 1 + (if a == k then jt else jf), a)
  {
  }

  lemma StopRuns(prog: seq<Insn>, p: Bytes, pc: nat, code: bv32, a: bv32)
    requires pc < |prog| && prog[pc] == Ret(code)
    ensures Run(prog, p, pc, a) == Verdict(code)
  {
  }

  /** One dispatch block decides one payload, provided the jump over the IPv4 part is exact. */
  lemma DispatchRuns(prog: seq<Insn>, p: Bytes, pc: nat, base: nat, ranges: seq<Range>, ethertype: bv32)
    requires |V4s(ranges)| <= 63
    requires At(prog, pc, Dispatch(base, ranges))
    ensures Run(prog, p, pc, ethertype)
         == if WantedPayload(ranges, p, base, ethertype) then Verdict(ACCEPT_ALL) else Verdict(0)
  {
    var mid := pc + 2 + 4 * |V4s(ranges)|;
    hide InRanges, Any4, Any6, V4s, V6s, V4Code, V6Code, Dispatch, At, Run, V4Skip, WantedPayload;
    ShortSkip(ranges);
    DispatchParts(prog, pc, base, ranges);
    PayloadRuns(ranges, p, base, ethertype);
    JumpRuns(prog, p, pc, ETH_P_IP, 0, V4Skip(ranges), ethertype);
    if ethertype == ETH_P_IP {
      V4CodeRuns(prog, p, pc + 1, base + 16, V4s(ranges), ethertype);
    } else {
      JumpRuns(prog, p, mid, ETH_P_IPV6, 1, 0, ethertype);
      if ethertype == ETH_P_IPV6 {
        V6CodeRuns(prog, p, mid + 2, base + 24, V6s(ranges), ethertype);
      } else {
        StopRuns(prog, p, mid + 1, 0, ethertype);
      }
    }
  }

  lemma ShortSkip(ranges: seq<Range>)
    requires |V4s(ranges)| <= 63
    ensures V4Skip(ranges) == 4 * |V4s(ranges)| + 1
  {
  }

  /** What the two families want of a payload, in terms of their own ranges. */
  lemma PayloadRuns(ranges: seq<Range>, p: Bytes, base: nat, ethertype: bv32)
    ensures WantedPayload(ranges, p, base, ethertype)
       <==> || (ethertype == ETH_P_IP && |p| >= base + 20 && Any4(p[base + 16..base + 20], V4s(ranges)))
            || (ethertype == ETH_P_IPV6 && |p| >= base + 40 && Any6(p[base + 24..base + 40], V6s(ranges)))
  {
    hide InRanges, Any4, Any6, V4s, V6s;
    if |p| >= base + 20 {
      AnyIsInRanges(p[base + 16..base + 20], ranges);
    }
    if |p| >= base + 40 {
      AnyIsInRanges(p[base + 24..base + 40], ranges);
    }
  }

  lemma DispatchShape(base: nat, ranges: seq<Range>)
    ensures |V4Part(base, ranges)| == 4 * |V4s(ranges)| + 1
    ensures Dispatch(base, ranges)
         == [Jeq(ETH_P_IP, 0, V4Skip(ranges))] + V4Part(base, ranges) + [Jeq(ETH_P_IPV6, 1, 0), Ret(0)]
            + V6Part(base, ranges)
  {
    hide V4s, V6s, V6Part, V4Skip;
  }

  lemma DispatchParts(prog: seq<Insn>, pc: nat, base: nat, ranges: seq<Range>)
    requires At(prog, pc, Dispatch(base, ranges))
    ensures pc < |prog| && prog[pc] == Jeq(ETH_P_IP, 0, V4Skip(ranges))
    ensures At(prog, pc + 1, V4Part(base, ranges))
    ensures var mid := pc + 2 + 4 * |V4s(ranges)|;
            && mid + 1 < |prog| && prog[mid] == Jeq(ETH_P_IPV6, 1, 0) && prog[mid + 1] == Ret(0)
            && At(prog, mid + 2, V6Part(base, ranges))
  {
    hide *;
    DispatchShape(base, ranges);
    var head := [Jeq(ETH_P_IP, 0, V4Skip(ranges))];
    FourParts(prog, pc, head, V4Part(base, ranges), [Jeq(ETH_P_IPV6, 1, 0), Ret(0)], V6Part(base, ranges));
    AtOne(prog, pc, Jeq(ETH_P_IP, 0, V4Skip(ranges)));
    AtTwo(prog, pc + 2 + 4 * |V4s(ranges)|, Jeq(ETH_P_IPV6, 1, 0), Ret(0));
  }

  lemma FourParts(prog: seq<Insn>, pc: nat, a: seq<Insn>, b: seq<Insn>, c: seq<Insn>, d: seq<Insn>)
    requires At(prog, pc, a + b + c + d)
    ensures At(prog, pc, a) && At(prog, pc + |a|, b) && At(prog, pc + |a| + |b|, c) && At(prog, pc + |a| + |b| + |c|, d)
  {
    hide At;
    AtParts(prog, pc, a + b + c, d);
    AtParts(prog, pc, a + b, c);
    AtParts(prog, pc, a, b);
  }

  lemma AtOne(prog: seq<Insn>, pc: nat, x: Insn)
    requires At(prog, pc, [x])
    ensures pc < |prog| && prog[pc] == x
  {
    AtIndex(prog, pc, [x], 0);
  }

  lemma AtTwo(prog: seq<Insn>, pc: nat, x: Insn, y: Insn)
    requires At(prog, pc, [x, y])
    ensures pc + 1 < |prog| && prog[pc] == x && prog[pc + 1] == y
  {
    AtIndex(prog, pc, [x, y], 0);
    AtIndex(prog, pc, [x, y], 1);
  }

  lemma ProgramParts(ranges: seq<Range>)
    ensures var prog := Program(ranges);
            && prog[0] == LdH(12) && prog[1] == Jeq(ETH_P_8021Q, 0, 1) && prog[2] == Ja(DispatchLen(ranges))
            && prog[3 + DispatchLen(ranges)] == LdH(16)
            && At(prog, 3, Dispatch(14, ranges)) && At(prog, 4 + DispatchLen(ranges), Dispatch(18, ranges))
  {
    var prog := Program(ranges);
    var prologue := [LdH(12), Jeq(ETH_P_8021Q, 0, 1), Ja(DispatchLen(ranges))];
    var d14, d18 := Dispatch(14, ranges), Dispatch(18, ranges);
    assert prog[..|prog|] == prog;
    AtParts(prog, 0, prologue + d14 + [LdH(16)], d18);
    AtParts(prog, 0, prologue + d14, [LdH(16)]);
    AtParts(prog, 0, prologue, d14);
    AtIndex(prog, 3 + |d14|, [LdH(16)], 0);
  }

  /** Compiler correctness: with at most 63 IPv4 ranges the program halts inside itself on
      every frame and accepts exactly the wanted ones. */
  lemma ProgramCorrect(ranges: seq<Range>, p: Bytes)
    requires |V4s(ranges)| <= 63
    ensures Run(Program(ranges), p, 0, 0) == if Wanted(ranges, p) then Verdict(ACCEPT_ALL) else Verdict(0)
  {
    hide Dispatch, WantedPayload, Program;
    var prog, d := Program(ranges), DispatchLen(ranges);
    ProgramParts(ranges);
    if |p| >= 14 {
      var ethertype := Half(p, 12);
      assert Run(prog, p, 0, 0) == Run(prog, p, 1, ethertype);
      if ethertype == ETH_P_8021Q {
        assert Run(prog, p, 0, 0) == Run(prog, p, 2, ethertype) == Run(prog, p, 3 + d, ethertype);
        if |p| >= 18 {
          DispatchRuns(prog, p, 4 + d, 18, ranges, Half(p, 16));
        }
      } else {
        DispatchRuns(prog, p, 3, 14, ranges, ethertype);
      }
    }
  }

  // ---- the limit of the 8-bit jump ----

  ghost predicate CompiledRight(ranges: seq<Range>, p: Bytes) {
    Run(Program(ranges), p, 0, 0) == if Wanted(ranges, p) then Verdict(ACCEPT_ALL) else Verdict(0)
  }

  lemma {:induction false} V4ClauseAt(prog: seq<Insn>, pc: nat, off: nat, rs: seq<Range4>, k: nat)
    requires At(prog, pc, V4Code(off, rs)) && k < |rs|
    ensures At(prog, pc + 4 * k, V4Clause(off, rs[k]))
    decreases k
  {
    hide V4Clause;
    AtParts(prog, pc, V4Clause(off, rs[0]), V4Code(off, rs[1..]));
    if k > 0 {
      V4ClauseAt(prog, pc + 4, off, rs[1..], k - 1);
    }
  }

  /** A non-IP frame carrying, where an IPv4 destination would be, one of the range addresses. */
  function DecoyFrame(dst: Addr4): (p: Bytes)
    ensures |p| == 34 && p[12] == 0 && p[13] == 0 && p[30..34] == dst
  {
    seq(30, _ => 0) + dst
  }

  /** An untagged non-IPv4 frame jumps by the truncated section length. */
  lemma DecoyJump(ranges: seq<Range>, p: Bytes)
    requires |p| == 34 && p[12] == 0 && p[13] == 0
    ensures Run(Program(ranges), p, 0, 0) == Run(Program(ranges), p, 4 + V4Skip(ranges), 0)
  {
    hide Program, V4Part, V6Part, V4s, V6s, Dispatch, V4Skip, Half, WordAt, Masked32, At;
    var prog := Program(ranges);
    ProgramParts(ranges);
    DispatchParts(prog, 3, 14, ranges);
    ZeroHalf(p, 12);
    assert Run(prog, p, 0, 0) == Run(prog, p, 1, 0) == Run(prog, p, 3, 0);
  }

  lemma DecoyMatches(prog: seq<Insn>, p: Bytes, pc: nat, rs: seq<Range4>, k: nat)
    requires At(prog, pc, V4Code(30, rs)) && k + 1 < |rs|
    requires |p| == 34 && p[30..34] == rs[k + 1].addr
    ensures Run(prog, p, pc + 4 * k + 1, 0) == Verdict(ACCEPT_ALL)
  {
    hide V4Clause, V4Code, Masked8, Masked32, WordAt, Run;
    V4ClauseAt(prog, pc, 30, rs, k);
    V4ClauseAt(prog, pc, 30, rs, k + 1);
    V4CompareRuns(prog, p, pc + 4 * k, 30, rs[k], 0);
    var a := Masked32(0, WordAt(rs[k].mask, 0));
    var _ := V4ClauseRuns(prog, p, pc + 4 * (k + 1), 30, rs[k + 1], a);
    assert Matches4(p[30..34], rs[k + 1]);
  }

  /** From 64 IPv4 ranges on the wrapped jump lands inside an IPv4 clause, so a frame that is
      not IP at all gets through. */
  lemma DecoyAccepted(ranges: seq<Range>)
    requires |V4s(ranges)| >= 64
    ensures |V4s(ranges)| % 64 + 1 < |V4s(ranges)|
    ensures var decoy := DecoyFrame(V4s(ranges)[|V4s(ranges)| % 64 + 1].addr);
            && Run(Program(ranges), decoy, 0, 0) == Verdict(ACCEPT_ALL) && !Wanted(ranges, decoy)
            && !CompiledRight(ranges, decoy)
  {
    hide *;
    var rs := V4s(ranges);
    var k := |rs| % 64;
    var p := DecoyFrame(rs[k + 1].addr);
    DecoyJump(ranges, p);
    WrappedSkip(ranges);
    V4CodePlace(ranges);
    DecoyMatches(Program(ranges), p, 4, rs, k);
    NotIp(ranges, p);
    if CompiledRight(ranges, p) {
      RightMeansWanted(ranges, p);
    }
  }

  lemma RightMeansWanted(ranges: seq<Range>, p: Bytes)
    requires CompiledRight(ranges, p) && Run(Program(ranges), p, 0, 0) == Verdict(ACCEPT_ALL)
    ensures Wanted(ranges, p)
  {
    hide Run, Program, Wanted;
  }

  lemma WrappedSkip(ranges: seq<Range>)
    ensures V4Skip(ranges) == 4 * (|V4s(ranges)| % 64) + 1
  {
    hide V4s;
  }

  lemma V4CodePlace(ranges: seq<Range>)
    ensures At(Program(ranges), 4, V4Code(30, V4s(ranges)))
  {
    hide Program, V4Code, V4s, Dispatch;
    ProgramParts(ranges);
    DispatchParts(Program(ranges), 3, 14, ranges);
    AtParts(Program(ranges), 4, V4Code(30, V4s(ranges)), [Ret(0)]);
  }

  lemma NotIp(ranges: seq<Range>, p: Bytes)
    requires |p| >= 14 && p[12] == 0 && p[13] == 0
    ensures !Wanted(ranges, p)
  {
    ZeroHalf(p, 12);
  }

  lemma ZeroHalf(p: Bytes, off: nat)
    requires off + 2 <= |p| && p[off] == 0 && p[off + 1] == 0
    ensures Half(p, off) == 0
  {}

  /** The compiled filter means what the ranges mean exactly when there are at most 63 IPv4 ranges. */
  lemma CompiledRightIff(ranges: seq<Range>)
    ensures (forall p: Bytes :: CompiledRight(ranges, p)) <==> |V4s(ranges)| <= 63
  {
    hide V4s;
    if |V4s(ranges)| <= 63 {
      forall p: Bytes ensures CompiledRight(ranges, p) {
        ProgramCorrect(ranges, p);
      }
    } else {
      DecoyAccepted(ranges);
    }
  }
}
