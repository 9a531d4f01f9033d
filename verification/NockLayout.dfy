/** Measuring an emitted list, filling the byte buffer from its end, and running
    the result, as the loops that do it. Each computes what `Asm` and `ByteRun`
    say, so the correctness of bytecode is the correctness of these. */
module NockLayout {
  import opened Nouns
  import opened NockComp
  import opened NockAsm
  import opened NockMachine
  import opened NockBytes
  import opened NockFits
  import opened NockCorrect
  import opened NockEmit

  /** The program of the last `k` instructions of a list. */
  ghost function Last(list: seq<Op>, k: nat): Code
    requires k <= |list|
  {
    Built(list[..k])
  }

  lemma LastNext(list: seq<Op>, k: nat)
    requires k < |list|
    ensures Last(list, k + 1) == Then(list[k], Last(list, k))
  {
    assert list[..k + 1] == list[..k] + [list[k]];
    BuiltConcat(list[..k], [list[k]]);
    assert [list[k]][1..] == [];
  }

  lemma {:induction false} LastDrop(list: seq<Op>, k: nat, n: nat)
    requires n <= k <= |list|
    ensures Len(Last(list, k)) == k && Drop(n, Last(list, k)) == Last(list, k - n)
  {
    if k > 0 {
      LastNext(list, k - 1);
      LastDrop(list, k - 1, if n > 0 then n - 1 else 0);
    }
  }

  lemma {:induction false} LastSkips(list: seq<Op>, k: nat)
    requires WellSkipped(Built(list)) && k <= |list|
    ensures WellSkipped(Last(list, k))
    decreases |list| - k
  {
    if k == |list| {
      assert list[..k] == list;
    } else {
      LastSkips(list, k + 1);
      LastNext(list, k);
    }
  }

  predicate Skips(op: Op) {
    op.Sbip? || op.Sbin? || op.Skim?
  }

  /** The byte distances of the skipping instructions, last instruction first. */
  function Distances(code: Code): seq<nat> {
    match code
    case End => []
    case Then(op, next) => Distances(next) + (if Skips(op) then [SkipBytes(op, next)] else [])
  }

  function IndexSize(inx: nat): nat {
    if inx <= 0xFF then 2 else 3
  }

  lemma PutSize(op: Op, sip: nat, q: Prog)
    ensures |Put(op, sip, q).bytes| - |q.bytes| ==
            match Encode(op).1
            case NoArg => 1
            case Direct(wide, _) => if wide then 3 else 2
            case SkipArg(_) => if sip <= 0xFF then 2 else if sip <= 0xFFFF then 3 else 5
            case _ => IndexSize(TableIndex(op, q))
  {
  }

  lemma PutCounts(op: Op, sip: nat, q: Prog)
    ensures var r, arg := Put(op, sip, q), Encode(op).1;
            && |r.lits| == |q.lits| + (if arg.LitArg? then 1 else 0)
            && |r.cals| == |q.cals| + (if arg.CalArg? then 1 else 0)
            && r.regs == q.regs + (if arg.RegArg? then 1 else 0)
            && |r.mems| == |q.mems| + (if arg.MemArg? then 1 else 0)
    ensures Skips(op) <==> Encode(op).1.SkipArg? || Encode(op).1.MemArg?
    ensures !Skips(op) ==> Skipped(op) == 0
  {
  }

  /** Sites, literals and memos that have a table index of their own. */
  datatype Counts = Counts(cal: nat, reg: nat, lit: nat, mem: nat)

  ghost predicate Counted(c: Counts, p: Prog) {
    c.cal == |p.cals| && c.reg == p.regs && c.lit == |p.lits| && c.mem == |p.mems|
  }

  predicate Indexable(p: Prog) {
    |p.lits| <= 0x10000 && |p.cals| <= 0x10000 && p.regs <= 0x10000 && |p.mems| <= 0x10000
  }

  lemma {:induction false} IndexableLast(list: seq<Op>, k: nat)
    requires k <= |list| && Indexable(Asm(Built(list)))
    ensures Indexable(Asm(Last(list, k)))
    decreases |list| - k
  {
    if k == |list| {
      assert list[..k] == list;
    } else {
      IndexableLast(list, k + 1);
      LastNext(list, k);
      PutCounts(list[k], SkipBytes(list[k], Last(list, k)), Asm(Last(list, k)));
    }
  }

  /** The sizes of the last `k` instructions, at the end of the array of sizes. */
  ghost predicate Measured(list: seq<Op>, k: nat, sizes: seq<nat>) {
    && k <= |list| == |sizes|
    && forall t :: 0 <= t < k ==> sizes[|sizes| - 1 - t] == |Asm(Last(list, t + 1)).bytes| - |Asm(Last(list, t)).bytes|
  }

  lemma MeasuredNext(list: seq<Op>, k: nat, sizes: seq<nat>, size: nat)
    requires k < |list| && Measured(list, k, sizes)
    requires size == |Asm(Last(list, k + 1)).bytes| - |Asm(Last(list, k)).bytes|
    ensures Measured(list, k + 1, sizes[|sizes| - 1 - k := size])
  {
    hide Asm, Last;
  }

  /** One instruction of a list in front of those that are executed after it. */
  lemma NextOp(list: seq<Op>, k: nat)
    requires WellSkipped(Built(list)) && k < |list|
    ensures var op, rest := list[k], Last(list, k);
            && Skipped(op) <= k == Len(rest)
            && Asm(Last(list, k + 1)) == Put(op, SkipBytes(op, rest), Asm(rest))
            && SkipBytes(op, rest) == Span(Asm(rest), Asm(Last(list, k - Skipped(op))))
            && Distances(Last(list, k + 1)) == Distances(rest) + (if Skips(op) then [SkipBytes(op, rest)] else [])
            && Distances(Last(list, k + 1)) <= Distances(Built(list))
            && |Asm(Last(list, k + 1)).bytes| <= |Asm(Built(list)).bytes|
  {
    hide Asm, Last, Put, Encode, Distances, Built, Span, SkipBytes, WellSkipped;
    NextSkip(list, k);
    AsmNext(list, k);
    AsmRoom(list, k + 1);
    DistancesGrow(list, k + 1);
  }

  lemma NextSkip(list: seq<Op>, k: nat)
    requires WellSkipped(Built(list)) && k < |list|
    ensures var op, rest := list[k], Last(list, k);
            && Skipped(op) <= k == Len(rest)
            && SkipBytes(op, rest) == Span(Asm(rest), Asm(Last(list, k - Skipped(op))))
  {
    hide Asm, Built, Last, Span;
    LastSkips(list, k + 1);
    LastNext(list, k);
    LastDrop(list, k, 0);
    LastDrop(list, k, Skipped(list[k]));
  }

  /** The sizes of the `n` instructions after the one being measured, added up. */
  method SumSizes(list: seq<Op>, k: nat, sizes: array<nat>, n: nat) returns (tot: nat)
    requires n <= k && Measured(list, k, sizes[..])
    ensures tot == Span(Asm(Last(list, k)), Asm(Last(list, k - n)))
  {
    hide Asm, Last;
    tot := 0;
    var j := 0;
    while j < n
      invariant j <= n
      invariant tot == |Asm(Last(list, k)).bytes| - |Asm(Last(list, k - j)).bytes|
    {
      assert sizes[sizes.Length - 1 - (k - 1 - j)] == |Asm(Last(list, k - j)).bytes| - |Asm(Last(list,
          k - 1 - j)).bytes|;
      tot := tot + sizes[sizes.Length - k + j];
      j := j + 1;
    }
  }

  /** The size of one instruction; an argument with an index takes the next one. */
  method Measure(op: Op, tot: nat, counts: Counts, ghost sip: nat, ghost q: Prog) returns (size: nat, next: Counts)
    requires Counted(counts, q) && (Skips(op) ==> tot == sip)
    ensures size == |Put(op, sip, q).bytes| - |q.bytes| && Counted(next, Put(op, sip, q))
  {
    PutCounts(op, sip, q);
    PutSize(op, sip, q);
    hide Put;
    next := counts;
    match Encode(op).1 {
      case NoArg => size := 1;
      case Direct(wide, _) => size := if wide then 3 else 2;
      case SkipArg(_) => size := if tot <= 0xFF then 2 else if tot <= 0xFFFF then 3 else 5;
      case LitArg(_) =>
        size := IndexSize(counts.lit);
        next := counts.(lit := counts.lit + 1);
      case CalArg(_) =>
        size := IndexSize(counts.cal);
        next := counts.(cal := counts.cal + 1);
      case RegArg =>
        size := IndexSize(counts.reg);
        next := counts.(reg := counts.reg + 1);
      case MemArg(_, _) =>
        size := IndexSize(counts.mem);
        next := counts.(mem := counts.mem + 1);
    }
  }

  /** What is known about the last `k` instructions once they are measured. */
  ghost predicate Melted(list: seq<Op>, k: nat, sizes: seq<nat>, bytes: nat, counts: Counts, sips: seq<nat>) {
    && Measured(list, k, sizes)
    && bytes == |Asm(Last(list, k)).bytes| && Counted(counts, Asm(Last(list, k))) && sips == Distances(Last(list, k))
  }

  /** Measure one more instruction. */
  method MeltOne(list: seq<Op>, k: nat, sizes: array<nat>, bytes: nat, counts: Counts, sips: seq<nat>)
    returns (size: nat, counts': Counts, sips': seq<nat>)
    requires WellSkipped(Built(list)) && k < |list| == sizes.Length
    requires Melted(list, k, sizes[..], bytes, counts, sips)
    ensures Melted(list, k + 1, sizes[..][|list| - 1 - k := size], bytes + size, counts', sips')
  {
    hide Asm, Last, Put, Encode, Distances, Built, Measured, SkipBytes, Span, WellSkipped;
    var op, tot := list[k], 0;
    sips' := sips;
    NextOp(list, k);
    if Skips(op) {
      tot := SumSizes(list, k, sizes, Skipped(op));
      sips' := sips + [tot];
    }
    size, counts' := Measure(op, tot, counts, SkipBytes(op, Last(list, k)), Asm(Last(list, k)));
    MeasuredNext(list, k, sizes[..], size);
  }

  /** Measure a list: bytes, table sizes, and the distances to be written. It
      stops when a table would need an index of more than two bytes. */
  method Melt(list: seq<Op>) returns (ok: bool, bytes: nat, counts: Counts, sips: seq<nat>)
    requires WellSkipped(Built(list))
    ensures ok <==> Indexable(Asm(Built(list)))
    ensures ok ==>
        bytes == |Asm(Built(list)).bytes| && Counted(counts, Asm(Built(list))) && sips == Distances(Built(list))
  {
    var sizes := new nat[|list|];
    ok, bytes, counts, sips := true, 1, Counts(0, 0, 0, 0), [];
    var k := 0;
    assert Last(list, 0) == End;
    LastWhole(list);
    hide Last, Asm, Built, Measured, Distances;
    while k < |list|
      invariant k <= |list| && Indexable(Asm(Last(list, k)))
      invariant Melted(list, k, sizes[..], bytes, counts, sips)
    {
      ghost var was := sizes[..];
      var size;
      size, counts, sips := MeltOne(list, k, sizes, bytes, counts, sips);
      sizes[|list| - 1 - k] := size;
      assert sizes[..] == was[|list| - 1 - k := size];
      bytes := bytes + size;
      k := k + 1;
      if counts.lit > 0x10000 || counts.cal > 0x10000 || counts.reg > 0x10000 || counts.mem > 0x10000 {
        if Indexable(Asm(Built(list))) {
          IndexableLast(list, k);
        }
        ok := false;
        return;
      }
    }
  }

  lemma LastWhole(list: seq<Op>)
    ensures Last(list, |list|) == Built(list)
  {
    assert list[..|list|] == list;
  }

  lemma AsmNext(list: seq<Op>, k: nat)
    requires k < |list|
    ensures Asm(Last(list, k + 1)) == Put(list[k], SkipBytes(list[k], Last(list, k)), Asm(Last(list, k)))
    ensures Distances(Last(list, k + 1)) == Distances(Last(list,
        k)) + (if Skips(list[k]) then [SkipBytes(list[k], Last(list, k))] else [])
  {
    LastNext(list, k);
  }

  /** Write bytes downwards, the last one first. */
  method WriteDown(buf: array<nat>, i: nat, head: seq<nat>) returns (j: nat)
    requires |head| <= i <= buf.Length
    modifies buf
    ensures j == i - |head| && buf[j..] == head + old(buf[i..])
    ensures buf[..j] == old(buf[..j])
  {
    j := i;
    var n: nat := |head|;
    while n > 0
      invariant n <= |head| && j == i - |head| + n
      invariant forall t :: n <= t < |head| ==> buf[i - |head| + t] == head[t]
      invariant forall t :: 0 <= t < j || i <= t < buf.Length ==> buf[t] == old(buf[t])
    {
      n, j := n - 1, j - 1;
      buf[j] := head[n];
    }
  }

  /** What is known once the last `k` instructions are in the buffer: they end
      it, their tables are filed, and `s` distances have been used. */
  ghost predicate Laid(list: seq<Op>, k: nat, tail: seq<nat>, p: Prog, used: seq<nat>) {
    k <= |list| && tail == Asm(Last(list, k)).bytes && p == Asm(Last(list, k)).(bytes := [])
        && used == Distances(Last(list, k))
  }

  /** Put one more instruction into the buffer. */
  method LayOne(list: seq<Op>, k: nat, sips: seq<nat>, s: nat, buf: array<nat>, i: nat, p: Prog)
    returns (i': nat, s': nat, p': Prog)
    requires WellSkipped(Built(list)) && k < |list| && sips == Distances(Built(list))
    requires i <= buf.Length == |Asm(Built(list)).bytes| && s <= |sips| && Laid(list, k, buf[i..], p, sips[..s])
    modifies buf
    ensures i' < i && s' <= |sips| && Laid(list, k + 1, buf[i'..], p', sips[..s'])
  {
    hide Asm, Last, Put, Encode, Distances, Built, Head, SkipBytes, Span, WellSkipped;
    var op, next := list[k], 0;
    NextOp(list, k);
    ghost var rest := Last(list, k);
    ghost var q, sip := Asm(rest), SkipBytes(op, rest);
    s' := s;
    if Skips(op) {
      next := sips[s];
      s' := s + 1;
      assert Distances(Last(list, k + 1))[|Distances(rest)|] == sip;
    }
    assert sips[..s'] == Distances(Last(list, k + 1)) && (Skips(op) ==> next == sip);
    PutEmpty(op, next, q);
    PutEmpty(op, sip, q);
    HeadNonEmpty(op, next, p);
    p' := Put(op, next, p).(bytes := []);
    i' := WriteDown(buf, i, Head(op, next, p));
  }

  lemma HeadNonEmpty(op: Op, sip: nat, p: Prog)
    ensures |Head(op, sip, p)| > 0
  {
  }

  /** Fill the buffer from its end, filing literals, sites and memos on the way. */
  method AssembleInto(list: seq<Op>, sips: seq<nat>, buf: array<nat>) returns (p: Prog)
    requires WellSkipped(Built(list)) && Indexable(Asm(Built(list)))
    requires buf.Length == |Asm(Built(list)).bytes| && sips == Distances(Built(list))
    modifies buf
    ensures p == Asm(Built(list)) && buf[..] == p.bytes
  {
    AsmPositive(Built(list));
    var i: nat := buf.Length - 1;
    buf[i] := 0;
    var k: nat, s: nat := 0, 0;
    p := Prog([], [], [], 0, []);
    assert Last(list, 0) == End;
    LastWhole(list);
    hide Last, Asm, Built, Distances;
    while i > 0
      invariant i <= buf.Length && k <= |list| && s <= |sips|
      invariant Laid(list, k, buf[i..], p, sips[..s])
      decreases i
    {
      assert k < |list|;
      i, s, p := LayOne(list, k, sips, s, buf, i, p);
      k := k + 1;
    }
    assert buf[0..] == buf[..];
    AsmAllOnes(list, k);
    p := p.(bytes := buf[..]);
  }

  /** The bytes of one instruction. */
  function Head(op: Op, sip: nat, p: Prog): seq<nat> {
    Put(op, sip, p.(bytes := [])).bytes
  }

  /** Bytes and tables of an instruction do not depend on the bytes after it,
      and only a skipping instruction looks at the distance. */
  lemma PutEmpty(op: Op, sip: nat, q: Prog)
    ensures Put(op, sip, q).bytes == Head(op, sip, q.(bytes := [])) + q.bytes
    ensures Put(op, sip, q).(bytes := []) == Put(op, sip, q.(bytes := [])).(bytes := [])
    ensures !Skips(op) ==> forall d: nat :: Put(op, d, q) == Put(op, sip, q)
  {
  }

  lemma AsmPositive(code: Code)
    ensures |Asm(code).bytes| > 0
  {
    HaltLast(code);
  }

  /** The program of a suffix fits in front of nothing but itself. */
  lemma AsmRoom(list: seq<Op>, k: nat)
    requires k <= |list|
    ensures |Asm(Last(list, k)).bytes| <= |Asm(Built(list)).bytes|
    decreases |list| - k
  {
    assert list[..|list|] == list;
    if k < |list| {
      AsmRoom(list, k + 1);
      AsmNext(list, k);
      PutHolds(list[k], SkipBytes(list[k], Last(list, k)), Asm(Last(list, k)));
    }
  }

  lemma DistancesGrow(list: seq<Op>, k: nat)
    requires k <= |list|
    ensures Distances(Last(list, k)) <= Distances(Built(list))
    decreases |list| - k
  {
    LastWhole(list);
    hide Last, Asm, Distances, Built, Put, Encode, SkipBytes;
    if k < |list| {
      DistancesGrow(list, k + 1);
      AsmNext(list, k);
    }
  }

  /** A suffix whose program is as long as the whole program is the whole list. */
  lemma AsmAllOnes(list: seq<Op>, k: nat)
    requires k <= |list| && |Asm(Last(list, k)).bytes| >= |Asm(Built(list)).bytes|
    ensures k == |list| && Last(list, k) == Built(list)
  {
    assert list[..|list|] == list;
    if k < |list| {
      AsmRoom(list, k + 1);
      AsmNext(list, k);
      PutHolds(list[k], SkipBytes(list[k], Last(list, k)), Asm(Last(list, k)));
    }
  }

  /** Compile a formula to bytecode, or fail: exactly `Load` and `Asm`. */
  method Bite(f: Noun) returns (ok: bool, p: Prog)
    ensures ok <==> Load(f).Some?
    ensures ok ==> p == Asm(Load(f).value)
    ensures Nodes(f) <= MODEST ==> (ok <==> Comp(f, true, true).Some?)
  {
    p := Prog([], [], [], 0, []);
    var ops, tot;
    ok, ops, tot := Compile([], f, true, true);
    if !ok {
      return;
    }
    CompSkips(f, true, true);
    if Nodes(f) <= MODEST {
      SmallLoads(f);
    }
    var bytes, counts, sips;
    ok, bytes, counts, sips := Melt(ops);
    if !ok || bytes >= 0x1_0000_0000 {
      return false, p;
    }
    var buf := new nat[bytes];
    p := AssembleInto(ops, sips, buf);
  }

  /** Run for a number of instructions, with the program, the instruction pointer
      and the stack in registers. */
  method Burn(n: nat, s: Noun, f: Noun) returns (st: ByteState)
    ensures st == ByteRun(n, ByteStart(s, f))
  {
    var ok, p := Bite(f);
    if !ok {
      CrashStays(n);
      return Crash;
    }
    var prog, ip, stk, left := p, 0, Push(s, Empty), n;
    while left > 0
      invariant ByteRun(left, At(prog, ip, stk)) == ByteRun(n, ByteStart(s, f))
    {
      st := ByteStep(At(prog, ip, stk));
      left := left - 1;
      if st.At? {
        prog, ip, stk := st.prog, st.ip, st.stk;
      } else {
        StopStays(left, st);
        return;
      }
    }
    st := At(prog, ip, stk);
  }

  lemma {:induction false} StopStays(n: nat, st: ByteState)
    requires !st.At?
    ensures ByteRun(n, st) == st
  {
    if n > 0 {
      StopStays(n - 1, st);
    }
  }

  lemma CrashStays(n: nat)
    ensures ByteRun(n, Crash) == Crash
  {
    StopStays(n, Crash);
  }
}
