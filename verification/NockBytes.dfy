/** The bytecode machine, and that decoding undoes assembling: at the offset of
    every instruction the bytes read back as that instruction, and every skip
    lands on the start of the instruction that many instructions later. */
module NockBytes {
  import opened Nouns
  import opened NockComp
  import opened NockAsm
  import opened NockMachine

  /** Argument size of an opcode, in bytes. */
  function ArgSize(cod: nat): nat {
    if cod in {13, 17, 19, 15, 29, 23, 31, 25, 40, 42, 47, 50, 70, 68, 53, 55, 59, 64, 66, 87, 91, 89, 93, 73,
        75} then 1
    else if cod in {14, 18, 20, 16, 30, 24, 32, 26, 41, 43, 48, 51, 71, 69, 54, 56, 60, 65, 67, 88, 92, 90, 94, 74,
        76} then 2
    else if cod in {49, 52} then 4
    else 0
  }

  /** A little-endian number, as the bytecode stream stores its arguments. */
  function Read(bytes: seq<nat>, ip: nat, size: nat): nat
    requires ip + size <= |bytes|
    decreases size
  {
    if size == 0 then 0 else bytes[ip] + 0x100 * Read(bytes, ip + 1, size - 1)
  }

  function Literal(p: Prog, x: nat): Option<Noun> {
    if x < |p.lits| then Some(p.lits[x]) else None
  }

  /** The instruction of an opcode and its argument. Skips are in bytes here. */
  function Instr(p: Prog, cod: nat, x: nat): Option<Op> {
    match cod
    case 1 => Some(Bail)
    case 2 => Some(Copy)
    case 3 => Some(Swap)
    case 4 => Some(Toss)
    case 5 => Some(Auto(false))
    case 6 => Some(Auto(true))
    case 7 => Some(Snoc(false))
    case 8 => Some(Snoc(true))
    case 9 => Some(Head(false))
    case 10 => Some(Head(true))
    case 11 => Some(Tail(false))
    case 12 => Some(Tail(true))
    case 33 => Some(NockLose)
    case 34 => Some(NockTail)
    case 35 => Some(NockKeep)
    case 36 => Some(Deep)
    case 37 => Some(Bump)
    case 44 => Some(Same(false))
    case 45 => Some(Same(true))
    case 47 => Some(Sbip(x))
    case 48 => Some(Sbip(x))
    case 49 => Some(Sbip(x))
    case 50 => Some(Sbin(x))
    case 51 => Some(Sbin(x))
    case 52 => Some(Sbin(x))
    case 57 => Some(Wish(true))
    case 58 => Some(Wish(false))
    case 61 => Some(Untrace)
    case 62 => Some(Heck)
    case 63 => Some(Slog)
    case 64 => Some(Fast(false))
    case 65 => Some(Fast(false))
    case 66 => Some(Fast(true))
    case 67 => Some(Fast(true))
    case 72 => Some(Save)
    case 77 => Some(Hind(false, false))
    case 78 => Some(Hind(true, false))
    case 79 => Some(Hind(false, true))
    case 80 => Some(Hind(true, true))
    case _ => if 81 <= cod then Mutator(p, cod, x) else Argued(p, cod, x)
  }

  function Argued(p: Prog, cod: nat, x: nat): Option<Op> {
    if 13 <= cod <= 20 then
      var lit :- if cod in {15, 16, 19, 20} then Literal(p, x) else Some(Atom(x));
      if lit.Atom? then Some(Frag(lit.a, cod >= 17)) else None
    else if 21 <= cod <= 32 then
      var kind := if cod >= 27 then cod - 27 else cod - 21;
      var lit :- if kind < 2 then Some(Atom(kind)) else if kind < 4 then Some(Atom(x)) else Literal(p, x);
      Some(Lit(lit, cod >= 27))
    else if 38 <= cod <= 43 then
      var lit :- if cod < 40 then Some(Atom(cod - 38)) else if cod < 42 then Some(Atom(x)) else Literal(p, x);
      Some(Sam(lit))
    else if 53 <= cod <= 56 then (if x < |p.cals| then Some(Kick(p.cals[x], cod >= 55)) else None)
    else if 59 <= cod <= 60 then
      var lit :- Literal(p, x);
      Some(Bush(lit))
    else if 68 <= cod <= 71 then
      (if x < |p.mems| then Some(Skim(p.mems[x].key, p.mems[x].sip, cod >= 70)) else None)
    else if 73 <= cod <= 76 then
      var lit :- Literal(p, x);
      Some(Fore(lit, cod >= 75))
    else None
  }

  function Mutator(p: Prog, cod: nat, x: nat): Option<Op> {
    if cod <= 86 then Some(Mut(Atom([2, 2, 3, 3, 6, 6][if cod < 81 then 0 else cod - 81]), cod % 2 == 1))
    else if cod <= 94 then
      var lit :- if cod in {87, 88, 91, 92} then Some(Atom(x)) else Literal(p, x);
      Some(Mut(lit, cod < 91))
    else None
  }

  /** The instruction at an offset, and the offset after it. */
  function Decode(p: Prog, ip: nat): Option<(Op, nat)> {
    if ip >= |p.bytes| || ip + 1 + ArgSize(p.bytes[ip]) > |p.bytes| then None
    else
      var size := ArgSize(p.bytes[ip]);
      var op :- Instr(p, p.bytes[ip], Read(p.bytes, ip + 1, size));
      Some((op, ip + 1 + size))
  }

  datatype ByteState = At(prog: Prog, ip: nat, stk: Stack) | Product(v: Noun) | Crash

  function ByteReturn(v: Noun, stk: Stack): ByteState {
    match stk
    case Empty => Product(v)
    case Frame(Byte(prog, ip), r) => At(prog, ip, Push(v, r))
    case _ => Crash
  }

  function ByteEnter(fol: Noun, stk: Stack): ByteState {
    match Load(fol)
    case Some(code) => At(Asm(code), 0, stk)
    case None => Crash
  }

  function ByteStep(st: ByteState): ByteState {
    if !st.At? then st
    else if st.ip < |st.prog.bytes| && st.prog.bytes[st.ip] == 0 then
      if st.stk.Push? then ByteReturn(st.stk.top, st.stk.rest) else Crash
    else
      match Decode(st.prog, st.ip)
      case None => Crash
      case Some((op, next)) => Perform(st.prog, op, next, st.stk)
  }

  function Perform(prog: Prog, op: Op, next: nat, stk: Stack): ByteState {
    match Exec(op, stk)
    case Go(stk') => At(prog, next, stk')
    case Jump(n, stk') => At(prog, next + n, stk')
    case Call(fol, sub, stk') => ByteEnter(fol, Push(sub, Frame(Byte(prog, next), stk')))
    case Leap(fol, stk') => ByteEnter(fol, stk')
    case Die => Crash
  }

  function ByteRun(n: nat, st: ByteState): ByteState {
    if n == 0 then st else ByteRun(n - 1, ByteStep(st))
  }

  function ByteStart(s: Noun, f: Noun): ByteState {
    ByteEnter(f, Push(s, Empty))
  }

  /** Instructions skip no further than the end of their code. */
  predicate WellSkipped(code: Code) {
    code.Then? ==> Skipped(code.op) <= Len(code.next) && WellSkipped(code.next)
  }

  /** `p` holds the program `q`: its bytes from `ip` on, and its tables. */
  ghost predicate Holds(p: Prog, ip: nat, q: Prog) {
    && ip <= |p.bytes| && p.bytes[ip..] == q.bytes
    && q.lits <= p.lits && q.cals <= p.cals && q.mems <= p.mems && q.regs <= p.regs
  }

  /** Where instruction `i` of a program starts. */
  function Offset(code: Code, i: nat): nat
    requires i <= Len(code)
  {
    Span(Asm(code), Asm(Drop(i, code)))
  }

  lemma PutHolds(op: Op, sip: nat, q: Prog)
    ensures |q.bytes| < |Put(op, sip, q).bytes|
    ensures Holds(Put(op, sip, q), |Put(op, sip, q).bytes| - |q.bytes|, q)
  {
  }

  lemma HoldsTrans(p: Prog, i: nat, q: Prog, j: nat, r: Prog)
    requires Holds(p, i, q) && Holds(q, j, r)
    ensures Holds(p, i + j, r)
  {
    assert p.bytes[i..][j..] == p.bytes[i + j..];
  }

  lemma HoldsSelf(p: Prog)
    ensures Holds(p, 0, p)
  {
    assert p.bytes[0..] == p.bytes;
  }

  /** A program holds the program of each of its suffixes, at the suffix's offset. */
  lemma {:induction false} AsmHolds(code: Code, i: nat)
    requires i <= Len(code)
    ensures |Asm(Drop(i, code)).bytes| <= |Asm(code).bytes|
    ensures Holds(Asm(code), Offset(code, i), Asm(Drop(i, code)))
  {
    hide Put, Encode, Holds, SkipBytes;
    if i == 0 {
      HoldsSelf(Asm(code));
    } else {
      AsmHolds(code.next, i - 1);
      var sip, q := SkipBytes(code.op, code.next), Asm(code.next);
      PutHolds(code.op, sip, q);
      HoldsTrans(Asm(code), |Asm(code).bytes| - |q.bytes|, q, Offset(code.next, i - 1), Asm(Drop(i, code)));
    }
  }

  lemma {:induction false} DropDrop(code: Code, i: nat, j: nat)
    requires i + j <= Len(code)
    ensures Drop(j, Drop(i, code)) == Drop(i + j, code)
  {
    if i > 0 {
      DropDrop(code.next, i - 1, j);
    }
  }

  lemma {:induction false} WellSkippedDrop(code: Code, i: nat)
    requires WellSkipped(code) && i <= Len(code)
    ensures WellSkipped(Drop(i, code))
  {
    if i > 0 {
      WellSkippedDrop(code.next, i - 1);
    }
  }

  /** An instruction with its skip in bytes. */
  function InBytes(op: Op, sip: nat): Op {
    match op
    case Sbip(_) => Sbip(sip)
    case Sbin(_) => Sbin(sip)
    case Skim(key, _, lose) => Skim(key, sip, lose)
    case _ => op
  }

  lemma ReadShort(bytes: seq<nat>, ip: nat, x: nat)
    requires ip + 2 <= |bytes| && bytes[ip] == x % 0x100 && bytes[ip + 1] == x / 0x100 % 0x100 && x < 0x10000
    ensures Read(bytes, ip, 2) == x
  {
    assert Read(bytes, ip + 2, 0) == 0;
    assert Read(bytes, ip + 1, 1) == bytes[ip + 1];
  }

  lemma ReadWord(bytes: seq<nat>, ip: nat, x: nat)
    requires ip + 4 <= |bytes| && x < 0x1_0000_0000
    requires bytes[ip] == x % 0x100 && bytes[ip + 1] == x / 0x100 % 0x100
    requires bytes[ip + 2] == x / 0x10000 % 0x100 && bytes[ip + 3] == x / 0x1000000 % 0x100
    ensures Read(bytes, ip, 4) == x
  {
    var y := x / 0x100;
    var z := y / 0x100;
    assert z == x / 0x10000 && z / 0x100 == x / 0x1000000;
    assert x == 0x100 * y + x % 0x100 && y == 0x100 * z + y % 0x100 && z == 0x100 * (z / 0x100) + z % 0x100;
    assert Read(bytes, ip + 4, 0) == 0;
    assert Read(bytes, ip + 3, 1) == bytes[ip + 3];
    assert Read(bytes, ip + 2, 2) == bytes[ip + 2] + 0x100 * bytes[ip + 3];
    assert Read(bytes, ip + 1, 3) == bytes[ip + 1] + 0x100 * Read(bytes, ip + 2, 2);
  }

  /** The head of an assembled instruction, as `Decode` will see it. */
  lemma HeadDecodes(p: Prog, ip: nat, head: seq<nat>, cod: nat, x: nat)
    requires ip <= |p.bytes| && head <= p.bytes[ip..]
    requires |head| == 1 + ArgSize(cod) && head[0] == cod
    requires ArgSize(cod) == 1 ==> head[1] == x
    requires ArgSize(cod) == 2 ==> x < 0x10000 && head[1] == x % 0x100 && head[2] == x / 0x100 % 0x100
    requires ArgSize(cod) == 4 ==> x < 0x1_0000_0000 && head[1] == x % 0x100 && head[2] == x / 0x100 % 0x100
                                   && head[3] == x / 0x10000 % 0x100 && head[4] == x / 0x1000000 % 0x100
    requires ArgSize(cod) == 0 ==> x == 0
    requires Instr(p, cod, x).Some?
    ensures Decode(p, ip) == Some((Instr(p, cod, x).value, ip + |head|))
  {
    assert forall i :: 0 <= i < |head| ==> p.bytes[ip + i] == p.bytes[ip..][i] == head[i];
    if ArgSize(cod) == 1 {
      assert Read(p.bytes, ip + 2, 0) == 0;
    } else if ArgSize(cod) == 2 {
      assert p.bytes[ip + 1] == head[1] && p.bytes[ip + 2] == head[2];
      ReadShort(p.bytes, ip + 1, x);
    } else if ArgSize(cod) == 4 {
      assert p.bytes[ip + 1] == head[1] && p.bytes[ip + 2] == head[2] && p.bytes[ip + 3] == head[3]
          && p.bytes[ip + 4] == head[4];
      ReadWord(p.bytes, ip + 1, x);
    }
  }

  predicate Flagged(op: Op) {
    op.Auto? || op.Snoc? || op.Head? || op.Tail? || op.Same? || op.Wish? || op.Hind?
  }

  predicate Called(op: Op) {
    op.NockLose? || op.NockTail? || op.NockKeep? || op.Deep? || op.Bump?
  }

  predicate Small(op: Op) {
    op.Lit? || op.Sam? || op.Mut?
  }

  lemma InstrPlain(op: Op, p: Prog)
    requires Encode(op).1.NoArg?
    ensures ArgSize(Encode(op).0) == 0 && Encode(op).0 != 0 && Instr(p, Encode(op).0, 0) == Some(op)
  {
    hide *;
    if Flagged(op) {
      InstrFlagged(op, p);
    } else if Small(op) {
      InstrSmall(op, p);
    } else if Called(op) {
      InstrCalled(op, p);
    } else {
      InstrBare(op, p);
    }
  }

  lemma InstrFlagged(op: Op, p: Prog)
    requires Encode(op).1.NoArg? && Flagged(op)
    ensures ArgSize(Encode(op).0) == 0 && Encode(op).0 != 0 && Instr(p, Encode(op).0, 0) == Some(op)
  {
  }

  lemma InstrSmall(op: Op, p: Prog)
    requires Encode(op).1.NoArg? && Small(op)
    ensures ArgSize(Encode(op).0) == 0 && Encode(op).0 != 0 && Instr(p, Encode(op).0, 0) == Some(op)
  {
  }

  lemma InstrCalled(op: Op, p: Prog)
    requires Encode(op).1.NoArg? && Called(op)
    ensures ArgSize(Encode(op).0) == 0 && Encode(op).0 != 0 && Instr(p, Encode(op).0, 0) == Some(op)
  {
  }

  lemma InstrBare(op: Op, p: Prog)
    requires Encode(op).1.NoArg? && !Flagged(op) && !Small(op) && !Called(op)
    ensures ArgSize(Encode(op).0) == 0 && Encode(op).0 != 0 && Instr(p, Encode(op).0, 0) == Some(op)
  {
  }

  lemma InstrDirect(op: Op, p: Prog)
    requires Encode(op).1.Direct?
    ensures var (cod, arg) := Encode(op);
            && cod != 0 && arg.x <= (if arg.wide then 0xFFFF else 0xFF)
            && ArgSize(cod) == (if arg.wide then 2 else 1) && Instr(p, cod, arg.x) == Some(op)
  {
    match op
    case Frag(_, _) => InstrFrag(op, p);
    case Mut(_, _) => InstrMut(op, p);
    case Lit(_, _) => InstrLit(op, p);
    case _ =>
  }

  lemma InstrFrag(op: Op, p: Prog)
    requires Encode(op).1.Direct? && op.Frag?
    ensures var (cod, arg) := Encode(op);
            && cod != 0 && arg.x <= (if arg.wide then 0xFFFF else 0xFF)
            && ArgSize(cod) == (if arg.wide then 2 else 1) && Instr(p, cod, arg.x) == Some(op)
  {
  }

  lemma InstrMut(op: Op, p: Prog)
    requires Encode(op).1.Direct? && op.Mut?
    ensures var (cod, arg) := Encode(op);
            && cod != 0 && arg.x <= (if arg.wide then 0xFFFF else 0xFF)
            && ArgSize(cod) == (if arg.wide then 2 else 1) && Instr(p, cod, arg.x) == Some(op)
  {
  }

  lemma InstrLit(op: Op, p: Prog)
    requires Encode(op).1.Direct? && op.Lit?
    ensures var (cod, arg) := Encode(op);
            && cod != 0 && arg.x <= (if arg.wide then 0xFFFF else 0xFF)
            && ArgSize(cod) == (if arg.wide then 2 else 1) && Instr(p, cod, arg.x) == Some(op)
  {
  }

  lemma InstrLiteral(op: Op, p: Prog, i: nat, sip: nat)
    requires Encode(op).1.LitArg? && i < |p.lits| && p.lits[i] == Encode(op).1.lit
    ensures var cod := Encode(op).0;
            && cod != 0 && ArgSize(cod) == 1 && ArgSize(cod + 1) == 2 && op == InBytes(op, sip)
            && Instr(p, cod, i) == Some(op) && Instr(p, cod + 1, i) == Some(op)
  {
    if op.Frag? || op.Lit? {
      InstrLarge(op, p, i, sip);
    } else if op.Sam? || op.Mut? {
      InstrLarger(op, p, i, sip);
    }
  }

  lemma InstrLarge(op: Op, p: Prog, i: nat, sip: nat)
    requires Encode(op).1.LitArg? && i < |p.lits| && p.lits[i] == Encode(op).1.lit && (op.Frag? || op.Lit?)
    ensures var cod := Encode(op).0;
            && cod != 0 && ArgSize(cod) == 1 && ArgSize(cod + 1) == 2 && op == InBytes(op, sip)
            && Instr(p, cod, i) == Some(op) && Instr(p, cod + 1, i) == Some(op)
  {
  }

  lemma InstrLarger(op: Op, p: Prog, i: nat, sip: nat)
    requires Encode(op).1.LitArg? && i < |p.lits| && p.lits[i] == Encode(op).1.lit && (op.Sam? || op.Mut?)
    ensures var cod := Encode(op).0;
            && cod != 0 && ArgSize(cod) == 1 && ArgSize(cod + 1) == 2 && op == InBytes(op, sip)
            && Instr(p, cod, i) == Some(op) && Instr(p, cod + 1, i) == Some(op)
  {
  }

  lemma InstrTable(op: Op, p: Prog, i: nat, sip: nat)
    requires Encode(op).1.CalArg? ==> i < |p.cals| && p.cals[i] == Encode(op).1.cal
    requires Encode(op).1.MemArg? ==> i < |p.mems| && p.mems[i] == Memo(sip, Encode(op).1.key)
    requires Encode(op).1.CalArg? || Encode(op).1.MemArg? || Encode(op).1.RegArg?
    ensures var cod := Encode(op).0;
            && cod != 0 && ArgSize(cod) == 1 && ArgSize(cod + 1) == 2
            && Instr(p, cod, i) == Some(InBytes(op, sip)) && Instr(p, cod + 1, i) == Some(InBytes(op, sip))
  {
    hide *;
    TableOps(op);
    if op.Kick? {
      InstrKick(op, p, i);
    } else if op.Skim? {
      InstrSkim(op, p, i, sip);
    } else {
      InstrFast(op, p, i);
    }
    BytesAre(op, sip);
  }

  lemma TableOps(op: Op)
    requires Encode(op).1.CalArg? || Encode(op).1.MemArg? || Encode(op).1.RegArg?
    ensures op.Kick? || op.Skim? || op.Fast?
    ensures (op.Kick? <==> Encode(op).1.CalArg?) && (op.Skim? <==> Encode(op).1.MemArg?)
  {
  }

  lemma BytesAre(op: Op, sip: nat)
    ensures op.Skim? ==> InBytes(op, sip) == Skim(op.key, sip, op.lose)
    ensures !op.Skim? && !op.Sbip? && !op.Sbin? ==> InBytes(op, sip) == op
  {
  }

  lemma InstrKick(op: Op, p: Prog, i: nat)
    requires op.Kick? && Encode(op).1.CalArg? && i < |p.cals| && p.cals[i] == Encode(op).1.cal
    ensures var cod := Encode(op).0;
            && cod != 0 && ArgSize(cod) == 1 && ArgSize(cod + 1) == 2
            && Instr(p, cod, i) == Some(op) && Instr(p, cod + 1, i) == Some(op)
  {
  }

  lemma InstrSkim(op: Op, p: Prog, i: nat, sip: nat)
    requires op.Skim? && Encode(op).1.MemArg? && i < |p.mems| && p.mems[i] == Memo(sip, Encode(op).1.key)
    ensures var cod, now := Encode(op).0, Skim(op.key, sip, op.lose);
            && cod != 0 && ArgSize(cod) == 1 && ArgSize(cod + 1) == 2
            && Instr(p, cod, i) == Some(now) && Instr(p, cod + 1, i) == Some(now)
  {
  }

  lemma InstrFast(op: Op, p: Prog, i: nat)
    requires op.Fast?
    ensures var cod := Encode(op).0;
            && cod != 0 && ArgSize(cod) == 1 && ArgSize(cod + 1) == 2
            && Instr(p, cod, i) == Some(op) && Instr(p, cod + 1, i) == Some(op)
  {
  }

  /** An assembled instruction decodes to itself, wherever it is held. */
  lemma PutDecodes(op: Op, sip: nat, q: Prog, r: Prog, p: Prog, ip: nat)
    requires r == Put(op, sip, q) && Holds(p, ip, r) && Fits(p) && sip < 0x1_0000_0000
    ensures ip < |p.bytes| && p.bytes[ip] != 0
    ensures Decode(p, ip) == Some((InBytes(op, sip), ip + |r.bytes| - |q.bytes|))
  {
    SkipArgs(op);
    hide Put, Encode, InBytes, Decode;
    var arg := Encode(op).1;
    if arg.NoArg? || arg.Direct? {
      PutPlain(op, sip, q, p, ip);
    } else if arg.SkipArg? {
      PutSkip(op, sip, q, p, ip);
    } else {
      PutIndexed(op, sip, q, p, ip);
    }
  }

  lemma SkipArgs(op: Op)
    ensures Encode(op).1.SkipArg? <==> op.Sbip? || op.Sbin?
  {
  }

  lemma PlainBytes(op: Op, sip: nat, q: Prog)
    requires Encode(op).1.NoArg? || Encode(op).1.Direct?
    ensures var (cod, arg) := Encode(op);
            InBytes(op, sip) == op && Put(op, sip, q).bytes ==
              (if arg.NoArg? then [cod] else if arg.wide then [cod, arg.x % 0x100, arg.x / 0x100] else [cod, arg.x])
              + q.bytes
  {
  }

  lemma PutPlain(op: Op, sip: nat, q: Prog, p: Prog, ip: nat)
    requires Encode(op).1.NoArg? || Encode(op).1.Direct?
    requires Holds(p, ip, Put(op, sip, q))
    ensures ip < |p.bytes| && p.bytes[ip] != 0
    ensures Decode(p, ip) == Some((InBytes(op, sip), ip + |Put(op, sip, q).bytes| - |q.bytes|))
  {
    hide *;
    var (cod, arg) := Encode(op);
    PlainBytes(op, sip, q);
    if arg.NoArg? {
      InstrPlain(op, p);
      HeadHeld(p, ip, Put(op, sip, q), [cod], q.bytes);
      HeadDecodes(p, ip, [cod], cod, 0);
    } else {
      InstrDirect(op, p);
      var head := if arg.wide then [cod, arg.x % 0x100, arg.x / 0x100] else [cod, arg.x];
      HeadHeld(p, ip, Put(op, sip, q), head, q.bytes);
      HeadDecodes(p, ip, head, cod, arg.x);
    }
  }

  /** What comes first where a program is held. */
  lemma HeadHeld(p: Prog, ip: nat, r: Prog, head: seq<nat>, tail: seq<nat>)
    requires Holds(p, ip, r) && r.bytes == head + tail && |head| > 0
    ensures ip < |p.bytes| && head <= p.bytes[ip..] && p.bytes[ip] == head[0]
    ensures |r.bytes| - |tail| == |head|
  {
    assert p.bytes[ip] == p.bytes[ip..][0];
  }

  lemma InstrSkip(op: Op, sip: nat, p: Prog, width: nat)
    requires (op.Sbip? || op.Sbin?) && width < 3
    ensures var cod := if op.Sbip? then 47 else 50;
            Instr(p, cod + width, sip) == Some(InBytes(op, sip)) && ArgSize(cod + width) == [1, 2, 4][width]
  {
  }

  lemma PutSkip(op: Op, sip: nat, q: Prog, p: Prog, ip: nat)
    requires op.Sbip? || op.Sbin?
    requires Holds(p, ip, Put(op, sip, q)) && sip < 0x1_0000_0000
    ensures ip < |p.bytes| && p.bytes[ip] != 0
    ensures Decode(p, ip) == Some((InBytes(op, sip), ip + |Put(op, sip, q).bytes| - |q.bytes|))
  {
    var cod := if op.Sbip? then 47 else 50;
    var width := if sip <= 0xFF then 0 else if sip <= 0xFFFF then 1 else 2;
    InstrSkip(op, sip, p, width);
    hide Instr, Decode, Read, InBytes;
    assert p.bytes[ip] == p.bytes[ip..][0];
    HeadDecodes(p, ip, Distance(cod, sip), cod + width, sip);
  }

  /** The index an instruction gets, which is the size of its table so far. */
  function TableIndex(op: Op, q: Prog): nat {
    match Encode(op).1
    case CalArg(_) => |q.cals|
    case RegArg => q.regs
    case MemArg(_, _) => |q.mems|
    case _ => |q.lits|
  }

  lemma PutIndexed(op: Op, sip: nat, q: Prog, p: Prog, ip: nat)
    requires var arg := Encode(op).1; arg.LitArg? || arg.CalArg? || arg.RegArg? || arg.MemArg?
    requires Holds(p, ip, Put(op, sip, q)) && Fits(p)
    ensures ip < |p.bytes| && p.bytes[ip] != 0
    ensures Decode(p, ip) == Some((InBytes(op, sip), ip + |Put(op, sip, q).bytes| - |q.bytes|))
  {
    hide Put, Encode, Instr, InBytes;
    var r, i, arg := Put(op, sip, q), TableIndex(op, q), Encode(op).1;
    PutTables(op, sip, q);
    assert p.bytes[ip] == p.bytes[ip..][0];
    assert Index(Encode(op).0, i) <= p.bytes[ip..];
    if arg.LitArg? {
      assert p.lits[i] == r.lits[i];
      InstrLiteral(op, p, i, sip);
    } else {
      assert arg.CalArg? ==> p.cals[i] == r.cals[i];
      assert arg.MemArg? ==> p.mems[i] == r.mems[i];
      InstrTable(op, p, i, sip);
    }
    IndexDecodes(p, ip, Encode(op).0, i);
  }

  /** What `Put` writes and where it files the argument, for an indexed one. */
  lemma PutTables(op: Op, sip: nat, q: Prog)
    requires var arg := Encode(op).1; arg.LitArg? || arg.CalArg? || arg.RegArg? || arg.MemArg?
    ensures var r, i, arg := Put(op, sip, q), TableIndex(op, q), Encode(op).1;
            && r.bytes == Index(Encode(op).0, i) + q.bytes
            && (arg.LitArg? ==> i < |r.lits| && r.lits[i] == arg.lit)
            && (arg.CalArg? ==> i < |r.cals| && r.cals[i] == arg.cal)
            && (arg.MemArg? ==> i < |r.mems| && r.mems[i] == Memo(sip, arg.key))
            && (arg.RegArg? ==> i < r.regs)
  {
  }

  lemma IndexDecodes(p: Prog, ip: nat, cod: nat, i: nat)
    requires ip <= |p.bytes| && Index(cod, i) <= p.bytes[ip..] && i < 0x10000
    requires ArgSize(cod) == 1 && ArgSize(cod + 1) == 2
    requires Instr(p, cod, i).Some? && Instr(p, cod + 1, i) == Instr(p, cod, i)
    ensures Decode(p, ip) == Some((Instr(p, cod, i).value, ip + |Index(cod, i)|))
  {
    HeadDecodes(p, ip, Index(cod, i), if i <= 0xFF then cod else cod + 1, i);
  }

  /** Decoding undoes assembling: at the offset of every instruction its program
      reads as that instruction, followed by the next one; and its skip, now in
      bytes, lands exactly on the instruction that many instructions later. */
  lemma DecodeAsm(code: Code, i: nat)
    requires WellSkipped(code) && Fits(Asm(code)) && i < Len(code)
    ensures Skipped(Drop(i, code).op) <= Len(Drop(i, code).next)
    ensures var op, p, ip, next := Drop(i, code).op, Asm(code), Offset(code, i), Offset(code, i + 1);
            var sip := SkipBytes(op, Drop(i, code).next);
            && ip < |p.bytes| && p.bytes[ip] != 0
            && Decode(p, ip) == Some((InBytes(op, sip), next))
            && Offset(code, i + 1 + Skipped(op)) == next + sip
  {
    hide *;
    var rest := Drop(i, code);
    WellSkippedDrop(code, i);
    DropDrop(code, i, 1);
    FirstOf(rest);
    AsmHolds(code, i);
    AsmHolds(code, i + 1);
    var q, sip, n := Asm(rest.next), SkipBytes(rest.op, rest.next), Skipped(rest.op);
    AsmHolds(rest.next, n);
    DropDrop(code, i + 1, n);
    AsmHolds(code, i + 1 + n);
    OffsetIs(code, i);
    OffsetIs(code, i + 1);
    OffsetIs(code, i + 1 + n);
    FitsBytes(Asm(code));
    PutHolds(rest.op, sip, q);
    PutDecodes(rest.op, sip, q, Asm(rest), Asm(code), Offset(code, i));
  }

  lemma FitsBytes(p: Prog)
    requires Fits(p)
    ensures |p.bytes| < 0x1_0000_0000
  {
  }

  lemma OffsetIs(code: Code, i: nat)
    requires i <= Len(code)
    ensures Offset(code, i) == Span(Asm(code), Asm(Drop(i, code)))
    ensures |Asm(Drop(i, code)).bytes| <= |Asm(code).bytes| ==>
              Offset(code, i) == |Asm(code).bytes| - |Asm(Drop(i, code)).bytes|
  {
    hide Asm;
  }

  /** The first instruction of a program. */
  lemma FirstOf(code: Code)
    requires WellSkipped(code) && Len(code) > 0
    ensures code.Then? && Len(code) == 1 + Len(code.next) && Skipped(code.op) <= Len(code.next)
    ensures Drop(1, code) == code.next
    ensures Asm(code) == Put(code.op, SkipBytes(code.op, code.next), Asm(code.next))
    ensures var rest := Asm(Drop(Skipped(code.op), code.next));
            SkipBytes(code.op, code.next) == Span(Asm(code.next), rest)
            && (|rest.bytes| <= |Asm(code.next).bytes| ==>
                SkipBytes(code.op, code.next) == |Asm(code.next).bytes| - |rest.bytes|)
  {
    hide Put, Skipped;
  }

  /** The last byte of a program is the halt. */
  lemma HaltLast(code: Code)
    ensures |Asm(code).bytes| > 0 && Offset(code, Len(code)) == |Asm(code).bytes| - 1
    ensures Asm(code).bytes[Offset(code, Len(code))] == 0
  {
    AsmHolds(code, Len(code));
    assert Drop(Len(code), code) == End;
    assert Asm(code).bytes[Offset(code, Len(code))..][0] == 0;
  }

  lemma DistanceIsBytes(cod: nat, sip: nat)
    requires cod < 0x80
    ensures forall b :: b in Distance(cod, sip) ==> b < 0x100
  {
    assert sip <= 0xFFFF ==> sip / 0x100 < 0x100;
  }

  lemma CodeSmall(op: Op)
    ensures Encode(op).0 < 0x60
  {
  }

  lemma IndexIsBytes(cod: nat, i: nat)
    requires cod < 0x80
    ensures i < 0x10000 ==> forall b :: b in Index(cod, i) ==> b < 0x100
  {
  }

  lemma PutIsBytes(op: Op, sip: nat, q: Prog)
    requires Fits(Put(op, sip, q)) && forall b :: b in q.bytes ==> b < 0x100
    ensures forall b :: b in Put(op, sip, q).bytes ==> b < 0x100
  {
    var (cod, arg) := Encode(op);
    CodeSmall(op);
    if arg.Direct? {
      InstrDirect(op, q);
    } else if arg.SkipArg? {
      DistanceIsBytes(cod, sip);
    } else if !arg.NoArg? {
      IndexIsBytes(cod, TableIndex(op, q));
    }
    hide Encode, Instr, ArgSize, Distance, Index;
  }

  /** Everything in the byte stream is a byte. */
  lemma {:induction false} AsmIsBytes(code: Code)
    requires Fits(Asm(code))
    ensures forall b :: b in Asm(code).bytes ==> b < 0x100
  {
    if code.Then? {
      AsmHolds(code, 1);
      assert Drop(1, code) == code.next;
      AsmIsBytes(code.next);
      PutIsBytes(code.op, SkipBytes(code.op, code.next), Asm(code.next));
    }
  }
}
