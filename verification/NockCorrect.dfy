/** Compiler correctness: bytecode yields a product exactly when the guarded
    reductions do, so never a wrong one, and a product of the reductions is lost
    only where a guard is met. */
module NockCorrect {
  import opened Nouns
  import opened NockSpec
  import opened NockComp
  import opened NockAsm
  import opened NockMachine
  import opened NockGuard
  import opened NockForward
  import opened NockBackward
  import opened NockBytes
  import opened NockFits

  /** Code that falls within itself when it skips stays so inside other code. */
  lemma {:induction false} WellSkippedAppend(a: Code, b: Code)
    requires WellSkipped(a) && WellSkipped(b)
    ensures WellSkipped(Append(a, b))
  {
    if a.Then? {
      WellSkippedAppend(a.next, b);
      DropAppend(a.next, b);
    }
  }

  lemma {:induction false} ForkSkips(yep: Code, nop: Code)
    requires WellSkipped(yep) && WellSkipped(nop)
    ensures WellSkipped(Fork(yep, nop))
  {
    WellSkippedAppend(yep, Then(Sbip(Len(nop)), nop));
    DropAppend(yep, Then(Sbip(Len(nop)), nop));
  }

  lemma {:induction false} FencedSkips(fore: Op, q: Code, los: bool, clue: bool)
    requires WellSkipped(q) && Skipped(fore) == 0
    ensures WellSkipped(Fenced(fore, q, los, clue))
  {
    var hind := Hindmost(los, clue);
    assert WellSkipped(hind.next.next) && Len(hind.next.next) == 1;
    assert WellSkipped(hind.next) && Len(hind.next) == 2;
    assert WellSkipped(hind);
    WellSkippedAppend(q, hind);
    DropAppend(q, hind);
  }

  lemma {:induction false} SkimSkips(key: Noun, q: Code, los: bool)
    requires WellSkipped(q)
    ensures WellSkipped(Then(Toss, Then(Skim(key, Len(q) + 1, los), Append(q, One(Save)))))
  {
    WellSkippedAppend(q, One(Save));
    DropAppend(q, One(Save));
    assert Len(One(Save)) == 1;
    assert WellSkipped(Then(Skim(key, Len(q) + 1, los), Append(q, One(Save))));
  }

  lemma {:induction false} PairSkips(b: Noun, c: Noun, los: bool, op: Op)
    requires Pair(b, c, los, op).Some? && Skipped(op) == 0
    ensures WellSkipped(Pair(b, c, los, op).value)
    decreases Weight(b) + Weight(c), 1
  {
    CompSkips(b, false, false);
    CompSkips(c, los, false);
    var q := Comp(c, los, false).value;
    WellSkippedAppend(q, One(op));
    WellSkippedAppend(Comp(b, false, false).value, Then(Swap, Append(q, One(op))));
  }

  lemma {:induction false} ArmSkips(f: Noun, los: bool, tel: bool)
    requires Arm(f, los, tel).Some?
    ensures WellSkipped(Arm(f, los, tel).value)
    decreases Weight(f), 1
  {
    if Formulaic(f) {
      CompSkips(f, los, tel);
    }
  }

  lemma WrapSkips(pre: Op, q: Code, post: Op)
    requires WellSkipped(q) && Skipped(pre) == Skipped(post) == 0
    ensures WellSkipped(Then(pre, q)) && WellSkipped(Then(pre, Append(q, One(post))))
  {
    WellSkippedAppend(q, One(post));
  }

  lemma {:induction false} HintSkips(zep: Noun, nef: Noun, los: bool, tel: bool)
    requires Hinted(zep, nef, los, tel).Some?
    ensures WellSkipped(Hinted(zep, nef, los, tel).value)
    decreases Weight(nef), 1
  {
    hide WellSkipped;
    hide Append;
    hide Len;
    hide Fenced;
    if Traced(zep) || zep == Atom(FAST) {
      CompSkips(nef, los, false);
      WrapSkips(if Traced(zep) then Bush(zep) else Swap, Comp(nef, los, false).value,
                if Traced(zep) then Untrace else Fast(los));
    } else if zep == Atom(MEMO) {
      CompSkips(nef, true, false);
      SkimSkips(nef, Comp(nef, true, false).value, los);
    } else if Plain(zep).None? {
      CompSkips(nef, los, false);
      FencedSkips(Fore(Cell(zep, nef), true), Comp(nef, los, false).value, los, true);
    } else {
      CompSkips(nef, los, tel);
      WrapSkips(Plain(zep).value, Comp(nef, los, tel).value, Toss);
    }
  }

  lemma {:induction false} BintSkips(hif: Noun, nef: Noun, los: bool, tel: bool)
    requires Bint(hif, nef, los, tel).Some?
    ensures WellSkipped(Bint(hif, nef, los, tel).value)
    decreases Weight(hif) + Weight(nef), 1
  {
    match hif
    case Atom(_) =>
      if AtomProtocol(hif) {
        CompSkips(nef, los, false);
        FencedSkips(Fore(Cell(hif, nef), false), Comp(nef, los, false).value, los, false);
      } else {
        CompSkips(nef, los, tel);
      }
    case Cell(zep, hod) =>
      CompSkips(hod, false, false);
      HintSkips(zep, nef, los, tel);
      WellSkippedAppend(Comp(hod, false, false).value, Hinted(zep, nef, los, tel).value);
  }

  /** Compiled code never skips out of itself. */
  lemma {:induction false} CompSkips(f: Noun, los: bool, tel: bool)
    requires Comp(f, los, tel).Some?
    ensures WellSkipped(Comp(f, los, tel).value)
    decreases Weight(f), 0
  {
    if f.Cell? && f.h.Atom? && f.h.a >= 6 {
      HighSkips(f, los, tel);
    } else {
      LowSkips(f, los, tel);
    }
  }

  /** Code of one instruction, or none, that is no skip. */
  lemma OneSkips()
    ensures WellSkipped(End) && forall op: Op :: Skipped(op) == 0 ==> WellSkipped(One(op))
  {
  }

  lemma {:induction false} LowSkips(f: Noun, los: bool, tel: bool)
    requires f.Cell? && (f.h.Atom? ==> f.h.a < 6) && Comp(f, los, tel).Some?
    ensures WellSkipped(Comp(f, los, tel).value)
    decreases Weight(f) - 1, 2
  {
    hide WellSkipped, Append, Len, Fork, Pair, Arm, Bint, Macro, Formulaic, SafetyOf;
    OneSkips();
    Lighter(f);
    match f
    case Cell(Cell(_, _), arg) =>
      PairSkips(f.h, arg, los, Auto(los));
    case Cell(Atom(0), Atom(_)) =>
    case Cell(Atom(1), _) =>
    case Cell(Atom(2), Cell(b, c)) =>
      PairSkips(b, c, los, CallOp(los, tel));
    case Cell(Atom(3), b) =>
      CompSkips(b, los, false);
      WellSkippedAppend(Comp(b, los, false).value, One(Deep));
    case Cell(Atom(4), b) =>
      CompSkips(b, los, false);
      WellSkippedAppend(Comp(b, los, false).value, One(Bump));
    case Cell(Atom(5), Cell(b, c)) =>
      if b.h != Atom(1) && c.h != Atom(1) {
        PairSkips(b, c, los, Same(los));
      } else if b.h != Atom(1) || c.h != Atom(1) {
        var e, x := if b.h == Atom(1) then c else b, if b.h == Atom(1) then b.t else c.t;
        CompSkips(e, los, false);
        WellSkippedAppend(Comp(e, los, false).value, One(Sam(x)));
      }
  }

  lemma {:induction false} HighSkips(f: Noun, los: bool, tel: bool)
    requires f.Cell? && f.h.Atom? && f.h.a >= 6 && Comp(f, los, tel).Some?
    ensures WellSkipped(Comp(f, los, tel).value)
    decreases Weight(f) - 1, 2
  {
    hide WellSkipped, Append, Len, Fork, Pair, Arm, Bint, Macro, Formulaic, SafetyOf;
    OneSkips();
    Lighter(f);
    match f
    case Cell(Atom(6), Cell(b, Cell(c, d))) =>
      if Constant(b).None? {
        CompSkips(b, false, false);
        ArmSkips(c, los, tel);
        ArmSkips(d, los, tel);
        ForkSkips(Arm(c, los, tel).value, Arm(d, los, tel).value);
        WellSkippedAppend(Comp(b, false, false).value, Fork(Arm(c, los, tel).value, Arm(d, los, tel).value));
      } else if Constant(b).value in {Atom(0), Atom(1)} {
        CompSkips(if Constant(b).value == Atom(0) then c else d, los, tel);
      }
    case Cell(Atom(7), Cell(b, c)) =>
      CompSkips(b, los, false);
      CompSkips(c, true, tel);
      WellSkippedAppend(Comp(b, los, false).value, Comp(c, true, tel).value);
    case Cell(Atom(8), Cell(b, c)) =>
      CompSkips(b, false, false);
      CompSkips(c, true, tel);
      WrapSkips(Snoc(los), Comp(c, true, tel).value, Toss);
      WellSkippedAppend(Comp(b, false, false).value, Then(Snoc(los), Comp(c, true, tel).value));
    case Cell(Atom(9), Cell(b, c)) =>
      if b.a == 1 || Cap(b.a) == Some(3) {
        MacroLighter(b, c);
        CompSkips(Macro(b, c), los, tel);
      } else {
        CompSkips(c, tel || los, false);
        WellSkippedAppend(Comp(c, tel || los, false).value, One(Kick(b.a, tel)));
      }
    case Cell(Atom(10), Cell(Cell(b, c), d)) =>
      PairSkips(d, c, los, Mut(b, los));
    case Cell(Atom(11), Cell(hif, nef)) =>
      BintSkips(hif, nef, los, tel);
    case Cell(Atom(12), Cell(b, c)) =>
      PairSkips(b, c, los, Wish(los));
  }

  /** A place in code and a place in bytes are the same place of one program. */
  ghost predicate SamePlace(code: Code, prog: Prog, ip: nat) {
    exists full: Code, i: nat :: InProgram(full, i, code, prog, ip)
  }

  ghost predicate InProgram(full: Code, i: nat, code: Code, prog: Prog, ip: nat) {
    && WellSkipped(full) && prog == Asm(full) && Fits(prog)
    && i <= Len(full) && Drop(i, full) == code && ip == Offset(full, i)
  }

  ghost predicate SameStack(S: Stack, T: Stack) {
    match (S, T)
    case (Empty, Empty) => true
    case (Push(v, S'), Push(w, T')) => v == w && SameStack(S', T')
    case (Frame(Rest(code), S'), Frame(Byte(prog, ip), T')) => SamePlace(code, prog, ip) && SameStack(S', T')
    case _ => false
  }

  ghost predicate SameState(a: State, b: ByteState) {
    match (a, b)
    case (Running(code, S), At(prog, ip, T)) => SamePlace(code, prog, ip) && SameStack(S, T)
    case (Done(v), Product(w)) => v == w
    case (Dead, Crash) => true
    case _ => false
  }

  ghost predicate SameEffect(op: Op, sip: nat, a: Effect, b: Effect) {
    match (a, b)
    case (Go(S), Go(T)) => SameStack(S, T)
    case (Jump(n, S), Jump(m, T)) => n == Skipped(op) && m == sip && SameStack(S, T)
    case (Call(f, s, S), Call(g, t, T)) => f == g && s == t && SameStack(S, T)
    case (Leap(f, S), Leap(g, T)) => f == g && SameStack(S, T)
    case (Die, Die) => true
    case _ => false
  }

  /** Instructions do the same to the same stacks; skips differ in their unit. */
  lemma ExecSame(op: Op, sip: nat, S: Stack, T: Stack)
    requires SameStack(S, T)
    ensures SameEffect(op, sip, Exec(op, S), Exec(InBytes(op, sip), T))
  {
    hide *;
    if op.Auto? || op.Same? {
      ExecSameThree(op, sip, S, T);
    } else if op.Mut? {
      ExecSameMut(op, sip, S, T);
    } else if op.Fast? {
      ExecSameFast(op, sip, S, T);
    } else if op.Hind? {
      ExecSameHind(op, sip, S, T);
    } else if op.NockKeep? {
      ExecSameKeep(op, sip, S, T);
    } else if op.Fore? {
      ExecSameFore(op, sip, S, T);
    } else if op.Sbip? || op.Sbin? {
      ExecSameFlow(op, sip, S, T);
    } else if op.Skim? {
      ExecSameSkim(op, sip, S, T);
    } else if op.Kick? {
      ExecSameKick(op, sip, S, T);
    } else if op.NockLose? || op.NockTail? {
      ExecSameCall(op, sip, S, T);
    } else if op.Copy? || op.Swap? || op.Toss? || op.Snoc? || op.Head? || op.Tail? || op.Frag? {
      ExecSameCells(op, sip, S, T);
    } else {
      ExecSameFlat(op, sip, S, T);
    }
  }

  lemma ExecSameCells(op: Op, sip: nat, S: Stack, T: Stack)
    requires op.Copy? || op.Swap? || op.Toss? || op.Snoc? || op.Head? || op.Tail? || op.Frag?
    requires SameStack(S, T)
    ensures SameEffect(op, sip, Exec(op, S), Exec(InBytes(op, sip), T))
  {
    assert InBytes(op, sip) == op;
    assert S.Push? ==> SameStack(S.rest, T.rest);
  }

  lemma ExecSameFlat(op: Op, sip: nat, S: Stack, T: Stack)
    requires !(op.Auto? || op.Same? || op.Mut? || op.Fast? || op.Hind? || op.NockKeep? || op.Fore?)
    requires !(op.Sbip? || op.Sbin? || op.Kick? || op.NockLose? || op.NockTail? || op.Skim?)
    requires !(op.Copy? || op.Swap? || op.Toss? || op.Snoc? || op.Head? || op.Tail? || op.Frag?)
    requires SameStack(S, T)
    ensures SameEffect(op, sip, Exec(op, S), Exec(InBytes(op, sip), T))
  {
    assert InBytes(op, sip) == op;
    assert S.Push? ==> SameStack(S.rest, T.rest);
  }

  /** The instructions that move within the program, or leave it. */
  lemma ExecSameFlow(op: Op, sip: nat, S: Stack, T: Stack)
    requires op.Sbip? || op.Sbin?
    requires SameStack(S, T)
    ensures SameEffect(op, sip, Exec(op, S), Exec(InBytes(op, sip), T))
  {
    assert S.Push? ==> SameStack(S.rest, T.rest);
  }

  lemma ExecSameSkim(op: Op, sip: nat, S: Stack, T: Stack)
    requires op.Skim? && SameStack(S, T)
    ensures SameEffect(op, sip, Exec(op, S), Exec(InBytes(op, sip), T))
  {
    assert S.Push? ==> SameStack(S.rest, T.rest);
  }

  lemma ExecSameKick(op: Op, sip: nat, S: Stack, T: Stack)
    requires op.Kick? && SameStack(S, T)
    ensures SameEffect(op, sip, Exec(op, S), Exec(InBytes(op, sip), T))
  {
    assert InBytes(op, sip) == op;
    assert S.Push? ==> SameStack(S.rest, T.rest);
  }

  lemma ExecSameCall(op: Op, sip: nat, S: Stack, T: Stack)
    requires op.NockLose? || op.NockTail?
    requires SameStack(S, T)
    ensures SameEffect(op, sip, Exec(op, S), Exec(InBytes(op, sip), T))
  {
    assert InBytes(op, sip) == op;
    assert S.Push? ==> SameStack(S.rest, T.rest);
  }

  /** The instructions that look below the second item. */
  lemma ExecSameThree(op: Op, sip: nat, S: Stack, T: Stack)
    requires op.Auto? || op.Same?
    requires SameStack(S, T)
    ensures SameEffect(op, sip, Exec(op, S), Exec(InBytes(op, sip), T))
  {
    assert InBytes(op, sip) == op;
    if S.Push? && S.rest.Push? {
      assert SameStack(S.rest.rest, T.rest.rest);
    }
  }

  lemma ExecSameMut(op: Op, sip: nat, S: Stack, T: Stack)
    requires op.Mut? && SameStack(S, T)
    ensures SameEffect(op, sip, Exec(op, S), Exec(InBytes(op, sip), T))
  {
    assert InBytes(op, sip) == op;
    if S.Push? && S.rest.Push? {
      assert SameStack(S.rest.rest, T.rest.rest);
    }
  }

  lemma ExecSameFast(op: Op, sip: nat, S: Stack, T: Stack)
    requires op.Fast? && SameStack(S, T)
    ensures SameEffect(op, sip, Exec(op, S), Exec(InBytes(op, sip), T))
  {
    assert InBytes(op, sip) == op;
    if S.Push? && S.rest.Push? {
      assert SameStack(S.rest.rest, T.rest.rest);
    }
  }

  lemma ExecSameHind(op: Op, sip: nat, S: Stack, T: Stack)
    requires op.Hind? && SameStack(S, T)
    ensures SameEffect(op, sip, Exec(op, S), Exec(InBytes(op, sip), T))
  {
    assert InBytes(op, sip) == op;
    if S.Push? && S.rest.Push? {
      assert SameStack(S.rest.rest, T.rest.rest);
    }
  }

  lemma ExecSameKeep(op: Op, sip: nat, S: Stack, T: Stack)
    requires op.NockKeep? && SameStack(S, T)
    ensures SameEffect(op, sip, Exec(op, S), Exec(InBytes(op, sip), T))
  {
    assert InBytes(op, sip) == op;
    if S.Push? && S.rest.Push? {
      assert SameStack(S.rest.rest, T.rest.rest);
    }
  }

  lemma ExecSameFore(op: Op, sip: nat, S: Stack, T: Stack)
    requires op.Fore? && SameStack(S, T)
    ensures SameEffect(op, sip, Exec(op, S), Exec(InBytes(op, sip), T))
  {
    assert InBytes(op, sip) == op;
    if S.Push? && S.rest.Push? {
      assert SameStack(S.rest.rest, T.rest.rest);
    }
  }

  lemma EnterSame(f: Noun, S: Stack, T: Stack)
    requires SameStack(S, T)
    ensures SameState(Enter(f, S), ByteEnter(f, T))
  {
    if Load(f).Some? {
      var code := Load(f).value;
      CompSkips(f, true, true);
      AsmHolds(code, 0);
      assert InProgram(code, 0, code, Asm(code), 0);
    }
  }

  lemma ReturnSame(v: Noun, S: Stack, T: Stack)
    requires SameStack(S, T)
    ensures SameState(Return(v, S), ByteReturn(v, T))
  {
  }

  /** One step of the two machines, in lockstep. */
  lemma StepSame(a: State, b: ByteState)
    requires SameState(a, b)
    ensures SameState(Step(a), ByteStep(b))
  {
    if a.Running? {
      hide Exec, Decode, Asm, Put, Load, Instr;
      var full: Code, i: nat :| InProgram(full, i, a.code, b.prog, b.ip);
      if a.code == End {
        EndAtLen(full, i);
        HaltLast(full);
        if a.stk.Push? {
          ReturnSame(a.stk.top, a.stk.rest, b.stk.rest);
        }
      } else {
        StepOpSame(full, i, a, b);
      }
    }
  }

  lemma {:induction false} EndAtLen(full: Code, i: nat)
    requires i <= Len(full) && Drop(i, full) == End
    ensures i == Len(full)
  {
    if i > 0 {
      EndAtLen(full.next, i - 1);
    }
  }

  lemma {:induction false} DropBound(full: Code, i: nat)
    requires i <= Len(full) && Drop(i, full).Then?
    ensures i < Len(full) && Drop(1, Drop(i, full)) == Drop(i, full).next
  {
    if i > 0 {
      DropBound(full.next, i - 1);
    } else {
      assert Drop(0, full.next) == full.next;
    }
  }

  lemma StepOpSame(full: Code, i: nat, a: State, b: ByteState)
    requires a.Running? && b.At? && a.code.Then? && InProgram(full, i, a.code, b.prog, b.ip) && SameStack(a.stk, b.stk)
    ensures SameState(Step(a), ByteStep(b))
  {
    hide Exec, Decode, Asm, Put, Load, Instr, InBytes, Offset, SkipBytes, Enter, Return, Len, Drop;
    var op, next := a.code.op, a.code.next;
    var sip := SkipBytes(op, next);
    DropBound(full, i);
    DecodeAsm(full, i);
    DropDrop(full, i, 1);
    assert Drop(1, a.code) == next;
    var ip := Offset(full, i + 1);
    assert InProgram(full, i + 1, next, b.prog, ip);
    ExecSame(op, sip, a.stk, b.stk);
    match Exec(op, a.stk)
    case Go(_) =>
    case Jump(n, _) =>
      DropDrop(full, i + 1, n);
      assert InProgram(full, i + 1 + n, Drop(n, next), b.prog, ip + sip);
    case Call(f, s, S) =>
      var T := Exec(InBytes(op, sip), b.stk).stk;
      EnterSame(f, Push(s, Frame(Rest(next), S)), Push(s, Frame(Byte(b.prog, ip), T)));
    case Leap(f, S) =>
      EnterSame(f, S, Exec(InBytes(op, sip), b.stk).stk);
    case Die =>
  }

  lemma {:induction false} RunSame(n: nat, a: State, b: ByteState)
    requires SameState(a, b)
    ensures SameState(Run(n, a), ByteRun(n, b))
  {
    hide Step, ByteStep, SameState;
    if n > 0 {
      StepSame(a, b);
      RunSame(n - 1, Step(a), ByteStep(b));
    }
  }

  /** Running the bytecode of a formula on a subject yields a product. */
  ghost predicate Burns(s: Noun, f: Noun, v: Noun) {
    exists n: nat :: ByteRun(n, ByteStart(s, f)) == Product(v)
  }

  ghost predicate GuardedYields(s: Noun, f: Noun, v: Noun) {
    exists k: nat :: Entered(k, s, f) == Val(v)
  }

  ghost predicate MeetsGuard(s: Noun, f: Noun) {
    exists k: nat :: Entered(k, s, f).Guard?
  }

  lemma StartSame(s: Noun, f: Noun)
    ensures SameState(Start(s, f), ByteStart(s, f))
  {
    assert SameStack(Push(s, Empty), Push(s, Empty)) by {
      assert SameStack(Empty, Empty);
    }
    EnterSame(f, Push(s, Empty), Push(s, Empty));
  }

  /** Bytecode yields exactly what the guarded reductions yield. */
  lemma BurnExact(s: Noun, f: Noun, v: Noun)
    ensures Burns(s, f, v) <==> GuardedYields(s, f, v)
  {
    StartSame(s, f);
    if GuardedYields(s, f, v) {
      var k: nat :| Entered(k, s, f) == Val(v);
      EnterForward(k, s, f, Empty);
      var n: nat :| Run(n, Start(s, f)) == Done(v);
      RunSame(n, Start(s, f), ByteStart(s, f));
    }
    if Burns(s, f, v) {
      var n: nat :| ByteRun(n, ByteStart(s, f)) == Product(v);
      RunSame(n, Start(s, f), ByteStart(s, f));
      var k := EnterBack(n, s, f, Empty, v);
      EnterForward(k, s, f, Empty);
      var w := Entered(k, s, f).v;
      var m := Onward(n, Start(s, f), Done(w), v);
      Stuck(m, Done(w));
    }
  }

  /** Soundness: bytecode never yields anything but the product of the reductions. */
  lemma BurnSound(s: Noun, f: Noun, v: Noun)
    requires Burns(s, f, v)
    ensures Yields(s, f, v)
  {
    BurnExact(s, f, v);
    var k: nat :| Entered(k, s, f) == Val(v);
    var l := GuardedIsNock(k, s, f);
  }

  /** Completeness: a product of the reductions is found, unless a guard is met. */
  lemma BurnComplete(s: Noun, f: Noun, v: Noun)
    requires Yields(s, f, v)
    ensures Burns(s, f, v) <==> !MeetsGuard(s, f)
  {
    var k: nat :| Nock(k, s, f) == Some(v);
    NockIsGuarded(k, s, f);
    BurnExact(s, f, v);
    if Entered(k, s, f) == Val(v) {
      forall l: nat
        ensures !Entered(l, s, f).Guard?
      {
        GuardIsFinal(l, k, s, f);
      }
    } else if GuardedYields(s, f, v) {
      var l: nat :| Entered(l, s, f) == Val(v);
      GuardIsFinal(k, l, s, f);
    }
  }

  /** What a guard has against the formula that it names. */
  predicate Refused(fol: Noun, arm: bool) {
    if arm then !Formulaic(fol) else Load(fol).None?
  }

  predicate Right(out: Outcome) {
    out.Guard? ==> Refused(out.fol, out.arm)
  }

  /** Every guard that is met is one. */
  lemma {:induction false} GuardCause(k: nat, s: Noun, f: Noun)
    ensures Right(Guarded(k, s, f)) && Right(Entered(k, s, f))
    decreases k
  {
    hide Guarded, Late;
    if k == 0 {
      NoGuardAtZero(k, s, f);
    } else {
      var j: nat := k - 1;
      forall s': Noun, f': Noun | Guarded(j, s', f').Guard?
        ensures Refused(Guarded(j, s', f').fol, Guarded(j, s', f').arm)
      {
        GuardCause(j, s', f');
      }
      if Late(f) {
        LateCause(j, s, f);
      } else {
        EarlyCause(j, s, f);
      }
    }
  }

  lemma EarlyCause(j: nat, s: Noun, f: Noun)
    requires !Late(f) && forall s': Noun, f': Noun ::
               Guarded(j, s', f').Guard? ==> Refused(Guarded(j, s', f').fol, Guarded(j, s', f').arm)
    ensures Right(Guarded(j + 1, s, f))
  {
    hide Slot, SlotOf, EditOf, Loob, Load, Formulaic, Constant;
    assert forall s': Noun, f': Noun :: Right(Entered(j, s', f')) by {
      forall s': Noun, f': Noun
        ensures Right(Entered(j, s', f'))
      {
        assert Right(Guarded(j, s', f'));
      }
    }
  }

  lemma LateCause(j: nat, s: Noun, f: Noun)
    requires Late(f) && forall s': Noun, f': Noun ::
               Guarded(j, s', f').Guard? ==> Refused(Guarded(j, s', f').fol, Guarded(j, s', f').arm)
    ensures Right(Guarded(j + 1, s, f))
  {
    hide Slot, SlotOf, EditOf, Loob, Load, Formulaic, Constant;
    assert forall s': Noun, f': Noun :: Right(Entered(j, s', f')) by {
      forall s': Noun, f': Noun
        ensures Right(Entered(j, s', f'))
      {
        assert Right(Guarded(j, s', f'));
      }
    }
    assert forall s': Noun, p: Noun, c: Noun, d: Noun :: Right(Branch(j, s', p, c, d));
  }

  /** Reducing a formula meets a guard that refuses `fol`. */
  ghost predicate Meets(s: Noun, f: Noun, fol: Noun, arm: bool) {
    exists k: nat :: Entered(k, s, f) == Guard(fol, arm)
  }

  /** What can be wrong with a formula that a guard refuses: an arm is no formula, and
      one that is entered does not compile, or is large. */
  predicate Faulty(fol: Noun, arm: bool) {
    if arm then !Formulaic(fol) else Comp(fol, true, true).None? || Nodes(fol) > MODEST
  }

  /** A product of the reductions is lost only to a formula that is at fault. */
  lemma BurnOrFault(s: Noun, f: Noun, v: Noun)
    requires Yields(s, f, v)
    ensures Burns(s, f, v) || exists fol, arm :: Meets(s, f, fol, arm) && Faulty(fol, arm)
  {
    hide *;
    BurnComplete(s, f, v);
    if !Burns(s, f, v) {
      var k, fol, arm := SomeGuard(s, f);
      GuardCause(k, s, f);
      FaultIs(fol, arm);
      assert Meets(s, f, fol, arm);
    }
  }

  lemma SomeGuard(s: Noun, f: Noun) returns (k: nat, fol: Noun, arm: bool)
    requires MeetsGuard(s, f)
    ensures Entered(k, s, f) == Guard(fol, arm) && Meets(s, f, fol, arm)
    ensures Right(Entered(k, s, f)) ==> Refused(fol, arm)
  {
    hide Entered;
    k :| Entered(k, s, f).Guard?;
    fol, arm := Entered(k, s, f).fol, Entered(k, s, f).arm;
  }

  lemma FaultIs(fol: Noun, arm: bool)
    requires Refused(fol, arm)
    ensures Faulty(fol, arm)
  {
    hide Comp, Load, Formulaic, Nodes;
    if !arm && Comp(fol, true, true).Some? && Nodes(fol) <= MODEST {
      SmallLoads(fol);
    }
  }

  /** No sub-noun reads as a call or a kick. */
  predicate Flat(n: Noun) {
    n.Cell? ==> Flat(n.h) && Flat(n.t) && n.h != Atom(2) && n.h != Atom(9)
  }

  lemma FlatParts(f: Noun)
    requires Flat(f)
    ensures f.Cell? ==> Flat(f.h) && Flat(f.t) && f.h != Atom(2) && f.h != Atom(9)
    ensures f.Cell? && f.t.Cell? ==> Flat(f.t.h) && Flat(f.t.t)
    ensures f.Cell? && f.t.Cell? && f.t.h.Cell? ==> Flat(f.t.h.h) && Flat(f.t.h.t)
    ensures f.Cell? && f.t.Cell? && f.t.t.Cell? ==> Flat(f.t.t.h) && Flat(f.t.t.t)
  {
  }

  /** Such a formula, if tame, meets no guard on its way to a product. */
  lemma {:induction false} FlatGuarded(k: nat, s: Noun, f: Noun)
    requires Nock(k, s, f).Some? && Tame(f) && Flat(f)
    ensures Guarded(k, s, f) == Val(Nock(k, s, f).value)
  {
    hide Nock, Guarded, Late;
    NoneAtZero(k, s, f);
    var j: nat := k - 1;
    forall s': Noun, f': Noun | Nock(j, s', f').Some? && Tame(f') && Flat(f')
      ensures Guarded(j, s', f') == Val(Nock(j, s', f').value) && Formulaic(f')
    {
      FlatGuarded(j, s', f');
      ProductIsFormulaic(j, s', f');
    }
    if Late(f) {
      LateFlat(j, s, f);
    } else {
      EarlyFlat(j, s, f);
    }
  }

  lemma EarlyFlat(j: nat, s: Noun, f: Noun)
    requires !Late(f) && Nock(j + 1, s, f).Some? && Tame(f) && Flat(f)
    requires forall s': Noun, f': Noun :: Nock(j, s', f').Some? && Tame(f') && Flat(f') ==>
               Guarded(j, s', f') == Val(Nock(j, s', f').value) && Formulaic(f')
    ensures Guarded(j + 1, s, f) == Val(Nock(j + 1, s, f).value)
  {
    TameParts(f);
    FlatParts(f);
    hide Slot, SlotOf, EditOf, Loob, Load, Formulaic, Constant, Tame, Flat;
  }

  lemma LateFlat(j: nat, s: Noun, f: Noun)
    requires Late(f) && Nock(j + 1, s, f).Some? && Tame(f) && Flat(f)
    requires forall s': Noun, f': Noun :: Nock(j, s', f').Some? && Tame(f') && Flat(f') ==>
               Guarded(j, s', f') == Val(Nock(j, s', f').value) && Formulaic(f')
    ensures Guarded(j + 1, s, f) == Val(Nock(j + 1, s, f).value)
  {
    TameParts(f);
    FlatParts(f);
    hide Slot, SlotOf, EditOf, Loob, Load, Formulaic, Tame, Flat;
    match f
    case Cell(Atom(6), Cell(b, _)) =>
      if Constant(b).Some? {
        var i, p := SafeYields(s, b);
        NockUnique(i, j, s, b);
      }
    case _ =>
  }

  /** With no call and no kick in it, a tame formula of modest size burns to every
      product that it has. */
  lemma FlatBurns(s: Noun, f: Noun, v: Noun)
    requires Yields(s, f, v) && Tame(f) && Flat(f) && Nodes(f) <= MODEST
    ensures Burns(s, f, v)
  {
    hide Nock, Guarded, Load, Burns, Tame, Flat, Nodes;
    var k: nat :| Nock(k, s, f) == Some(v);
    FlatGuarded(k, s, f);
    ProductLoads(k, s, f);
    assert Entered(k, s, f) == Val(v);
    BurnExact(s, f, v);
  }

  /** A guard met at one depth is met at every depth that gets further. */
  lemma {:induction false} GuardIsFinal(k: nat, l: nat, s: Noun, f: Noun)
    ensures Guarded(k, s, f).Guard? ==> !Guarded(l, s, f).Val?
  {
    if Guarded(k, s, f).Guard? && Guarded(l, s, f).Val? {
      GuardMono(k, k + l, s, f);
      GuardedMono(l, k + l, s, f);
    }
  }

  lemma {:induction false} GuardMono(k: nat, l: nat, s: Noun, f: Noun)
    requires k <= l && Guarded(k, s, f).Guard?
    ensures Guarded(l, s, f) == Guarded(k, s, f)
    decreases k
  {
    hide Guarded, Late;
    NoGuardAtZero(k, s, f);
    var i, j: nat := k - 1, l - 1;
    forall s': Noun, f': Noun
      ensures !Guarded(i, s', f').Stop? ==> Guarded(j, s', f') == Guarded(i, s', f')
    {
      if Guarded(i, s', f').Guard? {
        GuardMono(i, j, s', f');
      } else if Guarded(i, s', f').Val? {
        GuardedMono(i, j, s', f');
      }
    }
    if Late(f) {
      LateSettled(i, j, s, f);
    } else {
      EarlySettled(i, j, s, f);
    }
  }

  lemma NoGuardAtZero(k: nat, s: Noun, f: Noun)
    ensures k == 0 ==> Guarded(k, s, f) == Stop
  {
  }

  lemma EarlySettled(i: nat, j: nat, s: Noun, f: Noun)
    requires Guarded(i + 1, s, f).Guard? && !Late(f)
    requires forall s': Noun, f': Noun :: !Guarded(i, s', f').Stop? ==> Guarded(j, s', f') == Guarded(i, s', f')
    ensures Guarded(j + 1, s, f) == Guarded(i + 1, s, f)
  {
    hide Slot, SlotOf, EditOf, Loob, Load, Formulaic, Constant;
    assert forall s': Noun, f': Noun :: !Entered(i, s', f').Stop? ==> Entered(j, s', f') == Entered(i, s', f');
  }

  lemma LateSettled(i: nat, j: nat, s: Noun, f: Noun)
    requires Guarded(i + 1, s, f).Guard? && Late(f)
    requires forall s': Noun, f': Noun :: !Guarded(i, s', f').Stop? ==> Guarded(j, s', f') == Guarded(i, s', f')
    ensures Guarded(j + 1, s, f) == Guarded(i + 1, s, f)
  {
    hide Slot, SlotOf, EditOf, Loob, Load, Formulaic, Constant;
    assert forall s': Noun, f': Noun :: !Entered(i, s', f').Stop? ==> Entered(j, s', f') == Entered(i, s', f');
    assert forall s': Noun, p: Noun, c: Noun, d: Noun ::
        !Branch(i, s', p, c, d).Stop? ==> Branch(j, s', p, c, d) == Branch(i, s', p, c, d);
  }
}
