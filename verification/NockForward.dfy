/** Compiled code follows the guarded reductions: whatever they yield, the code
    of the formula leaves on the stack, in every mode it can be compiled in. */
module NockForward {
  import opened Nouns
  import opened NockComp
  import opened NockAsm
  import opened NockMachine
  import opened NockGuard

  /** Code that only skips its way to the end of the program. */
  ghost predicate Leads(K: Code)
    decreases Len(K)
  {
    K == End || (K.op.Sbip? && K.op.n <= Len(K.next) && Leads(Drop(K.op.n, K.next)))
  }

  /** The stack above which a product is left: with or without the subject. */
  function Below(los: bool, s: Noun, S: Stack): Stack {
    if los then S else Push(s, S)
  }

  /** Where the code of a formula leaves the machine. In tail position it has
      already handed its product to the frame below. */
  function Exit(los: bool, tel: bool, v: Noun, s: Noun, K: Code, S: Stack): State {
    if tel then Return(v, S) else Running(K, Push(v, Below(los, s, S)))
  }

  /** The code of a pair in front of other code. */
  lemma PairCode(p: Code, q: Code, op: Op, K: Code)
    ensures Append(Append(p, Then(Swap, Append(q, One(op)))), K) == Append(p, Then(Swap, Append(q, Then(op, K))))
  {
    AppendAssoc(p, Then(Swap, Append(q, One(op))), K);
    AppendAssoc(q, One(op), K);
  }

  lemma ForkAppend(yep: Code, nop: Code, K: Code)
    ensures var K2 := Then(Sbip(Len(nop)), Append(nop, K));
            && Append(Fork(yep, nop), K) == Then(Sbin(Len(yep) + 1), Append(yep, K2))
            && Len(Append(nop, K)) >= Len(nop) && Drop(Len(nop), Append(nop, K)) == K
            && Len(Append(yep, K2)) > Len(yep) && Drop(Len(yep) + 1, Append(yep, K2)) == Append(nop, K)
  {
    var K2 := Then(Sbip(Len(nop)), Append(nop, K));
    AppendAssoc(yep, Then(Sbip(Len(nop)), nop), K);
    DropAppend(nop, K);
    DropAppend(yep, K2);
    AppendAssoc(yep, One(K2.op), K2.next);
    DropAppend(Append(yep, One(K2.op)), K2.next);
    DropAppend(yep, One(K2.op));
    assert Len(One(K2.op)) == 1;
  }

  lemma FencedAppend(fore: Op, q: Code, los: bool, clue: bool, K: Code)
    ensures Append(Fenced(fore, q, los, clue), K) ==
            Then(fore, Then(Sbin(Len(q) + 2),
                Append(q, Then(Hind(los, clue), Then(Sbip(1), Then(if los then Toss else Swap, K))))))
  {
    AppendAssoc(q, Hindmost(los, clue), K);
    var inner := Then(Sbin(Len(q) + 2), Append(q, Hindmost(los, clue)));
    assert Append(inner, K) == Then(inner.op, Append(inner.next, K));
    var last := Then(Sbip(1), One(if los then Toss else Swap));
    assert Append(last, K) == Then(last.op, Append(last.next, K));
  }

  lemma MemoAppend(q: Code, skim: Op, K: Code)
    ensures Append(Then(Toss, Then(skim, Append(q, One(Save)))), K) == Then(Toss, Then(skim, Append(q, Then(Save, K))))
  {
    AppendAssoc(q, One(Save), K);
    var inner := Then(skim, Append(q, One(Save)));
    assert Append(inner, K) == Then(skim, Append(inner.next, K));
  }

  /** What follows the core in the code of a tail-first kick. */
  function MacroTail(b: nat, op: Op): Code {
    Then(Copy, Then(Swap, Append(FragOps(b, true), One(op))))
  }

  lemma MacroAppend(p: Code, b: nat, op: Op, K: Code)
    ensures Append(Append(p, MacroTail(b, op)), K) ==
            Append(p, Then(Copy, Then(Swap, Append(FragOps(b, true), Then(op, K)))))
  {
    AppendAssoc(p, MacroTail(b, op), K);
    AppendAssoc(FragOps(b, true), One(op), K);
  }

  /** Two products, as the code of `Pair` leaves them for its last instruction. */
  function Both(los: bool, x: Noun, y: Noun, s: Noun, S: Stack): Stack {
    Push(y, Below(los, s, Push(x, S)))
  }

  lemma After(a: State, b: State, c: State)
    requires Reaches(a, b) && Reaches(Step(b), c)
    ensures Reaches(a, c)
  {
    ReachesStep(b, c);
    ReachesTrans(a, b, c);
  }

  lemma Now(a: State)
    ensures Reaches(a, a)
  {
    assert Run(0, a) == a;
  }

  lemma {:induction false} LeadsReturn(K: Code, v: Noun, S: Stack)
    requires Leads(K)
    ensures Reaches(Running(K, Push(v, S)), Return(v, S))
    decreases Len(K)
  {
    var a := Running(K, Push(v, S));
    if K == End {
      Now(Return(v, S));
    } else {
      LeadsReturn(Drop(K.op.n, K.next), v, S);
    }
    ReachesStep(a, Return(v, S));
  }

  /** From the end of a formula's own code to its exit. */
  lemma Finish(a: State, los: bool, tel: bool, v: Noun, s: Noun, K: Code, S: Stack)
    requires Reaches(a, Running(K, Push(v, Below(los, s, S))))
    requires tel ==> los && Leads(K)
    ensures Reaches(a, Exit(los, tel, v, s, K, S))
  {
    if tel {
      LeadsReturn(K, v, S);
      ReachesTrans(a, Running(K, Push(v, S)), Return(v, S));
    }
  }

  /** One more instruction that only works on the stack. */
  lemma ThenOp(a: State, op: Op, K: Code, T: Stack, T': Stack)
    requires Reaches(a, Running(Then(op, K), T)) && Exec(op, T) == Go(T')
    ensures Reaches(a, Running(K, T'))
  {
    Now(Running(K, T'));
    After(a, Running(Then(op, K), T), Running(K, T'));
  }

  lemma FragForward(axe: nat, los: bool, s: Noun, K: Code, S: Stack)
    requires Slot(axe, s).Some?
    ensures Reaches(Running(Append(FragOps(axe, los), K), Push(s, S)),
        Running(K, Push(Slot(axe, s).value, Below(los, s, S))))
  {
    var a := Running(Append(FragOps(axe, los), K), Push(s, S));
    Now(a);
    if axe == 1 && los {
    } else {
      assert Slot(1, s) == Some(s);
      ThenOp(a, FragOps(axe, los).op, K, Push(s, S), Push(Slot(axe, s).value, Below(los, s, S)));
    }
  }

  lemma {:induction false} UnaryForward(k: nat, s: Noun, b: Noun, los: bool, tel: bool, op: Op, K: Code, S: Stack,
        w: Noun)
    requires Comp(b, los, false).Some? && Guarded(k, s, b).Val?
    requires Exec(op, Push(Guarded(k, s, b).v, Below(los, s, S))) == Go(Push(w, Below(los, s, S)))
    requires tel ==> los && Leads(K)
    ensures Reaches(Running(Append(Append(Comp(b, los, false).value, One(op)), K), Push(s, S)),
        Exit(los, tel, w, s, K, S))
    decreases k, 1
  {
    var p := Comp(b, los, false).value;
    AppendAssoc(p, One(op), K);
    Forward(k, s, b, los, false, Then(op, K), S);
    var a := Running(Append(p, Then(op, K)), Push(s, S));
    ThenOp(a, op, K, Push(Guarded(k, s, b).v, Below(los, s, S)), Push(w, Below(los, s, S)));
    Finish(a, los, tel, w, s, K, S);
  }

  lemma {:induction false} PairForward(k: nat, s: Noun, b: Noun, c: Noun, los: bool, op: Op, K: Code, S: Stack)
    requires Pair(b, c, los, op).Some? && Guarded(k, s, b).Val? && Guarded(k, s, c).Val?
    ensures Reaches(Running(Append(Pair(b, c, los, op).value, K), Push(s, S)),
                    Running(Then(op, K), Both(los, Guarded(k, s, b).v, Guarded(k, s, c).v, s, S)))
    decreases k, 1
  {
    var p, q := Comp(b, false, false).value, Comp(c, los, false).value;
    var x, y := Guarded(k, s, b).v, Guarded(k, s, c).v;
    var K2 := Then(op, K);
    var K1 := Then(Swap, Append(q, K2));
    PairCode(p, q, op, K);
    var a := Running(Append(p, K1), Push(s, S));
    Forward(k, s, b, false, false, K1, S);
    ThenOp(a, Swap, Append(q, K2), Push(x, Push(s, S)), Push(s, Push(x, S)));
    Forward(k, s, c, los, false, K2, Push(x, S));
    ReachesTrans(a, Running(Append(q, K2), Push(s, Push(x, S))), Running(K2, Both(los, x, y, s, S)));
  }

  /** A pair whose last instruction only works on the stack. */
  lemma {:induction false} PairThen(k: nat, s: Noun, b: Noun, c: Noun, los: bool, tel: bool, op: Op, K: Code, S: Stack,
        w: Noun)
    requires Pair(b, c, los, op).Some? && Guarded(k, s, b).Val? && Guarded(k, s, c).Val?
    requires Exec(op, Both(los, Guarded(k, s, b).v, Guarded(k, s, c).v, s, S)) == Go(Push(w, Below(los, s, S)))
    requires tel ==> los && Leads(K)
    ensures Reaches(Running(Append(Pair(b, c, los, op).value, K), Push(s, S)), Exit(los, tel, w, s, K, S))
    decreases k, 2
  {
    var a := Running(Append(Pair(b, c, los, op).value, K), Push(s, S));
    PairForward(k, s, b, c, los, op, K, S);
    ThenOp(a, op, K, Both(los, Guarded(k, s, b).v, Guarded(k, s, c).v, s, S), Push(w, Below(los, s, S)));
    Finish(a, los, tel, w, s, K, S);
  }

  /** An entered formula returns its product to the frame below. */
  lemma {:induction false} EnterForward(k: nat, s: Noun, f: Noun, S: Stack)
    requires Entered(k, s, f).Val?
    ensures Reaches(Enter(f, Push(s, S)), Return(Entered(k, s, f).v, S))
    decreases k, 1
  {
    var code := Load(f).value;
    Forward(k, s, f, true, true, End, S);
  }

  /** A call or a jump into an entered formula. */
  lemma {:induction false} ThenEnter(k: nat, a: State, op: Op, fol: Noun, sub: Noun, tel: bool, los: bool, s: Noun,
        K: Code, T: Stack, S: Stack)
    requires Reaches(a, Running(Then(op, K), T)) && Entered(k, sub, fol).Val? && (tel ==> los)
    requires Exec(op, T) == (if tel then Leap(fol, Push(sub, S)) else Call(fol, sub, Below(los, s, S)))
    ensures Reaches(a, Exit(los, tel, Entered(k, sub, fol).v, s, K, S))
    decreases k, 2
  {
    EnterForward(k, sub, fol, if tel then S else Frame(Rest(K), Below(los, s, S)));
    After(a, Running(Then(op, K), T), Exit(los, tel, Entered(k, sub, fol).v, s, K, S));
  }

  lemma {:induction false} CallForward(k: nat, s: Noun, b: Noun, c: Noun, los: bool, tel: bool, K: Code, S: Stack)
    requires Guarded(k, s, b).Val? && Guarded(k, s, c).Val? && Entered(k, Guarded(k, s, b).v, Guarded(k, s, c).v).Val?
    requires Pair(b, c, los, CallOp(los, tel)).Some? && (tel ==> los)
    ensures var op := CallOp(los, tel);
            Reaches(Running(Append(Pair(b, c, los, op).value, K), Push(s, S)),
                    Exit(los, tel, Entered(k, Guarded(k, s, b).v, Guarded(k, s, c).v).v, s, K, S))
    decreases k, 3
  {
    var x, y := Guarded(k, s, b).v, Guarded(k, s, c).v;
    var op := CallOp(los, tel);
    PairForward(k, s, b, c, los, op, K, S);
    ThenEnter(k, Running(Append(Pair(b, c, los, op).value, K), Push(s, S)), op, y, x, tel, los, s, K,
        Both(los, x, y, s, S), S);
  }

  /** Two formulas in a row, the second on the product `x` of the first. */
  lemma {:induction false} SequenceForward(k: nat, a: State, x: Noun, c: Noun, los: bool, tel: bool, s: Noun, K: Code,
        S: Stack)
    requires Comp(c, true, tel).Some? && Guarded(k, x, c).Val? && (tel ==> los && Leads(K))
    requires Reaches(a, Running(Append(Comp(c, true, tel).value, K), Push(x, Below(los, s, S))))
    ensures Reaches(a, Exit(los, tel, Guarded(k, x, c).v, s, K, S))
    decreases k, 1
  {
    var v := Guarded(k, x, c).v;
    Forward(k, x, c, true, tel, K, Below(los, s, S));
    ReachesTrans(a, Running(Append(Comp(c, true, tel).value, K), Push(x, Below(los, s, S))),
        Exit(los, tel, v, s, K, S));
  }

  lemma {:induction false} ComposeForward(k: nat, s: Noun, b: Noun, c: Noun, los: bool, tel: bool, K: Code, S: Stack)
    requires Comp(b, los, false).Some? && Comp(c, true, tel).Some? && (tel ==> los && Leads(K))
    requires Guarded(k, s, b).Val? && Guarded(k, Guarded(k, s, b).v, c).Val?
    ensures Reaches(Running(Append(Append(Comp(b, los, false).value, Comp(c, true, tel).value), K), Push(s, S)),
                    Exit(los, tel, Guarded(k, Guarded(k, s, b).v, c).v, s, K, S))
    decreases k, 2
  {
    var p, q := Comp(b, los, false).value, Comp(c, true, tel).value;
    AppendAssoc(p, q, K);
    Forward(k, s, b, los, false, Append(q, K), S);
    SequenceForward(k, Running(Append(p, Append(q, K)), Push(s, S)), Guarded(k, s, b).v, c, los, tel, s, K, S);
  }

  lemma {:induction false} PushForward(k: nat, s: Noun, b: Noun, c: Noun, los: bool, tel: bool, K: Code, S: Stack)
    requires Comp(b, false, false).Some? && Comp(c, true, tel).Some? && (tel ==> los && Leads(K))
    requires Guarded(k, s, b).Val? && Guarded(k, Cell(Guarded(k, s, b).v, s), c).Val?
    ensures Reaches(Running(Append(Append(Comp(b, false, false).value, Then(Snoc(los), Comp(c, true, tel).value)), K),
        Push(s, S)),
                    Exit(los, tel, Guarded(k, Cell(Guarded(k, s, b).v, s), c).v, s, K, S))
    decreases k, 2
  {
    var p, q, x := Comp(b, false, false).value, Comp(c, true, tel).value, Guarded(k, s, b).v;
    AppendAssoc(p, Then(Snoc(los), q), K);
    Forward(k, s, b, false, false, Then(Snoc(los), Append(q, K)), S);
    var a := Running(Append(p, Then(Snoc(los), Append(q, K))), Push(s, S));
    ThenOp(a, Snoc(los), Append(q, K), Push(x, Push(s, S)), Push(Cell(x, s), Below(los, s, S)));
    SequenceForward(k, a, Cell(x, s), c, los, tel, s, K, S);
  }

  lemma {:induction false} KickForward(k: nat, s: Noun, b: nat, c: Noun, los: bool, tel: bool, K: Code, S: Stack)
    requires Comp(Cell(Atom(9), Cell(Atom(b), c)), los, tel).Some?
    requires Guarded(k, s, c).Val? && Slot(b, Guarded(k, s, c).v).Some?
    requires Entered(k, Guarded(k, s, c).v, Slot(b, Guarded(k, s, c).v).value).Val?
    requires tel ==> los && Leads(K)
    ensures var x := Guarded(k, s, c).v;
            Reaches(Running(Append(Comp(Cell(Atom(9), Cell(Atom(b), c)), los, tel).value, K), Push(s, S)),
                    Exit(los, tel, Entered(k, x, Slot(b, x).value).v, s, K, S))
    decreases k, 4
  {
    hide Run, Step, Load, Bint, Pair, Reaches, Leads, Formulaic, SafetyOf;
    if b == 1 || Cap(b) == Some(3) {
      MacroForward(k, s, b, c, los, tel, K, S);
    } else {
      var code := Comp(Cell(Atom(9), Cell(Atom(b), c)), los, tel).value;
      var x := Guarded(k, s, c).v;
      var arm := Slot(b, x).value;
      var a := Running(Append(code, K), Push(s, S));
      var op := Kick(b, tel);
      AppendAssoc(Comp(c, los, false).value, One(op), K);
      Forward(k, s, c, los, false, Then(op, K), S);
      SlotOfAtom(b, x);
      ThenEnter(k, a, op, arm, x, tel, los, s, K, Push(x, Below(los, s, S)), S);
    }
  }

  /** A tail-first kick: copy the core, pick the arm, and run it as a formula. */
  lemma {:induction false} MacroForward(k: nat, s: Noun, b: nat, c: Noun, los: bool, tel: bool, K: Code, S: Stack)
    requires Comp(Macro(Atom(b), c), los, tel).Some?
    requires Guarded(k, s, c).Val? && Slot(b, Guarded(k, s, c).v).Some?
    requires Entered(k, Guarded(k, s, c).v, Slot(b, Guarded(k, s, c).v).value).Val?
    requires tel ==> los && Leads(K)
    ensures var x := Guarded(k, s, c).v;
            Reaches(Running(Append(Comp(Macro(Atom(b), c), los, tel).value, K), Push(s, S)),
                    Exit(los, tel, Entered(k, x, Slot(b, x).value).v, s, K, S))
    decreases k, 3
  {
    hide Run, Step, Load, Comp, Guarded, Reaches, Entered;
    MacroCode(b, c, los, tel);
    var x := Guarded(k, s, c).v;
    var arm, B := Slot(b, x).value, Below(los, s, S);
    var p := Comp(c, los, false).value;
    var op := if tel then NockTail else NockLose;
    var K3 := Then(op, K);
    var K2 := Then(Swap, Append(FragOps(b, true), K3));
    MacroAppend(p, b, op, K);
    var a := Running(Append(p, Then(Copy, K2)), Push(s, S));
    Forward(k, s, c, los, false, Then(Copy, K2), S);
    ThenOp(a, Copy, K2, Push(x, B), Push(x, Push(x, B)));
    ThenOp(a, Swap, Append(FragOps(b, true), K3), Push(x, Push(x, B)), Push(x, Push(x, B)));
    FragForward(b, true, x, K3, Push(x, B));
    ReachesTrans(a, Running(Append(FragOps(b, true), K3), Push(x, Push(x, B))), Running(K3, Push(arm, Push(x, B))));
    ThenEnter(k, a, op, arm, x, tel, los, s, K, Push(arm, Push(x, B)), S);
  }

  /** Only cells have a subtree below the root. */
  lemma {:induction false} SlotOfAtom(axe: nat, n: Noun)
    requires axe > 1 && Slot(axe, n).Some?
    ensures n.Cell?
  {
    if axe < 4 {
      assert Slot(1, n) == Some(n);
    } else {
      SlotOfAtom(axe / 2, n);
    }
  }

  /** The code of a tail-first kick, written out. */
  lemma MacroCode(b: nat, c: Noun, los: bool, tel: bool)
    requires Comp(Macro(Atom(b), c), los, tel).Some?
    ensures Comp(c, los, false).Some?
    ensures Comp(Macro(Atom(b), c), los, tel).value ==
            Append(Comp(c, los, false).value, MacroTail(b, if tel then NockTail else NockLose))
  {
    var one := Cell(Atom(0), Atom(1));
    var arm := Cell(Atom(0), Atom(b));
    var rest := Cell(Atom(2), Cell(one, arm));
    assert Comp(one, false, false) == Some(One(Copy));
    assert Comp(arm, true, false) == Some(FragOps(b, true));
    assert Comp(rest, true, tel) == Pair(one, arm, true, CallOp(true, tel));
    assert Macro(Atom(b), c) == Cell(Atom(7), Cell(c, rest));
  }

  lemma {:induction false} ForkForward(k: nat, s: Noun, b: Noun, c: Noun, d: Noun, los: bool, tel: bool, K: Code,
        S: Stack)
    requires Comp(b, false, false).Some? && Arm(c, los, tel).Some? && Arm(d, los, tel).Some?
    requires Guarded(k, s, b).Val? && Branch(k, s, Guarded(k, s, b).v, c, d).Val?
    requires Formulaic(if Guarded(k, s, b).v == Atom(0) then c else d)
    requires tel ==> los && Leads(K)
    ensures Reaches(Running(Append(Append(Comp(b, false, false).value,
        Fork(Arm(c, los, tel).value, Arm(d, los, tel).value)), K), Push(s, S)),
                    Exit(los, tel, Branch(k, s, Guarded(k, s, b).v, c, d).v, s, K, S))
    decreases k, 1
  {
    hide Run, Step, Load, Comp, Guarded, Reaches, Fork;
    var p, yep, nop := Comp(b, false, false).value, Arm(c, los, tel).value, Arm(d, los, tel).value;
    var x, v := Guarded(k, s, b).v, Branch(k, s, Guarded(k, s, b).v, c, d).v;
    var K2 := Then(Sbip(Len(nop)), Append(nop, K));
    var K1 := Then(Sbin(Len(yep) + 1), Append(yep, K2));
    AppendAssoc(p, Fork(yep, nop), K);
    ForkAppend(yep, nop, K);
    var a := Running(Append(p, K1), Push(s, S));
    Forward(k, s, b, false, false, K1, S);
    var b1 := Running(K1, Push(x, Push(s, S)));
    TestStep(yep, nop, x, s, K, S);
    if x == Atom(0) {
      Forward(k, s, c, los, tel, K2, S);
      After(a, b1, Exit(los, tel, v, s, K2, S));
      if !tel {
        ThenSkip(a, nop, K, Push(v, Below(los, s, S)));
      }
    } else {
      Forward(k, s, d, los, tel, K, S);
      After(a, b1, Exit(los, tel, v, s, K, S));
    }
  }

  /** The test of a fork: into the first arm on 0, past it on 1. */
  lemma TestStep(yep: Code, nop: Code, x: Noun, s: Noun, K: Code, S: Stack)
    requires x in {Atom(0), Atom(1)}
    ensures var K2 := Then(Sbip(Len(nop)), Append(nop, K));
            Step(Running(Then(Sbin(Len(yep) + 1), Append(yep, K2)), Push(x, Push(s, S)))) ==
            Running(if x == Atom(0) then Append(yep, K2) else Append(nop, K), Push(s, S))
  {
    hide Append, Len, Drop, Load, Comp, Enter, Return, Exec, Fork;
    ForkAppend(yep, nop, K);
    SbinIs(Len(yep) + 1, x, Push(s, S));
  }

  lemma HindIs(los: bool, clue: bool, v: Noun, s: Noun, S: Stack)
    ensures Exec(Hind(los, clue), Push(v, Below(los, s, Push(Atom(0), S)))) == Go(Push(v, Below(los, s, S)))
  {
  }

  lemma ExitIs(los: bool, v: Noun, s: Noun, K: Code, S: Stack)
    ensures Exit(los, false, v, s, K, S) == Running(K, Push(v, Below(los, s, S)))
  {
  }

  lemma CleanIs(clean: Op, K: Code)
    ensures Append(One(clean), K) == Then(clean, K) && Len(One(clean)) == 1
  {
  }

  lemma SbinIs(n: nat, x: Noun, T: Stack)
    requires x in {Atom(0), Atom(1)}
    ensures Exec(Sbin(n), Push(x, T)) == if x == Atom(0) then Go(T) else Jump(n, T)
  {
  }

  /** A skip over exactly the code in front of it. */
  lemma ThenSkip(a: State, over: Code, K: Code, T: Stack)
    requires Reaches(a, Running(Then(Sbip(Len(over)), Append(over, K)), T))
    ensures Reaches(a, Running(K, T))
  {
    var e := Running(Then(Sbip(Len(over)), Append(over, K)), T);
    DropAppend(over, K);
    Now(Step(e));
    After(a, e, Step(e));
  }

  /** A fenced formula, from its skip on: the fore instruction said yes and left
      a token below the subject. */
  lemma {:induction false} FencedForward(k: nat, a: State, s: Noun, nef: Noun, los: bool, tel: bool, fore: Op,
        clue: bool, K: Code, S: Stack, T: Stack)
    requires Comp(nef, los, false).Some? && Guarded(k, s, nef).Val? && (tel ==> los && Leads(K))
    requires Reaches(a, Running(Append(Fenced(fore, Comp(nef, los, false).value, los, clue), K), T))
    requires Exec(fore, T) == Go(Push(Atom(0), Push(s, Push(Atom(0), S))))
    ensures Reaches(a, Exit(los, tel, Guarded(k, s, nef).v, s, K, S))
    decreases k, 1
  {
    hide *;
    var q, v := Comp(nef, los, false).value, Guarded(k, s, nef).v;
    var clean := if los then Toss else Swap;
    var K4 := Then(Sbip(1), Then(clean, K));
    var K3 := Then(Hind(los, clue), K4);
    var K2 := Then(Sbin(Len(q) + 2), Append(q, K3));
    FencedAppend(fore, q, los, clue, K);
    var S' := Push(Atom(0), S);
    SbinIs(Len(q) + 2, Atom(0), Push(s, S'));
    HindIs(los, clue, v, s, S);
    CleanIs(clean, K);
    ExitIs(los, v, s, K3, S');
    ThenOp(a, fore, K2, T, Push(Atom(0), Push(s, S')));
    ThenOp(a, Sbin(Len(q) + 2), Append(q, K3), Push(Atom(0), Push(s, S')), Push(s, S'));
    Forward(k, s, nef, los, false, K3, S');
    ReachesTrans(a, Running(Append(q, K3), Push(s, S')), Running(K3, Push(v, Below(los, s, S'))));
    ThenOp(a, Hind(los, clue), K4, Push(v, Below(los, s, S')), Push(v, Below(los, s, S)));
    ThenSkip(a, One(clean), K, Push(v, Below(los, s, S)));
    Finish(a, los, tel, v, s, K, S);
  }

  /** A formula between an instruction that sets its stack up and one that
      cleans up after it. */
  lemma {:induction false} WrapForward(k: nat, a: State, s: Noun, nef: Noun, sub: bool, los: bool, pre: Op, post: Op,
        K: Code, T: Stack, S1: Stack, S: Stack)
    requires Comp(nef, sub, false).Some? && Guarded(k, s, nef).Val?
    requires Reaches(a, Running(Then(pre, Append(Comp(nef, sub, false).value, Then(post, K))), T))
    requires Exec(pre, T) == Go(Push(s, S1))
    requires Exec(post, Push(Guarded(k, s, nef).v, Below(sub, s, S1))) == Go(Push(Guarded(k, s, nef).v,
        Below(los, s, S)))
    ensures Reaches(a, Running(K, Push(Guarded(k, s, nef).v, Below(los, s, S))))
    decreases k, 1
  {
    var q, v := Comp(nef, sub, false).value, Guarded(k, s, nef).v;
    ThenOp(a, pre, Append(q, Then(post, K)), T, Push(s, S1));
    Forward(k, s, nef, sub, false, Then(post, K), S1);
    ReachesTrans(a, Running(Append(q, Then(post, K)), Push(s, S1)), Running(Then(post, K), Push(v, Below(sub, s, S1))));
    ThenOp(a, post, K, Push(v, Below(sub, s, S1)), Push(v, Below(los, s, S)));
  }

  /** The memo instructions, on a cache that never has the answer. */
  lemma {:induction false} MemoForward(k: nat, a: State, x: Noun, s: Noun, nef: Noun, los: bool, K: Code, S: Stack)
    requires Comp(nef, true, false).Some? && Guarded(k, s, nef).Val?
    requires Reaches(a, Running(Append(Hinted(Atom(MEMO), nef, los, false).value, K), Push(x, Push(s, S))))
    ensures Reaches(a, Running(K, Push(Guarded(k, s, nef).v, Below(los, s, S))))
    decreases k, 2
  {
    hide Run, Step, Load, Comp, Guarded, Reaches;
    var q := Comp(nef, true, false).value;
    var skim := Skim(nef, Len(q) + 1, los);
    var memo := Cell(Atom(0), Cell(s, nef));
    MemoAppend(q, skim, K);
    ThenOp(a, Toss, Then(skim, Append(q, Then(Save, K))), Push(x, Push(s, S)), Push(s, S));
    WrapForward(k, a, s, nef, true, los, skim, Save, K, Push(s, S), Push(memo, Below(los, s, S)), S);
  }

  lemma {:induction false} WrappedForward(k: nat, a: State, x: Noun, s: Noun, zep: Noun, nef: Noun, los: bool, K: Code,
        S: Stack)
    requires Traced(zep) || zep == Atom(FAST)
    requires Comp(nef, los, false).Some? && Guarded(k, s, nef).Val?
    requires Reaches(a, Running(Append(Hinted(zep, nef, los, false).value, K), Push(x, Push(s, S))))
    ensures Reaches(a, Running(K, Push(Guarded(k, s, nef).v, Below(los, s, S))))
    decreases k, 2
  {
    hide Run, Step, Load, Comp, Guarded, Reaches, Leads, Fenced, Weight, Exit, Len, Drop;
    var pre, post := if Traced(zep) then Bush(zep) else Swap, if Traced(zep) then Untrace else Fast(los);
    AppendAssoc(Comp(nef, los, false).value, One(post), K);
    WrapForward(k, a, s, nef, los, los, pre, post, K, Push(x, Push(s, S)), if Traced(zep) then S else Push(x, S), S);
  }

  lemma {:induction false} PlainForward(k: nat, a: State, x: Noun, s: Noun, op: Op, nef: Noun, los: bool, tel: bool,
        K: Code, S: Stack)
    requires op in {Heck, Slog, Toss} && Comp(nef, los, tel).Some? && Guarded(k, s, nef).Val?
    requires Reaches(a, Running(Then(op, Append(Comp(nef, los, tel).value, K)), Push(x, Push(s, S))))
    requires tel ==> los && Leads(K)
    ensures Reaches(a, Exit(los, tel, Guarded(k, s, nef).v, s, K, S))
    decreases k, 2
  {
    hide Run, Step, Load, Comp, Guarded, Reaches, Leads;
    var q := Comp(nef, los, tel).value;
    ThenOp(a, op, Append(q, K), Push(x, Push(s, S)), Push(s, S));
    Forward(k, s, nef, los, tel, K, S);
    ReachesTrans(a, Running(Append(q, K), Push(s, S)), Exit(los, tel, Guarded(k, s, nef).v, s, K, S));
  }

  /** A clued hint after its clue `x`: every kind leaves the hinted product. */
  lemma {:induction false} HintForward(k: nat, a: State, x: Noun, s: Noun, zep: Noun, nef: Noun, los: bool, tel: bool,
        K: Code, S: Stack)
    requires Hinted(zep, nef, los, tel).Some? && Guarded(k, s, nef).Val? && (tel ==> los && Leads(K))
    requires Reaches(a, Running(Append(Hinted(zep, nef, los, tel).value, K), Push(x, Push(s, S))))
    ensures Reaches(a, Exit(los, tel, Guarded(k, s, nef).v, s, K, S))
    decreases k, 3
  {
    hide Run, Step, Load, Comp, Guarded, Fenced, Reaches, Leads, Weight;
    var code, v, T := Hinted(zep, nef, los, tel).value, Guarded(k, s, nef).v, Push(x, Push(s, S));
    if Traced(zep) || zep == Atom(FAST) {
      WrappedForward(k, a, x, s, zep, nef, los, K, S);
      Finish(a, los, tel, v, s, K, S);
    } else if zep == Atom(MEMO) {
      MemoForward(k, a, x, s, nef, los, K, S);
      Finish(a, los, tel, v, s, K, S);
    } else if Plain(zep).None? {
      FencedForward(k, a, s, nef, los, tel, Fore(Cell(zep, nef), true), true, K, S, T);
    } else {
      PlainForward(k, a, x, s, Plain(zep).value, nef, los, tel, K, S);
    }
  }

  lemma {:induction false} ClueForward(k: nat, s: Noun, zep: Noun, hod: Noun, nef: Noun, los: bool, tel: bool, K: Code,
        S: Stack)
    requires Bint(Cell(zep, hod), nef, los, tel).Some?
    requires Guarded(k, s, hod).Val? && Guarded(k, s, nef).Val? && (tel ==> los && Leads(K))
    ensures Reaches(Running(Append(Bint(Cell(zep, hod), nef, los, tel).value, K), Push(s, S)),
                    Exit(los, tel, Guarded(k, s, nef).v, s, K, S))
    decreases k, 4
  {
    var p, code := Comp(hod, false, false).value, Hinted(zep, nef, los, tel).value;
    AppendAssoc(p, code, K);
    Forward(k, s, hod, false, false, Append(code, K), S);
    HintForward(k, Running(Append(p, Append(code, K)), Push(s, S)), Guarded(k, s, hod).v, s, zep, nef, los, tel, K, S);
  }

  /** Compiled code leaves what the guarded reductions yield: on top of the stack
      (in place of the subject, or above it) with the rest of the stack as it
      was, or handed to the frame below when in tail position. */
  lemma {:induction false} Forward(k: nat, s: Noun, f: Noun, los: bool, tel: bool, K: Code, S: Stack)
    requires Comp(f, los, tel).Some? && Guarded(k, s, f).Val?
    requires tel ==> los && Leads(K)
    ensures Reaches(Running(Append(Comp(f, los, tel).value, K), Push(s, S)),
        Exit(los, tel, Guarded(k, s, f).v, s, K, S))
    decreases k, 0
  {
    if f.Cell? && f.h.Atom? && f.h.a >= 6 {
      HighForward(k, s, f, los, tel, K, S);
    } else {
      LowForward(k, s, f, los, tel, K, S);
    }
  }

  /** Cons and the opcodes that are one instruction, a pair or a call. */
  lemma {:induction false} LowForward(k: nat, s: Noun, f: Noun, los: bool, tel: bool, K: Code, S: Stack)
    requires f.Cell? && (f.h.Atom? ==> f.h.a < 6)
    requires Comp(f, los, tel).Some? && Guarded(k, s, f).Val?
    requires tel ==> los && Leads(K)
    ensures Reaches(Running(Append(Comp(f, los, tel).value, K), Push(s, S)),
        Exit(los, tel, Guarded(k, s, f).v, s, K, S))
    decreases k - 1, 5
  {
    hide Run, Step, Load, Bint, Pair, Reaches, Leads, Slot, Formulaic, Append, FragOps, Weight;
    var j: nat := k - 1;
    var v := Guarded(k, s, f).v;
    var a := Running(Append(Comp(f, los, tel).value, K), Push(s, S));
    match f
    case Cell(Cell(_, _), arg) =>
      PairThen(j, s, f.h, arg, los, tel, Auto(los), K, S, v);
    case Cell(Atom(0), Atom(b)) =>
      FragForward(b, los, s, K, S);
      Finish(a, los, tel, v, s, K, S);
    case Cell(Atom(1), b) =>
      LitForward(s, b, los, tel, K, S);
    case Cell(Atom(2), Cell(b, c)) =>
      CallForward(j, s, b, c, los, tel, K, S);
    case Cell(Atom(3), b) =>
      UnaryForward(j, s, b, los, tel, Deep, K, S, v);
    case Cell(Atom(4), b) =>
      UnaryForward(j, s, b, los, tel, Bump, K, S, v);
    case Cell(Atom(5), Cell(b, c)) =>
      EqualForward(k, s, b, c, los, tel, K, S);
  }

  lemma {:induction false} EditForward(k: nat, s: Noun, b: Noun, c: Noun, d: Noun, los: bool, tel: bool, K: Code,
        S: Stack, w: Noun)
    requires Pair(d, c, los, Mut(b, los)).Some? && Guarded(k, s, c).Val? && Guarded(k, s, d).Val?
    requires EditOf(b, Guarded(k, s, c).v, Guarded(k, s, d).v) == Some(w)
    requires tel ==> los && Leads(K)
    ensures Reaches(Running(Append(Pair(d, c, los, Mut(b, los)).value, K), Push(s, S)), Exit(los, tel, w, s, K, S))
    decreases k, 3
  {
    MutateIsEdit(b, Guarded(k, s, c).v, Guarded(k, s, d).v);
    PairThen(k, s, d, c, los, tel, Mut(b, los), K, S, w);
  }

  lemma {:induction false} AtomHintForward(k: nat, s: Noun, tag: nat, nef: Noun, los: bool, tel: bool, K: Code,
        S: Stack)
    requires Bint(Atom(tag), nef, los, tel).Some? && Guarded(k, s, nef).Val? && (tel ==> los && Leads(K))
    ensures Reaches(Running(Append(Bint(Atom(tag), nef, los, tel).value, K), Push(s, S)),
        Exit(los, tel, Guarded(k, s, nef).v, s, K, S))
    decreases k, 3
  {
    hide Run, Step, Load, Comp, Guarded, Reaches, Leads, Fenced, Append, Weight;
    if AtomProtocol(Atom(tag)) {
      var a := Running(Append(Bint(Atom(tag), nef, los, tel).value, K), Push(s, S));
      Now(a);
      FencedForward(k, a, s, nef, los, tel, Fore(Cell(Atom(tag), nef), false), false, K, S, Push(s, S));
    } else {
      Forward(k, s, nef, los, tel, K, S);
    }
  }

  /** The compound opcodes. */
  lemma {:induction false} HighForward(k: nat, s: Noun, f: Noun, los: bool, tel: bool, K: Code, S: Stack)
    requires f.Cell? && f.h.Atom? && f.h.a >= 6
    requires Comp(f, los, tel).Some? && Guarded(k, s, f).Val?
    requires tel ==> los && Leads(K)
    ensures Reaches(Running(Append(Comp(f, los, tel).value, K), Push(s, S)),
        Exit(los, tel, Guarded(k, s, f).v, s, K, S))
    decreases k - 1, 5
  {
    hide Run, Step, Load, Bint, Pair, Hinted, Arm, Reaches;
    var j: nat := k - 1;
    var v := Guarded(k, s, f).v;
    var a := Running(Append(Comp(f, los, tel).value, K), Push(s, S));
    match f
    case Cell(Atom(6), Cell(b, Cell(c, d))) =>
      if Constant(b).Some? {
        Forward(j, s, if Constant(b).value == Atom(0) then c else d, los, tel, K, S);
      } else {
        ForkForward(j, s, b, c, d, los, tel, K, S);
      }
    case Cell(Atom(7), Cell(b, c)) =>
      ComposeForward(j, s, b, c, los, tel, K, S);
    case Cell(Atom(8), Cell(b, c)) =>
      PushForward(j, s, b, c, los, tel, K, S);
    case Cell(Atom(9), Cell(b, c)) =>
      KickForward(j, s, b.a, c, los, tel, K, S);
    case Cell(Atom(10), Cell(Cell(b, c), d)) =>
      EditForward(j, s, b, c, d, los, tel, K, S, v);
    case Cell(Atom(11), Cell(Cell(zep, hod), nef)) =>
      ClueForward(j, s, zep, hod, nef, los, tel, K, S);
    case Cell(Atom(11), Cell(Atom(tag), nef)) =>
      AtomHintForward(j, s, tag, nef, los, tel, K, S);
  }

  /** Equality, whose literal sides are not evaluated. */
  lemma {:induction false} EqualForward(k: nat, s: Noun, b: Noun, c: Noun, los: bool, tel: bool, K: Code, S: Stack)
    requires k > 0 && var f := Cell(Atom(5), Cell(b, c)); Comp(f, los, tel).Some? && Guarded(k, s, f).Val?
    requires tel ==> los && Leads(K)
    ensures var f := Cell(Atom(5), Cell(b, c));
            Reaches(Running(Append(Comp(f, los, tel).value, K), Push(s, S)),
                Exit(los, tel, Guarded(k, s, f).v, s, K, S))
    decreases k - 1, 4
  {
    hide *;
    var j, f := k - 1, Cell(Atom(5), Cell(b, c));
    var v := Guarded(k, s, f).v;
    var a := Running(Append(Comp(f, los, tel).value, K), Push(s, S));
    EqualCode(b, c, los, tel);
    EqualValue(k, s, b, c);
    if b.h == Atom(1) && c.h == Atom(1) {
      LitForward(s, v, los, tel, K, S);
    } else if b.h == Atom(1) || c.h == Atom(1) {
      var e, x := if b.h == Atom(1) then c else b, if b.h == Atom(1) then b.t else c.t;
      SamIs(x, Guarded(j, s, e).v, los, s, S);
      UnaryForward(j, s, e, los, tel, Sam(x), K, S, v);
    } else {
      SameIs(los, Guarded(j, s, b).v, Guarded(j, s, c).v, s, S);
      PairThen(j, s, b, c, los, tel, Same(los), K, S, v);
    }
  }

  lemma EqualCode(b: Noun, c: Noun, los: bool, tel: bool)
    requires Comp(Cell(Atom(5), Cell(b, c)), los, tel).Some?
    ensures b.Cell? && c.Cell?
    ensures var code := Comp(Cell(Atom(5), Cell(b, c)), los, tel);
            if b.h == Atom(1) && c.h == Atom(1) then code.value == One(Lit(Loob(b.t == c.t), los))
            else if b.h == Atom(1) || c.h == Atom(1) then
              var e, x := if b.h == Atom(1) then c else b, if b.h == Atom(1) then b.t else c.t;
              Comp(e, los, false).Some? && code.value == Append(Comp(e, los, false).value, One(Sam(x)))
            else code == Pair(b, c, los, Same(los))
  {
    hide Pair, Append;
  }

  lemma EqualValue(k: nat, s: Noun, b: Noun, c: Noun)
    requires k > 0 && Guarded(k, s, Cell(Atom(5), Cell(b, c))).Val?
    ensures var x, y := Guarded(k - 1, s, b), Guarded(k - 1, s, c);
            && x.Val? && y.Val? && Guarded(k, s, Cell(Atom(5), Cell(b, c))).v == Loob(x.v == y.v)
            && (b.Cell? && b.h == Atom(1) ==> x.v == b.t) && (c.Cell? && c.h == Atom(1) ==> y.v == c.t)
  {
    hide Loob;
  }

  lemma SamIs(x: Noun, y: Noun, los: bool, s: Noun, S: Stack)
    ensures Exec(Sam(x), Push(y, Below(los, s, S))) == Go(Push(Loob(y == x), Below(los, s, S)))
  {
  }

  lemma SameIs(los: bool, x: Noun, y: Noun, s: Noun, S: Stack)
    ensures Exec(Same(los), Both(los, x, y, s, S)) == Go(Push(Loob(x == y), Below(los, s, S)))
  {
  }

  /** A literal in place of the subject, or above it. */
  lemma LitForward(s: Noun, v: Noun, los: bool, tel: bool, K: Code, S: Stack)
    requires tel ==> los && Leads(K)
    ensures Reaches(Running(Append(One(Lit(v, los)), K), Push(s, S)), Exit(los, tel, v, s, K, S))
  {
    hide Run, Step, Reaches, Leads;
    var a := Running(Append(One(Lit(v, los)), K), Push(s, S));
    Now(a);
    ThenOp(a, Lit(v, los), K, Push(s, S), Push(v, Below(los, s, S)));
    Finish(a, los, tel, v, s, K, S);
  }

  /** The three edits with code of their own are edits. */
  lemma MutateIsEdit(at: Noun, newer: Noun, prior: Noun)
    ensures Mutate(at, newer, prior) == EditOf(at, newer, prior)
  {
    assert Slot(1, prior) == Some(prior);
    if at == Atom(6) && prior.Cell? {
      assert Slot(3, prior) == Some(prior.t);
    }
    if at in {Atom(2), Atom(3), Atom(6)} {
      EditUnfold(at.a, newer, prior);
    }
  }

  lemma EditUnfold(axe: nat, newer: Noun, prior: Noun)
    requires axe in {2, 3, 6}
    ensures Edit(axe, newer, prior) == Mutate(Atom(axe), newer, prior)
  {
    assert Slot(1, prior) == Some(prior);
    assert forall x: Noun :: Edit(1, x, prior) == Some(x);
    if axe == 6 {
      assert forall x: Noun :: Edit(3, x, prior) == Mutate(Atom(3), x, prior);
      assert Slot(2, prior) == (if prior.Cell? then Some(prior.h) else None);
      assert Slot(3, prior) == (if prior.Cell? then Some(prior.t) else None);
      assert Slot(7, prior) == (if prior.Cell? && prior.t.Cell? then Some(prior.t.t) else None);
    }
  }
}
