/** The converse: if a run that starts in the code of a formula ever finishes,
    the guarded reductions of that formula yield a product. By `Forward` and the
    machine being deterministic, it is then the product the run has computed. */
module NockBackward {
  import opened Nouns
  import opened NockComp
  import opened NockAsm
  import opened NockMachine
  import opened NockGuard
  import opened NockForward

  lemma {:induction false} Stuck(n: nat, st: State)
    requires !st.Running?
    ensures Run(n, st) == st
  {
    if n > 0 {
      Stuck(n - 1, st);
    }
  }

  /** What a finished run still has to do from a state that it passes. */
  lemma Onward(n: nat, a: State, b: State, w: Noun) returns (m: nat)
    requires Reaches(a, b) && Run(n, a) == Done(w)
    ensures m <= n && Run(m, b) == Done(w)
  {
    var t: nat :| Run(t, a) == b;
    if t <= n {
      m := n - t;
      RunAdd(t, m, a);
    } else {
      m := 0;
      RunAdd(n, t - n, a);
      Stuck(t - n, Done(w));
    }
  }

  /** A run that finishes takes a step from a running state, and not to a dead one. */
  lemma Tick(n: nat, a: State, w: Noun)
    requires a.Running? && Run(n, a) == Done(w)
    ensures n > 0 && Run(n - 1, Step(a)) == Done(w) && Step(a) != Dead
  {
    if n > 0 && Step(a) == Dead {
      Stuck(n - 1, Dead);
    }
  }

  /** From a passed state, one step on. */
  lemma Next(n: nat, a: State, op: Op, K: Code, T: Stack, w: Noun) returns (m: nat)
    requires Reaches(a, Running(Then(op, K), T)) && Run(n, a) == Done(w)
    ensures m < n && Run(m, Step(Running(Then(op, K), T))) == Done(w)
    ensures !Exec(op, T).Die?
    ensures Exec(op, T).Go? ==> Run(m, Running(K, Exec(op, T).stk)) == Done(w)
  {
    var b := Running(Then(op, K), T);
    m := Onward(n, a, b, w);
    Tick(m, b, w);
    m := m - 1;
  }

  lemma FragBack(n: nat, axe: nat, los: bool, s: Noun, K: Code, S: Stack, w: Noun)
    requires Run(n, Running(Append(FragOps(axe, los), K), Push(s, S))) == Done(w)
    ensures Slot(axe, s).Some?
  {
    hide Run, Load, Comp, Enter, Return, Leads;
    assert Slot(1, s) == Some(s);
    if axe != 1 {
      Tick(n, Running(Append(FragOps(axe, los), K), Push(s, S)), w);
    }
  }

  lemma {:induction false} EnterBack(n: nat, s: Noun, f: Noun, S: Stack, w: Noun) returns (k: nat)
    requires Run(n, Enter(f, Push(s, S))) == Done(w)
    ensures Entered(k, s, f).Val?
    decreases n, 2, 0, 0
  {
    Stuck(n, Dead);
    var code := Load(f).value;
    k := Back(n, s, f, true, true, End, S, w);
  }

  lemma {:induction false} PairBack(n: nat, s: Noun, b: Noun, c: Noun, los: bool, op: Op, K: Code, S: Stack, w: Noun)
        returns (k: nat)
    requires Pair(b, c, los, op).Some?
    requires Run(n, Running(Append(Pair(b, c, los, op).value, K), Push(s, S))) == Done(w)
    ensures Guarded(k, s, b).Val? && Guarded(k, s, c).Val?
    ensures !Exec(op, Both(los, Guarded(k, s, b).v, Guarded(k, s, c).v, s, S)).Die?
    decreases n, 1, Weight(b) + Weight(c), 0
  {
    var p, q := Comp(b, false, false).value, Comp(c, los, false).value;
    var K2 := Then(op, K);
    var K1 := Then(Swap, Append(q, K2));
    var a := Running(Append(p, K1), Push(s, S));
    PairCode(p, q, op, K);
    var i := Back(n, s, b, false, false, K1, S, w);
    Forward(i, s, b, false, false, K1, S);
    var x := Guarded(i, s, b).v;
    var m := Next(n, a, Swap, Append(q, K2), Push(x, Push(s, S)), w);
    var j := Back(m, s, c, los, false, K2, Push(x, S), w);
    k := i + j;
    GuardedMono(i, k, s, b);
    GuardedMono(j, k, s, c);
    PairForward(k, s, b, c, los, op, K, S);
    m := Next(n, a, op, K, Both(los, x, Guarded(k, s, c).v, s, S), w);
  }

  /** A pair that ends in a call: the called formula yields as well. */
  lemma {:induction false} CallBack(n: nat, s: Noun, b: Noun, c: Noun, los: bool, tel: bool, K: Code, S: Stack,
        w: Noun) returns (k: nat)
    requires tel ==> los
    requires Pair(b, c, los, CallOp(los, tel)).Some?
    requires var op := CallOp(los, tel);
             Run(n, Running(Append(Pair(b, c, los, op).value, K), Push(s, S))) == Done(w)
    ensures Guarded(k, s, b).Val? && Guarded(k, s, c).Val? && Entered(k, Guarded(k, s, b).v, Guarded(k, s, c).v).Val?
    decreases n, 1, Weight(b) + Weight(c), 1
  {
    var op := CallOp(los, tel);
    var i := PairBack(n, s, b, c, los, op, K, S, w);
    var x, y := Guarded(i, s, b).v, Guarded(i, s, c).v;
    PairForward(i, s, b, c, los, op, K, S);
    var m := Next(n, Running(Append(Pair(b, c, los, op).value, K), Push(s, S)), op, K, Both(los, x, y, s, S), w);
    var j := EnterBack(m, x, y, if tel then S else Frame(Rest(K), Below(los, s, S)), w);
    k := i + j;
    GuardedMono(i, k, s, b);
    GuardedMono(i, k, s, c);
    GuardedMono(j, k, x, y);
  }

  lemma {:induction false} EqualBack(n: nat, s: Noun, b: Noun, c: Noun, los: bool, tel: bool, K: Code, S: Stack,
        w: Noun) returns (k: nat)
    requires Comp(Cell(Atom(5), Cell(b, c)), los, tel).Some?
    requires Run(n, Running(Append(Comp(Cell(Atom(5), Cell(b, c)), los, tel).value, K), Push(s, S))) == Done(w)
    ensures Guarded(k, s, b).Val? && Guarded(k, s, c).Val?
    decreases n, 1, Weight(b) + Weight(c), 1
  {
    assert b.h == Atom(1) ==> forall i: nat :: i > 0 ==> Guarded(i, s, b).Val?;
    assert c.h == Atom(1) ==> forall i: nat :: i > 0 ==> Guarded(i, s, c).Val?;
    if b.h != Atom(1) && c.h != Atom(1) {
      k := PairBack(n, s, b, c, los, Same(los), K, S, w);
    } else if b.h == Atom(1) && c.h == Atom(1) {
      k := 1;
    } else {
      var e, x := if b.h == Atom(1) then c else b, if b.h == Atom(1) then b.t else c.t;
      var p := Comp(e, los, false).value;
      AppendAssoc(p, One(Sam(x)), K);
      k := Back(n, s, e, los, false, Then(Sam(x), K), S, w);
      GuardedMono(k, k + 1, s, e);
      k := k + 1;
    }
  }

  lemma {:induction false} ForkBack(n: nat, s: Noun, b: Noun, c: Noun, d: Noun, los: bool, tel: bool, K: Code,
        S: Stack, w: Noun) returns (k: nat)
    requires Comp(b, false, false).Some? && Arm(c, los, tel).Some? && Arm(d, los, tel).Some?
    requires tel ==> los && Leads(K)
    requires Run(n,
        Running(Append(Append(Comp(b, false, false).value, Fork(Arm(c, los, tel).value, Arm(d, los, tel).value)), K),
        Push(s, S))) == Done(w)
    ensures Guarded(k, s, b).Val? && Branch(k, s, Guarded(k, s, b).v, c, d).Val?
    ensures Formulaic(if Guarded(k, s, b).v == Atom(0) then c else d)
    decreases n, 1, Weight(b) + Weight(c) + Weight(d), 1
  {
    hide Run, Load, Comp, Guarded, Reaches, Fork, Arm;
    var p, yep, nop := Comp(b, false, false).value, Arm(c, los, tel).value, Arm(d, los, tel).value;
    var K2 := Then(Sbip(Len(nop)), Append(nop, K));
    var K1 := Then(Sbin(Len(yep) + 1), Append(yep, K2));
    AppendAssoc(p, Fork(yep, nop), K);
    ForkAppend(yep, nop, K);
    var i := Back(n, s, b, false, false, K1, S, w);
    var x := Guarded(i, s, b).v;
    Forward(i, s, b, false, false, K1, S);
    var m := Next(n, Running(Append(p, K1), Push(s, S)), Sbin(Len(yep) + 1), Append(yep, K2), Push(x, Push(s, S)), w);
    var j := TakeBack(m, x, s, c, d, los, tel, K, S, w);
    k := i + j;
    GuardedMono(i, k, s, b);
    GuardedMono(j, k, s, if x == Atom(0) then c else d);
  }

  /** From a fork's test on: the arm that it takes yields. */
  lemma {:induction false} TakeBack(n: nat, x: Noun, s: Noun, c: Noun, d: Noun, los: bool, tel: bool, K: Code,
        S: Stack, w: Noun) returns (k: nat)
    requires Arm(c, los, tel).Some? && Arm(d, los, tel).Some? && (tel ==> los && Leads(K))
    requires var yep, nop := Arm(c, los, tel).value, Arm(d, los, tel).value;
             Run(n, Step(Running(Append(Fork(yep, nop), K), Push(x, Push(s, S))))) == Done(w)
    ensures x in {Atom(0), Atom(1)} && var arm := if x == Atom(0) then c else d;
        Formulaic(arm) && Guarded(k, s, arm).Val?
    decreases n, 1, Weight(c) + Weight(d), 1
  {
    hide Run, Load, Comp, Guarded, Reaches, Append, Len, Drop, Arm, Formulaic, Leads, Weight, Enter, Return;
    var yep, nop := Arm(c, los, tel).value, Arm(d, los, tel).value;
    var K2 := Then(Sbip(Len(nop)), Append(nop, K));
    ForkAppend(yep, nop, K);
    if x == Atom(0) {
      k := ArmBack(n, s, c, los, tel, K2, S, w);
    } else if x == Atom(1) {
      k := ArmBack(n, s, d, los, tel, K, S, w);
    } else {
      Stuck(n, Dead);
      assert false;
    }
  }

  lemma {:induction false} ArmBack(n: nat, s: Noun, f: Noun, los: bool, tel: bool, K: Code, S: Stack, w: Noun)
        returns (k: nat)
    requires Arm(f, los, tel).Some? && (tel ==> los && Leads(K))
    requires Run(n, Running(Append(Arm(f, los, tel).value, K), Push(s, S))) == Done(w)
    ensures Formulaic(f) && Guarded(k, s, f).Val?
    decreases n, 1, Weight(f), 1
  {
    if Formulaic(f) {
      k := Back(n, s, f, los, tel, K, S, w);
    } else {
      Tick(n, Running(Append(One(Bail), K), Push(s, S)), w);
      assert false;
    }
  }

  lemma {:induction false} ComposeBack(n: nat, s: Noun, b: Noun, c: Noun, los: bool, tel: bool, K: Code, S: Stack,
        w: Noun) returns (k: nat)
    requires Comp(b, los, false).Some? && Comp(c, true, tel).Some? && (tel ==> los && Leads(K))
    requires Run(n, Running(Append(Append(Comp(b, los, false).value, Comp(c, true, tel).value), K),
        Push(s, S))) == Done(w)
    ensures Guarded(k, s, b).Val? && Guarded(k, Guarded(k, s, b).v, c).Val?
    decreases n, 1, Weight(b) + Weight(c), 1
  {
    var p, q := Comp(b, los, false).value, Comp(c, true, tel).value;
    AppendAssoc(p, q, K);
    var i := Back(n, s, b, los, false, Append(q, K), S, w);
    Forward(i, s, b, los, false, Append(q, K), S);
    var x := Guarded(i, s, b).v;
    var m := Onward(n, Running(Append(p, Append(q, K)), Push(s, S)), Running(Append(q, K), Push(x, Below(los, s, S))),
        w);
    var j := Back(m, x, c, true, tel, K, Below(los, s, S), w);
    k := i + j;
    GuardedMono(i, k, s, b);
    GuardedMono(j, k, x, c);
  }

  lemma {:induction false} PushBack(n: nat, s: Noun, b: Noun, c: Noun, los: bool, tel: bool, K: Code, S: Stack,
        w: Noun) returns (k: nat)
    requires Comp(b, false, false).Some? && Comp(c, true, tel).Some? && (tel ==> los && Leads(K))
    requires Run(n, Running(Append(Append(Comp(b, false, false).value, Then(Snoc(los), Comp(c, true, tel).value)), K),
        Push(s, S))) == Done(w)
    ensures Guarded(k, s, b).Val? && Guarded(k, Cell(Guarded(k, s, b).v, s), c).Val?
    decreases n, 1, Weight(b) + Weight(c), 1
  {
    var p, q := Comp(b, false, false).value, Comp(c, true, tel).value;
    AppendAssoc(p, Then(Snoc(los), q), K);
    var i := Back(n, s, b, false, false, Then(Snoc(los), Append(q, K)), S, w);
    Forward(i, s, b, false, false, Then(Snoc(los), Append(q, K)), S);
    var x := Guarded(i, s, b).v;
    var m := Next(n, Running(Append(p, Then(Snoc(los), Append(q, K))), Push(s, S)), Snoc(los), Append(q, K),
        Push(x, Push(s, S)), w);
    var j := Back(m, Cell(x, s), c, true, tel, K, Below(los, s, S), w);
    k := i + j;
    GuardedMono(i, k, s, b);
    GuardedMono(j, k, Cell(x, s), c);
  }

  lemma {:induction false} KickBack(n: nat, s: Noun, b: nat, c: Noun, los: bool, tel: bool, K: Code, S: Stack, w: Noun)
        returns (k: nat)
    requires Comp(Cell(Atom(9), Cell(Atom(b), c)), los, tel).Some? && (tel ==> los && Leads(K))
    requires Run(n, Running(Append(Comp(Cell(Atom(9), Cell(Atom(b), c)), los, tel).value, K), Push(s, S))) == Done(w)
    ensures Guarded(k, s, c).Val? && Slot(b, Guarded(k, s, c).v).Some?
    ensures Entered(k, Guarded(k, s, c).v, Slot(b, Guarded(k, s, c).v).value).Val?
    decreases n, 1, 3 + Weight(c), 1
  {
    hide Run, Load, Guarded, Reaches, Leads, Formulaic, SafetyOf;
    if b == 1 || Cap(b) == Some(3) {
      k := MacroBack(n, s, b, c, los, tel, K, S, w);
    } else {
      var op, p := Kick(b, tel), Comp(c, los, false).value;
      var B := Below(los, s, S);
      AppendAssoc(p, One(op), K);
      var i := Back(n, s, c, los, false, Then(op, K), S, w);
      Forward(i, s, c, los, false, Then(op, K), S);
      var x := Guarded(i, s, c).v;
      var m := Next(n, Running(Append(p, Then(op, K)), Push(s, S)), op, K, Push(x, B), w);
        var j := EnterBack(m, x, Slot(b, x).value, if tel then B else Frame(Rest(K), B), w);
      k := i + j;
      GuardedMono(i, k, s, c);
      GuardedMono(j, k, x, Slot(b, x).value);
    }
  }

  lemma {:induction false} MacroBack(n: nat, s: Noun, b: nat, c: Noun, los: bool, tel: bool, K: Code, S: Stack,
        w: Noun) returns (k: nat)
    requires Comp(Macro(Atom(b), c), los, tel).Some? && (tel ==> los && Leads(K))
    requires Run(n, Running(Append(Comp(Macro(Atom(b), c), los, tel).value, K), Push(s, S))) == Done(w)
    ensures Guarded(k, s, c).Val? && Slot(b, Guarded(k, s, c).v).Some?
    ensures Entered(k, Guarded(k, s, c).v, Slot(b, Guarded(k, s, c).v).value).Val?
    decreases n, 1, 3 + Weight(c), 0
  {
    MacroCode(b, c, los, tel);
    var p, B := Comp(c, los, false).value, Below(los, s, S);
    var op := if tel then NockTail else NockLose;
    var K3 := Then(op, K);
    var K2 := Append(FragOps(b, true), K3);
    var K1 := Then(Swap, K2);
    MacroAppend(p, b, op, K);
    var i := Back(n, s, c, los, false, Then(Copy, K1), S, w);
    Forward(i, s, c, los, false, Then(Copy, K1), S);
    var x := Guarded(i, s, c).v;
    var m := Next(n, Running(Append(p, Then(Copy, K1)), Push(s, S)), Copy, K1, Push(x, B), w);
    Now(Running(K1, Push(x, Push(x, B))));
    m := Next(m, Running(K1, Push(x, Push(x, B))), Swap, K2, Push(x, Push(x, B)), w);
    var j := PickBack(m, b, x, los, tel, s, K, S, w);
    k := i + j;
    GuardedMono(i, k, s, c);
    GuardedMono(j, k, x, Slot(b, x).value);
  }

  /** From the two copies of the core on: the arm is there, and yields. */
  lemma {:induction false} PickBack(n: nat, b: nat, x: Noun, los: bool, tel: bool, s: Noun, K: Code, S: Stack, w: Noun)
        returns (k: nat)
    requires tel ==> los
    requires var K3 := Then(if tel then NockTail else NockLose, K);
             Run(n, Running(Append(FragOps(b, true), K3), Push(x, Push(x, Below(los, s, S))))) == Done(w)
    ensures Slot(b, x).Some? && Entered(k, x, Slot(b, x).value).Val?
    decreases n, 2, 1, 0
  {
    var op, B := if tel then NockTail else NockLose, Below(los, s, S);
    FragBack(n, b, true, x, Then(op, K), Push(x, B), w);
    FragForward(b, true, x, Then(op, K), Push(x, B));
    var arm := Slot(b, x).value;
    var m := Next(n, Running(Append(FragOps(b, true), Then(op, K)), Push(x, Push(x, B))), op, K, Push(arm, Push(x, B)),
        w);
    k := EnterBack(m, x, arm, if tel then B else Frame(Rest(K), B), w);
  }

  lemma {:induction false} FencedBack(n: nat, s: Noun, nef: Noun, los: bool, fore: Op, clue: bool, K: Code, S: Stack,
        T: Stack, w: Noun) returns (k: nat)
    requires Comp(nef, los, false).Some?
    requires Run(n, Running(Append(Fenced(fore, Comp(nef, los, false).value, los, clue), K), T)) == Done(w)
    requires Exec(fore, T) == Go(Push(Atom(0), Push(s, Push(Atom(0), S))))
    ensures Guarded(k, s, nef).Val?
    decreases n, 1, Weight(nef), 1
  {
    var q := Comp(nef, los, false).value;
    var K3 := Then(Hind(los, clue), Then(Sbip(1), Then(if los then Toss else Swap, K)));
    var K2 := Then(Sbin(Len(q) + 2), Append(q, K3));
    FencedAppend(fore, q, los, clue, K);
    Now(Running(Then(fore, K2), T));
    var m := Next(n, Running(Then(fore, K2), T), fore, K2, T, w);
    var T' := Push(Atom(0), Push(s, Push(Atom(0), S)));
    Now(Running(K2, T'));
    m := Next(m, Running(K2, T'), Sbin(Len(q) + 2), Append(q, K3), T', w);
    k := Back(m, s, nef, los, false, K3, Push(Atom(0), S), w);
  }

  lemma {:induction false} WrapBack(n: nat, s: Noun, nef: Noun, sub: bool, pre: Op, post: Op, K: Code, T: Stack,
        S1: Stack, w: Noun) returns (k: nat)
    requires Comp(nef, sub, false).Some? && Exec(pre, T) == Go(Push(s, S1))
    requires Run(n, Running(Then(pre, Append(Comp(nef, sub, false).value, Then(post, K))), T)) == Done(w)
    ensures Guarded(k, s, nef).Val?
    decreases n, 1, Weight(nef), 1
  {
    var q := Comp(nef, sub, false).value;
    Now(Running(Then(pre, Append(q, Then(post, K))), T));
    var m := Next(n, Running(Then(pre, Append(q, Then(post, K))), T), pre, Append(q, Then(post, K)), T, w);
    k := Back(m, s, nef, sub, false, Then(post, K), S1, w);
  }

  lemma {:induction false} MemoBack(n: nat, x: Noun, s: Noun, nef: Noun, los: bool, K: Code, S: Stack, w: Noun)
        returns (k: nat)
    requires Comp(nef, true, false).Some?
    requires Run(n, Running(Append(Hinted(Atom(MEMO), nef, los, false).value, K), Push(x, Push(s, S)))) == Done(w)
    ensures Guarded(k, s, nef).Val?
    decreases n, 1, Weight(nef), 2
  {
    hide Run, Step, Load, Comp, Guarded, Reaches, Leads, Weight;
    var q := Comp(nef, true, false).value;
    var skim := Skim(nef, Len(q) + 1, los);
    var K1 := Then(skim, Append(q, Then(Save, K)));
    MemoAppend(q, skim, K);
    Now(Running(Then(Toss, K1), Push(x, Push(s, S))));
    var m := Next(n, Running(Then(Toss, K1), Push(x, Push(s, S))), Toss, K1, Push(x, Push(s, S)), w);
    k := WrapBack(m, s, nef, true, skim, Save, K, Push(s, S), Push(Cell(Atom(0), Cell(s, nef)), Below(los, s, S)), w);
  }

  lemma {:induction false} WrappedBack(n: nat, x: Noun, s: Noun, zep: Noun, nef: Noun, los: bool, K: Code, S: Stack,
        w: Noun) returns (k: nat)
    requires (Traced(zep) || zep == Atom(FAST)) && Comp(nef, los, false).Some?
    requires Run(n, Running(Append(Hinted(zep, nef, los, false).value, K), Push(x, Push(s, S)))) == Done(w)
    ensures Guarded(k, s, nef).Val?
    decreases n, 1, Weight(nef), 2
  {
    var pre, post := if Traced(zep) then Bush(zep) else Swap, if Traced(zep) then Untrace else Fast(los);
    AppendAssoc(Comp(nef, los, false).value, One(post), K);
    k := WrapBack(n, s, nef, los, pre, post, K, Push(x, Push(s, S)), if Traced(zep) then S else Push(x, S), w);
  }

  lemma {:induction false} PlainBack(n: nat, x: Noun, s: Noun, op: Op, nef: Noun, los: bool, tel: bool, K: Code,
        S: Stack, w: Noun) returns (k: nat)
    requires op in {Heck, Slog, Toss} && Comp(nef, los, tel).Some? && (tel ==> los && Leads(K))
    requires Run(n, Running(Then(op, Append(Comp(nef, los, tel).value, K)), Push(x, Push(s, S)))) == Done(w)
    ensures Guarded(k, s, nef).Val?
    decreases n, 1, Weight(nef), 2
  {
    var q, T := Comp(nef, los, tel).value, Push(x, Push(s, S));
    Now(Running(Then(op, Append(q, K)), T));
    var m := Next(n, Running(Then(op, Append(q, K)), T), op, Append(q, K), T, w);
    k := Back(m, s, nef, los, tel, K, S, w);
  }

  lemma {:induction false} HintBack(n: nat, x: Noun, s: Noun, zep: Noun, nef: Noun, los: bool, tel: bool, K: Code,
        S: Stack, w: Noun) returns (k: nat)
    requires Hinted(zep, nef, los, tel).Some? && (tel ==> los && Leads(K))
    requires Run(n, Running(Append(Hinted(zep, nef, los, tel).value, K), Push(x, Push(s, S)))) == Done(w)
    ensures Guarded(k, s, nef).Val?
    decreases n, 1, Weight(nef), 3
  {
    hide Run, Step, Load, Comp, Guarded, Reaches, Fenced, Leads, Weight;
    var code, T := Hinted(zep, nef, los, tel).value, Push(x, Push(s, S));
    if Traced(zep) || zep == Atom(FAST) {
      k := WrappedBack(n, x, s, zep, nef, los, K, S, w);
    } else if zep == Atom(MEMO) {
      k := MemoBack(n, x, s, nef, los, K, S, w);
    } else if Plain(zep).None? {
      k := FencedBack(n, s, nef, los, Fore(Cell(zep, nef), true), true, K, S, T, w);
    } else {
      k := PlainBack(n, x, s, Plain(zep).value, nef, los, tel, K, S, w);
    }
  }

  lemma {:induction false} ClueBack(n: nat, s: Noun, zep: Noun, hod: Noun, nef: Noun, los: bool, tel: bool, K: Code,
        S: Stack, w: Noun) returns (k: nat)
    requires Bint(Cell(zep, hod), nef, los, tel).Some? && (tel ==> los && Leads(K))
    requires Run(n, Running(Append(Bint(Cell(zep, hod), nef, los, tel).value, K), Push(s, S))) == Done(w)
    ensures Guarded(k, s, hod).Val? && Guarded(k, s, nef).Val?
    decreases n, 1, Weight(hod) + Weight(nef), 4
  {
    var p, code := Comp(hod, false, false).value, Hinted(zep, nef, los, tel).value;
    AppendAssoc(p, code, K);
    var i := Back(n, s, hod, false, false, Append(code, K), S, w);
    Forward(i, s, hod, false, false, Append(code, K), S);
    var x := Guarded(i, s, hod).v;
    var m := Onward(n, Running(Append(p, Append(code, K)), Push(s, S)), Running(Append(code, K), Push(x, Push(s, S))),
        w);
    var j := HintBack(m, x, s, zep, nef, los, tel, K, S, w);
    k := i + j;
    GuardedMono(i, k, s, hod);
    GuardedMono(j, k, s, nef);
  }

  lemma {:induction false} BumpBack(n: nat, s: Noun, b: Noun, los: bool, K: Code, S: Stack, w: Noun) returns (k: nat)
    requires Comp(b, los, false).Some?
    requires Run(n, Running(Append(Append(Comp(b, los, false).value, One(Bump)), K), Push(s, S))) == Done(w)
    ensures Guarded(k, s, b).Val? && Guarded(k, s, b).v.Atom?
    decreases n, 1, Weight(b), 1
  {
    var p := Comp(b, los, false).value;
    AppendAssoc(p, One(Bump), K);
    k := Back(n, s, b, los, false, Then(Bump, K), S, w);
    Forward(k, s, b, los, false, Then(Bump, K), S);
    var m := Next(n, Running(Append(p, Then(Bump, K)), Push(s, S)), Bump, K,
        Push(Guarded(k, s, b).v, Below(los, s, S)), w);
  }

  /** A finished run through the code of a formula means that the formula yields. */
  lemma {:induction false} Back(n: nat, s: Noun, f: Noun, los: bool, tel: bool, K: Code, S: Stack, w: Noun)
        returns (k: nat)
    requires Comp(f, los, tel).Some? && (tel ==> los && Leads(K))
    requires Run(n, Running(Append(Comp(f, los, tel).value, K), Push(s, S))) == Done(w)
    ensures Guarded(k, s, f).Val?
    decreases n, 1, Weight(f), 0
  {
    Lighter(f);
    if f.h.Atom? && f.h.a >= 6 {
      k := HighBack(n, s, f, los, tel, K, S, w);
    } else {
      k := LowBack(n, s, f, los, tel, K, S, w);
    }
  }

  lemma {:induction false} LowBack(n: nat, s: Noun, f: Noun, los: bool, tel: bool, K: Code, S: Stack, w: Noun)
        returns (k: nat)
    requires f.Cell? && (f.h.Atom? ==> f.h.a < 6)
    requires Comp(f, los, tel).Some? && (tel ==> los && Leads(K))
    requires Run(n, Running(Append(Comp(f, los, tel).value, K), Push(s, S))) == Done(w)
    ensures Guarded(k, s, f).Val?
    decreases n, 1, Weight(f) - 1, 9
  {
    hide Run, Step, Exec, Load, Bint, Pair, Slot, Leads, Reaches, Weight;
    Lighter(f);
    match f {
      case Cell(Cell(_, _), arg) =>
        k := PairBack(n, s, f.h, arg, los, Auto(los), K, S, w);
      case Cell(Atom(0), Atom(b)) =>
        FragBack(n, b, los, s, K, S, w);
        k := 0;
      case Cell(Atom(1), _) =>
        k := 0;
      case Cell(Atom(2), Cell(b, c)) =>
        k := CallBack(n, s, b, c, los, tel, K, S, w);
      case Cell(Atom(3), b) =>
        var p := Comp(b, los, false).value;
        AppendAssoc(p, One(Deep), K);
        k := Back(n, s, b, los, false, Then(Deep, K), S, w);
      case Cell(Atom(4), b) =>
        k := BumpBack(n, s, b, los, K, S, w);
      case Cell(Atom(5), Cell(b, c)) =>
        k := EqualBack(n, s, b, c, los, tel, K, S, w);
    }
    k := k + 1;
  }

  lemma {:induction false} KnownBack(n: nat, s: Noun, b: Noun, c: Noun, d: Noun, los: bool, tel: bool, K: Code,
        S: Stack, w: Noun) returns (k: nat)
    requires var f := Cell(Atom(6), Cell(b, Cell(c, d)));
             && Comp(f, los, tel).Some? && Constant(b).Some? && (tel ==> los && Leads(K))
             && Run(n, Running(Append(Comp(f, los, tel).value, K), Push(s, S))) == Done(w)
    ensures Branch(k, s, Constant(b).value, c, d).Val?
    decreases n, 1, Weight(c) + Weight(d), 0
  {
    var x := Constant(b).value;
    if x == Atom(0) {
      k := Back(n, s, c, los, tel, K, S, w);
    } else if x == Atom(1) {
      k := Back(n, s, d, los, tel, K, S, w);
    } else {
      Tick(n, Running(Append(One(Bail), K), Push(s, S)), w);
      assert false;
    }
  }

  lemma {:induction false} EditBack(n: nat, s: Noun, b: Noun, c: Noun, d: Noun, los: bool, K: Code, S: Stack, w: Noun)
        returns (k: nat)
    requires Pair(d, c, los, Mut(b, los)).Some?
    requires Run(n, Running(Append(Pair(d, c, los, Mut(b, los)).value, K), Push(s, S))) == Done(w)
    ensures Guarded(k, s, c).Val? && Guarded(k, s, d).Val? && EditOf(b, Guarded(k, s, c).v, Guarded(k, s, d).v).Some?
    decreases n, 1, Weight(c) + Weight(d), 1
  {
    k := PairBack(n, s, d, c, los, Mut(b, los), K, S, w);
    MutateIsEdit(b, Guarded(k, s, c).v, Guarded(k, s, d).v);
  }

  lemma {:induction false} AtomHintBack(n: nat, s: Noun, tag: nat, nef: Noun, los: bool, tel: bool, K: Code, S: Stack,
        w: Noun) returns (k: nat)
    requires Bint(Atom(tag), nef, los, tel).Some? && (tel ==> los && Leads(K))
    requires Run(n, Running(Append(Bint(Atom(tag), nef, los, tel).value, K), Push(s, S))) == Done(w)
    ensures Guarded(k, s, nef).Val?
    decreases n, 1, Weight(nef), 2
  {
    hide Run, Step, Load, Comp, Guarded, Reaches, Fenced, Leads, Weight, Append;
    if AtomProtocol(Atom(tag)) {
      k := FencedBack(n, s, nef, los, Fore(Cell(Atom(tag), nef), false), false, K, S, Push(s, S), w);
    } else {
      k := Back(n, s, nef, los, tel, K, S, w);
    }
  }

  /** Opcode 12 finishes nowhere. */
  lemma {:induction false} WishDies(n: nat, s: Noun, b: Noun, c: Noun, los: bool, K: Code, S: Stack, w: Noun)
    requires Pair(b, c, los, Wish(los)).Some?
    ensures Run(n, Running(Append(Pair(b, c, los, Wish(los)).value, K), Push(s, S))) != Done(w)
    decreases n, 1, Weight(b) + Weight(c), 1
  {
    if Run(n, Running(Append(Pair(b, c, los, Wish(los)).value, K), Push(s, S))) == Done(w) {
      var k := PairBack(n, s, b, c, los, Wish(los), K, S, w);
      assert false;
    }
  }

  lemma {:induction false} HighBack(n: nat, s: Noun, f: Noun, los: bool, tel: bool, K: Code, S: Stack, w: Noun)
        returns (k: nat)
    requires f.Cell? && f.h.Atom? && f.h.a >= 6
    requires Comp(f, los, tel).Some? && (tel ==> los && Leads(K))
    requires Run(n, Running(Append(Comp(f, los, tel).value, K), Push(s, S))) == Done(w)
    ensures Guarded(k, s, f).Val?
    decreases n, 1, Weight(f) - 1, 9
  {
    hide Run, Step, Load, Bint, Pair, Hinted, Arm, Formulaic, Exec, Append, Slot, Leads, Reaches, Weight;
    Lighter(f);
    match f {
      case Cell(Atom(6), Cell(b, Cell(c, d))) =>
        if Constant(b).None? {
          k := ForkBack(n, s, b, c, d, los, tel, K, S, w);
        } else {
          k := KnownBack(n, s, b, c, d, los, tel, K, S, w);
        }
      case Cell(Atom(7), Cell(b, c)) =>
        k := ComposeBack(n, s, b, c, los, tel, K, S, w);
      case Cell(Atom(8), Cell(b, c)) =>
        k := PushBack(n, s, b, c, los, tel, K, S, w);
      case Cell(Atom(9), Cell(b, c)) =>
        k := KickBack(n, s, b.a, c, los, tel, K, S, w);
      case Cell(Atom(10), Cell(Cell(b, c), d)) =>
        k := EditBack(n, s, b, c, d, los, K, S, w);
      case Cell(Atom(11), Cell(Cell(zep, hod), nef)) =>
        k := ClueBack(n, s, zep, hod, nef, los, tel, K, S, w);
      case Cell(Atom(11), Cell(Atom(tag), nef)) =>
        k := AtomHintBack(n, s, tag, nef, los, tel, K, S, w);
      case Cell(Atom(12), Cell(b, c)) =>
        WishDies(n, s, b, c, los, K, S, w);
    }
    k := k + 1;
  }
}
