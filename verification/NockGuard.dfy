/** The reductions as compiled code can follow them: the reference semantics
    with two guards. A formula is entered (at the start, by opcode 2 and by
    opcode 9) only if it loads, and an arm of a computed branch is taken only
    if it is formulaic. Meeting a guard is an outcome of its own. */
module NockGuard {
  import opened Nouns
  import opened NockSpec
  import opened NockComp
  import opened NockAsm

  /** A product, none, or a guard: the formula refused, and whether it was as the arm
      of a branch or on being entered. */
  datatype Outcome = Val(v: Noun) | Stop | Guard(fol: Noun, arm: bool) {
    predicate IsFailure() { !Val? }

    function PropagateFailure(): Outcome
      requires !Val?
    {
      this
    }

    function Extract(): Noun
      requires Val?
    {
      v
    }
  }

  function Lift(v: Option<Noun>): Outcome {
    if v.Some? then Val(v.value) else Stop
  }

  function Guarded(k: nat, s: Noun, f: Noun): Outcome
    decreases k, 0
  {
    if k == 0 then Stop
    else
      match f
      case Cell(Cell(_, _), arg) =>
        var p :- Guarded(k - 1, s, f.h);
        var q :- Guarded(k - 1, s, arg);
        Val(Cell(p, q))
      case Cell(Atom(0), Atom(b)) => Lift(Slot(b, s))
      case Cell(Atom(1), b) => Val(b)
      case Cell(Atom(2), Cell(b, c)) =>
        var p :- Guarded(k - 1, s, b);
        var q :- Guarded(k - 1, s, c);
        Entered(k - 1, p, q)
      case Cell(Atom(3), b) =>
        var p :- Guarded(k - 1, s, b);
        Val(Loob(p.Cell?))
      case Cell(Atom(4), b) =>
        var p :- Guarded(k - 1, s, b);
        if p.Atom? then Val(Atom(p.a + 1)) else Stop
      case Cell(Atom(5), Cell(b, c)) =>
        var p :- Guarded(k - 1, s, b);
        var q :- Guarded(k - 1, s, c);
        Val(Loob(p == q))
      case Cell(Atom(6), Cell(b, Cell(c, d))) =>
        (match Constant(b)
         case Some(p) => Branch(k - 1, s, p, c, d)
         case None =>
           var p :- Guarded(k - 1, s, b);
           if p == Atom(0) && !Formulaic(c) then Guard(c, true)
           else if p == Atom(1) && !Formulaic(d) then Guard(d, true)
           else Branch(k - 1, s, p, c, d))
      case Cell(Atom(7), Cell(b, c)) =>
        var p :- Guarded(k - 1, s, b);
        Guarded(k - 1, p, c)
      case Cell(Atom(8), Cell(b, c)) =>
        var p :- Guarded(k - 1, s, b);
        Guarded(k - 1, Cell(p, s), c)
      case Cell(Atom(9), Cell(b, c)) =>
        var p :- Guarded(k - 1, s, c);
        var q :- Lift(SlotOf(b, p));
        Entered(k - 1, p, q)
      case Cell(Atom(10), Cell(Cell(b, c), d)) =>
        var p :- Guarded(k - 1, s, c);
        var q :- Guarded(k - 1, s, d);
        Lift(EditOf(b, p, q))
      case Cell(Atom(11), Cell(Cell(_, c), d)) =>
        var _ :- Guarded(k - 1, s, c);
        Guarded(k - 1, s, d)
      case Cell(Atom(11), Cell(Atom(_), d)) => Guarded(k - 1, s, d)
      case _ => Stop
  }

  function Branch(k: nat, s: Noun, p: Noun, c: Noun, d: Noun): Outcome
    decreases k, 1
  {
    if p == Atom(0) then Guarded(k, s, c)
    else if p == Atom(1) then Guarded(k, s, d)
    else Stop
  }

  function Entered(k: nat, s: Noun, f: Noun): Outcome
    decreases k, 1
  {
    if Load(f).None? then Guard(f, false) else Guarded(k, s, f)
  }

  lemma {:induction false} GuardedMono(k: nat, l: nat, s: Noun, f: Noun)
    requires k <= l && Guarded(k, s, f).Val?
    ensures Guarded(l, s, f) == Guarded(k, s, f)
    decreases k
  {
    var i, j: nat := k - 1, l - 1;
    forall s': Noun, f': Noun | Guarded(i, s', f').Val?
      ensures Guarded(j, s', f') == Guarded(i, s', f')
    {
      GuardedMono(i, j, s', f');
    }
    assert forall s': Noun, f': Noun :: Entered(i, s', f').Val? ==> Entered(j, s', f') == Entered(i, s', f');
    assert forall s': Noun, p: Noun, c: Noun, d: Noun ::
        Branch(i, s', p, c, d).Val? ==> Branch(j, s', p, c, d) == Branch(i, s', p, c, d);
  }

  /** The safety check is right: a safe formula has a product on every subject,
      and the constant it reports is that product. */
  lemma {:induction false} SafeYields(s: Noun, f: Noun) returns (k: nat, v: Noun)
    requires SafetyOf(f).Safe?
    ensures Nock(k, s, f) == Some(v)
    ensures SafetyOf(f).out.Some? ==> v == SafetyOf(f).out.value
    decreases f
  {
    match f
    case Cell(Atom(0), _) =>
      k, v := 1, s;
    case Cell(Atom(1), b) =>
      k, v := 1, b;
    case Cell(Atom(3), b) =>
      var i, p := SafeYields(s, b);
      k, v := i + 1, Loob(p.Cell?);
    case Cell(Atom(5), Cell(b, c)) =>
      var i, p := SafeYields(s, b);
      var j, q := SafeYields(s, c);
      NockMono(i, i + j, s, b);
      NockMono(j, i + j, s, c);
      k, v := i + j + 1, Loob(p == q);
    case Cell(Atom(6), Cell(b, Cell(c, d))) =>
      var i, p := SafeYields(s, b);
      var e := if p == Atom(0) then c else d;
      var j, q := SafeYields(s, e);
      NockMono(i, i + j, s, b);
      NockMono(j, i + j, s, e);
      k, v := i + j + 1, q;
    case Cell(Atom(7), Cell(b, c)) =>
      var i, p := SafeYields(s, b);
      var j, q := SafeYields(p, c);
      NockMono(i, i + j, s, b);
      NockMono(j, i + j, p, c);
      k, v := i + j + 1, q;
    case Cell(Atom(8), Cell(b, c)) =>
      var i, p := SafeYields(s, b);
      var j, q := SafeYields(Cell(p, s), c);
      NockMono(i, i + j, s, b);
      NockMono(j, i + j, Cell(p, s), c);
      k, v := i + j + 1, q;
  }

  /** Formulas of the opcodes 1, 3, 5, 7 and 8 and the whole subject. */
  predicate Pure(f: Noun) {
    match f
    case Cell(Atom(0), b) => b == Atom(1)
    case Cell(Atom(1), _) => true
    case Cell(Atom(3), b) => Pure(b)
    case Cell(Atom(5), Cell(b, c)) => Pure(b) && Pure(c)
    case Cell(Atom(7), Cell(b, c)) => Pure(b) && Pure(c)
    case Cell(Atom(8), Cell(b, c)) => Pure(b) && Pure(c)
    case _ => false
  }

  /** Those of them whose product does not come from the subject. */
  predicate Fixed(f: Noun) {
    match f
    case Cell(Atom(1), _) => true
    case Cell(Atom(3), b) => Fixed(b)
    case Cell(Atom(5), Cell(b, c)) => Fixed(b) && Fixed(c)
    case Cell(Atom(7), Cell(b, c)) => Pure(b) && Fixed(c)
    case Cell(Atom(8), Cell(b, c)) => Pure(b) && Fixed(c)
    case _ => false
  }

  /** The safety check tells them. */
  lemma {:induction false} FixedKnown(f: Noun)
    ensures Pure(f) ==> SafetyOf(f).Safe?
    ensures Fixed(f) ==> SafetyOf(f).Safe? && SafetyOf(f).out.Some?
    decreases f
  {
    match f
    case Cell(Atom(3), b) =>
      FixedKnown(b);
    case Cell(Atom(5), Cell(b, c)) =>
      FixedKnown(b);
      FixedKnown(c);
    case Cell(Atom(7), Cell(b, c)) =>
      FixedKnown(b);
      FixedKnown(c);
    case Cell(Atom(8), Cell(b, c)) =>
      FixedKnown(b);
      FixedKnown(c);
    case _ =>
  }

  /** So a branch on one of them is compiled as the arm that its product chooses, and
      the other arm is not compiled at all. */
  lemma KnownBranch(k: nat, s: Noun, b: Noun, c: Noun, d: Noun, los: bool, tel: bool)
    requires Fixed(b) && Nock(k, s, b).Some?
    ensures Comp(Cell(Atom(6), Cell(b, Cell(c, d))), los, tel) ==
            if Nock(k, s, b).value == Atom(0) then Comp(c, los, tel)
            else if Nock(k, s, b).value == Atom(1) then Comp(d, los, tel)
            else Some(One(Bail))
  {
    hide Fixed, Nock, Formulaic;
    FixedKnown(b);
    var l, v := SafeYields(s, b);
    NockUnique(k, l, s, b);
  }

  /** A formula of the later opcodes, from the branch on. */
  predicate Late(f: Noun) {
    f.Cell? && f.h.Atom? && f.h.a >= 6
  }

  /** `GuardedIsNock`, with the depth raised to at least `least`. */
  lemma {:induction false} AtLeast(k: nat, s: Noun, f: Noun, least: nat) returns (l: nat)
    requires Guarded(k, s, f).Val?
    ensures l >= least && Nock(l, s, f) == Some(Guarded(k, s, f).v)
    decreases k, 3
  {
    l := GuardedIsNock(k, s, f);
    NockMono(l, l + least, s, f);
    l := l + least;
  }

  /** Two products on one subject, found at a common depth. */
  lemma {:induction false} BothYield(k: nat, s: Noun, b: Noun, c: Noun) returns (l: nat)
    requires Guarded(k, s, b).Val? && Guarded(k, s, c).Val?
    ensures Nock(l, s, b) == Some(Guarded(k, s, b).v) && Nock(l, s, c) == Some(Guarded(k, s, c).v)
    decreases k, 4
  {
    var i := AtLeast(k, s, b, 0);
    l := AtLeast(k, s, c, i);
    NockMono(i, l, s, b);
  }

  /** The guards only ever remove products: what the guarded reductions yield,
      the reference semantics yields. */
  lemma {:induction false} GuardedIsNock(k: nat, s: Noun, f: Noun) returns (l: nat)
    requires Guarded(k, s, f).Val?
    ensures Nock(l, s, f) == Some(Guarded(k, s, f).v)
    decreases k, 2
  {
    if Late(f) {
      l := LateIsNock(k, s, f);
    } else {
      l := EarlyIsNock(k, s, f);
    }
  }

  lemma {:induction false} EarlyIsNock(k: nat, s: Noun, f: Noun) returns (l: nat)
    requires Guarded(k, s, f).Val? && !Late(f)
    ensures Nock(l, s, f) == Some(Guarded(k, s, f).v)
    decreases k, 1
  {
    var j: nat := k - 1;
    l := 0;
    match f {
    case Cell(Cell(_, _), arg) =>
      l := BothYield(j, s, f.h, arg);
    case Cell(Atom(0), Atom(_)) =>
    case Cell(Atom(1), _) =>
    case Cell(Atom(2), Cell(b, c)) =>
      var i := BothYield(j, s, b, c);
      l := AtLeast(j, Guarded(j, s, b).v, Guarded(j, s, c).v, i);
      NockMono(i, l, s, b);
      NockMono(i, l, s, c);
    case Cell(Atom(3), b) =>
      l := AtLeast(j, s, b, 0);
    case Cell(Atom(4), b) =>
      l := AtLeast(j, s, b, 0);
    case Cell(Atom(5), Cell(b, c)) =>
      l := BothYield(j, s, b, c);
    }
    l := l + 1;
  }

  /** A branch: `l` is enough for the condition and the arm. */
  lemma {:induction false} BranchIsNock(k: nat, s: Noun, f: Noun) returns (l: nat)
    requires Guarded(k, s, f).Val? && f.Cell? && f.h == Atom(6)
    ensures Nock(l + 1, s, f) == Some(Guarded(k, s, f).v)
    decreases k, 0
  {
    hide Formulaic, Slot, Loob, Late;
    var j: nat := k - 1;
    var b, c, d := f.t.h, f.t.t.h, f.t.t.t;
    var i, p;
    if Constant(b).Some? {
      i, p := SafeYields(s, b);
    } else {
      i := AtLeast(j, s, b, 0);
      p := Guarded(j, s, b).v;
    }
    l := AtLeast(j, s, if p == Atom(0) then c else d, i);
    NockMono(i, l, s, b);
  }

  lemma {:induction false} LateIsNock(k: nat, s: Noun, f: Noun) returns (l: nat)
    requires Guarded(k, s, f).Val? && Late(f)
    ensures Nock(l, s, f) == Some(Guarded(k, s, f).v)
    decreases k, 1
  {
    hide Formulaic, Constant, Slot, Loob, Load;
    var j: nat := k - 1;
    l := 0;
    match f {
    case Cell(Atom(6), _) =>
      l := BranchIsNock(k, s, f);
    case Cell(Atom(7), Cell(b, c)) =>
      var i := AtLeast(j, s, b, 0);
      l := AtLeast(j, Guarded(j, s, b).v, c, i);
      NockMono(i, l, s, b);
    case Cell(Atom(8), Cell(b, c)) =>
      var i := AtLeast(j, s, b, 0);
      l := AtLeast(j, Cell(Guarded(j, s, b).v, s), c, i);
      NockMono(i, l, s, b);
    case Cell(Atom(9), Cell(b, c)) =>
      var i := AtLeast(j, s, c, 0);
      var p := Guarded(j, s, c).v;
      l := AtLeast(j, p, SlotOf(b, p).value, i);
      NockMono(i, l, s, c);
    case Cell(Atom(10), Cell(Cell(b, c), d)) =>
      l := BothYield(j, s, c, d);
    case Cell(Atom(11), Cell(Cell(_, c), d)) =>
      l := BothYield(j, s, c, d);
    case Cell(Atom(11), Cell(Atom(_), d)) =>
      l := AtLeast(j, s, d, 0);
    }
    l := l + 1;
  }

  /** The guards are the only way to lose a product. */
  lemma {:induction false} NockIsGuarded(k: nat, s: Noun, f: Noun)
    requires Nock(k, s, f).Some?
    ensures Guarded(k, s, f).Guard? || Guarded(k, s, f) == Val(Nock(k, s, f).value)
  {
    hide Nock, Guarded, Late;
    NoneAtZero(k, s, f);
    var j: nat := k - 1;
    forall s': Noun, f': Noun | Nock(j, s', f').Some?
      ensures Guarded(j, s', f').Guard? || Guarded(j, s', f') == Val(Nock(j, s', f').value)
    {
      NockIsGuarded(j, s', f');
    }
    if Late(f) {
      LateGuarded(j, s, f);
    } else {
      EarlyGuarded(j, s, f);
    }
  }

  lemma NoneAtZero(k: nat, s: Noun, f: Noun)
    ensures k == 0 ==> Nock(k, s, f).None?
  {
  }

  lemma EarlyGuarded(j: nat, s: Noun, f: Noun)
    requires !Late(f) && Nock(j + 1, s, f).Some?
    requires forall s': Noun, f': Noun :: Nock(j, s', f').Some? ==>
               Guarded(j, s', f').Guard? || Guarded(j, s', f') == Val(Nock(j, s', f').value)
    ensures Guarded(j + 1, s, f).Guard? || Guarded(j + 1, s, f) == Val(Nock(j + 1, s, f).value)
  {
    hide Slot, SlotOf, EditOf, Load, Formulaic, Constant;
  }

  lemma LateGuarded(j: nat, s: Noun, f: Noun)
    requires Late(f) && Nock(j + 1, s, f).Some?
    requires forall s': Noun, f': Noun :: Nock(j, s', f').Some? ==>
               Guarded(j, s', f').Guard? || Guarded(j, s', f') == Val(Nock(j, s', f').value)
    ensures Guarded(j + 1, s, f).Guard? || Guarded(j + 1, s, f) == Val(Nock(j + 1, s, f).value)
  {
    hide Slot, SlotOf, EditOf, Loob, Load, Formulaic;
    match f
    case Cell(Atom(6), Cell(b, _)) =>
      if Constant(b).Some? {
        var i, p := SafeYields(s, b);
        NockUnique(i, j, s, b);
      }
    case _ =>
  }

  /** No sub-noun reads as a kick at axis 0 or as a hint whose tag is a cell. */
  predicate Tame(n: Noun) {
    match n
    case Atom(_) => true
    case Cell(h, t) =>
      && Tame(h) && Tame(t)
      && !(h == Atom(9) && t.Cell? && t.h == Atom(0))
      && !(h == Atom(11) && t.Cell? && t.h.Cell? && t.h.h.Cell?)
  }

  /** Weight of the parts a formula may have. */
  lemma Lighter(f: Noun)
    ensures f.Cell? ==> Weight(f) > Weight(f.h) + Weight(f.t)
    ensures f.Cell? && f.t.Cell? ==> Weight(f.t) > Weight(f.t.h) + Weight(f.t.t)
    ensures f.Cell? && f.t.Cell? && f.t.h.Cell? ==> Weight(f.t.h) > Weight(f.t.h.h) + Weight(f.t.h.t)
    ensures f.Cell? && f.t.Cell? && f.t.t.Cell? ==> Weight(f.t.t) > Weight(f.t.t.h) + Weight(f.t.t.t)
  {
  }

  /** Tameness of the parts a formula may have. */
  lemma TameParts(f: Noun)
    requires Tame(f)
    ensures f.Cell? ==> Tame(f.h) && Tame(f.t)
    ensures f.Cell? && f.t.Cell? ==> Tame(f.t.h) && Tame(f.t.t)
    ensures f.Cell? && f.t.Cell? && f.t.h.Cell? ==> Tame(f.t.h.h) && Tame(f.t.h.t)
    ensures f.Cell? && f.t.Cell? && f.t.t.Cell? ==> Tame(f.t.t.h) && Tame(f.t.t.t)
  {
    if f.Cell? && f.t.Cell? && f.t.h.Cell? {
      assert Tame(f.t.h);
    }
    if f.Cell? && f.t.Cell? && f.t.t.Cell? {
      assert Tame(f.t.t);
    }
  }

  /** The branch check accepts every tame formula that has a product. */
  lemma {:induction false} ProductIsFormulaic(k: nat, s: Noun, f: Noun)
    requires Nock(k, s, f).Some? && Tame(f)
    ensures Formulaic(f)
    decreases f
  {
    TameParts(f);
    var j: nat := k - 1;
    forall s': Noun, f': Noun | f' < f && Nock(j, s', f').Some? && Tame(f')
      ensures Formulaic(f')
    {
      ProductIsFormulaic(j, s', f');
    }
    match f
    case Cell(Atom(6), Cell(b, _)) =>
      if Constant(b).Some? {
        var i, p := SafeYields(s, b);
        NockUnique(i, j, s, b);
      }
    case _ =>
  }

  /** No kick that the compiler meets in a formula has axis 0. */
  predicate Kicks(f: Noun) {
    match f
    case Cell(Cell(_, _), arg) => Kicks(f.h) && Kicks(arg)
    case Cell(Atom(2), Cell(b, c)) => Kicks(b) && Kicks(c)
    case Cell(Atom(3), b) => Kicks(b)
    case Cell(Atom(4), b) => Kicks(b)
    case Cell(Atom(5), Cell(b, c)) => Kicks(b) && Kicks(c)
    case Cell(Atom(6), Cell(b, Cell(c, d))) =>
      (match Constant(b)
       case None => Kicks(b) && (Formulaic(c) ==> Kicks(c)) && (Formulaic(d) ==> Kicks(d))
       case Some(Atom(0)) => Kicks(c)
       case Some(Atom(1)) => Kicks(d)
       case _ => true)
    case Cell(Atom(7), Cell(b, c)) => Kicks(b) && Kicks(c)
    case Cell(Atom(8), Cell(b, c)) => Kicks(b) && Kicks(c)
    case Cell(Atom(9), Cell(b, c)) => b != Atom(0) && Kicks(c)
    case Cell(Atom(10), Cell(Cell(_, c), d)) => Kicks(c) && Kicks(d)
    case Cell(Atom(11), Cell(Cell(_, c), d)) => Kicks(c) && Kicks(d)
    case Cell(Atom(11), Cell(Atom(_), d)) => Kicks(d)
    case Cell(Atom(12), Cell(b, c)) => Kicks(b) && Kicks(c)
    case _ => true
  }

  /** The expansion of a tail-first kick is as good a formula, and lighter. */
  lemma MacroFine(b: Noun, c: Noun)
    requires b.Atom? && Formulaic(c)
    ensures Formulaic(Macro(b, c))
    ensures Kicks(Macro(b, c)) == Kicks(c)
  {
    var rest := Cell(Atom(2), Cell(Cell(Atom(0), Atom(1)), Cell(Atom(0), b)));
    assert Macro(b, c) == Cell(Atom(7), Cell(c, rest));
    assert Formulaic(rest.t.t) && Kicks(rest.t.t) && Formulaic(rest.t.h) && Kicks(rest.t.h);
    assert Formulaic(rest) && Kicks(rest);
  }

  /** The branch check is sound for the compiler up to one omission: a formula
      that passes it compiles, in every mode, exactly if no kick in it has axis 0. */
  lemma {:induction false} FormulaicCompiles(f: Noun, los: bool, tel: bool)
    requires Formulaic(f)
    ensures Comp(f, los, tel).Some? <==> Kicks(f)
    decreases Weight(f), 1
  {
    hide *;
    if Late(f) {
      LateCompiles(f, los, tel);
    } else {
      EarlyCompiles(f, los, tel);
    }
  }

  lemma {:induction false} EarlyCompiles(f: Noun, los: bool, tel: bool)
    requires Formulaic(f) && !Late(f)
    ensures Comp(f, los, tel).Some? <==> Kicks(f)
    decreases Weight(f), 0
  {
    hide Bint, Arm, Pair, Macro, Append, FragOps, Weight;
    Lighter(f);
    match f
    case Cell(Cell(_, _), arg) =>
      PairCompiles(f.h, arg, los);
    case Cell(Atom(0), _) =>
    case Cell(Atom(1), _) =>
    case Cell(Atom(2), Cell(b, c)) =>
      PairCompiles(b, c, los);
    case Cell(Atom(3), b) =>
      FormulaicCompiles(b, los, false);
    case Cell(Atom(4), b) =>
      FormulaicCompiles(b, los, false);
    case Cell(Atom(5), Cell(b, c)) =>
      assert b.Cell? && c.Cell?;
      FormulaicCompiles(b, los, false);
      FormulaicCompiles(c, los, false);
      PairCompiles(b, c, los);
  }

  lemma {:induction false} LateCompiles(f: Noun, los: bool, tel: bool)
    requires Formulaic(f) && Late(f)
    ensures Comp(f, los, tel).Some? <==> Kicks(f)
    decreases Weight(f), 0
  {
    hide Bint, Arm, Pair, Macro, Append, FragOps, Weight;
    Lighter(f);
    match f
    case Cell(Atom(6), Cell(b, Cell(c, d))) =>
      FormulaicCompiles(b, false, false);
      ArmCompiles(c, los, tel);
      ArmCompiles(d, los, tel);
    case Cell(Atom(7), Cell(b, c)) =>
      FormulaicCompiles(b, los, false);
      FormulaicCompiles(c, true, tel);
    case Cell(Atom(8), Cell(b, c)) =>
      FormulaicCompiles(b, false, false);
      FormulaicCompiles(c, true, tel);
    case Cell(Atom(9), Cell(b, c)) =>
      MacroFine(b, c);
      MacroLighter(b, c);
      FormulaicCompiles(Macro(b, c), los, tel);
      FormulaicCompiles(c, tel || los, false);
    case Cell(Atom(10), Cell(Cell(b, c), d)) =>
      PairCompiles(d, c, los);
    case Cell(Atom(11), Cell(hif, nef)) =>
      BintCompiles(hif, nef, los, tel);
    case Cell(Atom(12), Cell(b, c)) =>
      PairCompiles(b, c, los);
  }

  lemma {:induction false} ArmCompiles(f: Noun, los: bool, tel: bool)
    ensures Arm(f, los, tel).Some? <==> (Formulaic(f) ==> Kicks(f))
    ensures Formulaic(f) ==> (Comp(f, los, tel).Some? <==> Kicks(f))
    decreases Weight(f), 2
  {
    if Formulaic(f) {
      FormulaicCompiles(f, los, tel);
    }
  }

  lemma {:induction false} BintCompiles(hif: Noun, nef: Noun, los: bool, tel: bool)
    requires Formulaic(nef) && (hif.Cell? ==> Formulaic(hif.t))
    ensures Bint(hif, nef, los, tel).Some? <==> Kicks(nef) && (hif.Cell? ==> Kicks(hif.t))
    decreases Weight(hif) + Weight(nef), 1
  {
    if hif.Cell? {
      FormulaicCompiles(hif.t, false, false);
    }
    FormulaicCompiles(nef, los, tel);
    FormulaicCompiles(nef, los, false);
    FormulaicCompiles(nef, true, false);
  }

  lemma {:induction false} PairCompiles(b: Noun, c: Noun, los: bool)
    requires Formulaic(b) && Formulaic(c)
    ensures forall op: Op :: Pair(b, c, los, op).Some? <==> Kicks(b) && Kicks(c)
    decreases Weight(b) + Weight(c), 1
  {
    FormulaicCompiles(b, false, false);
    FormulaicCompiles(c, los, false);
  }

  lemma {:induction false} TameKicks(f: Noun)
    requires Tame(f)
    ensures Kicks(f)
  {
    TameParts(f);
    if f.Cell? {
      TameKicks(f.h);
      TameKicks(f.t);
      if f.t.Cell? {
        TameKicks(f.t.h);
        TameKicks(f.t.t);
        if f.t.t.Cell? {
          TameKicks(f.t.t.h);
          TameKicks(f.t.t.t);
        }
        if f.t.h.Cell? {
          TameKicks(f.t.h.t);
        }
      }
    }
  }

  /** What the two guards can cost a caller, stated on the formula alone: a tame
      formula with a product passes the branch check and compiles. */
  lemma ProductCompiles(k: nat, s: Noun, f: Noun)
    requires Nock(k, s, f).Some? && Tame(f)
    ensures Formulaic(f) && Comp(f, true, true).Some?
  {
    ProductIsFormulaic(k, s, f);
    FormulaicCompiles(f, true, true);
    TameKicks(f);
  }

  /** Both exclusions are needed. A kick at axis 0 in the arm that is not taken
      makes the whole formula uncompilable, and a hint with a cell for a tag in
      the arm that is taken is compiled as a crash; the reductions yield 7. */
  lemma UntakenKick()
    ensures var f := Cell(Atom(6), Cell(Cell(Atom(0), Atom(2)),
                       Cell(Cell(Atom(9), Cell(Atom(0), Cell(Atom(0), Atom(1)))), Cell(Atom(1), Atom(7)))));
            Yields(Cell(Atom(1), Atom(0)), f, Atom(7)) && Formulaic(f) && Load(f).None?
  {
    var arm := Cell(Atom(9), Cell(Atom(0), Cell(Atom(0), Atom(1))));
    var cond := Cell(Atom(0), Atom(2));
    var f := Cell(Atom(6), Cell(cond, Cell(arm, Cell(Atom(1), Atom(7)))));
    SecondArm(arm, Atom(7));
    assert Kicks(arm) == false && Formulaic(arm) && Constant(cond) == None;
    assert Formulaic(cond) && Formulaic(f) && !Kicks(f);
    hide *;
    FormulaicCompiles(f, true, true);
    LoadIs(f);
  }

  lemma LoadIs(f: Noun)
    ensures Comp(f, true, true).None? ==> Load(f).None?
  {
    hide Comp, Asm, Fits;
  }

  /** A branch on the subject's head, which is 1, takes the second arm. */
  lemma SecondArm(arm: Noun, x: Noun)
    ensures Yields(Cell(Atom(1), Atom(0)),
        Cell(Atom(6), Cell(Cell(Atom(0), Atom(2)), Cell(arm, Cell(Atom(1), x)))), x)
  {
    var cond, s := Cell(Atom(0), Atom(2)), Cell(Atom(1), Atom(0));
    var f := Cell(Atom(6), Cell(cond, Cell(arm, Cell(Atom(1), x))));
    assert Slot(1, s) == Some(s);
    assert Nock(1, s, cond) == Some(Atom(1));
    assert Nock(2, s, f) == Some(x);
  }

  lemma TakenHint()
    ensures var f := Cell(Atom(6), Cell(Cell(Atom(0), Atom(2)),
                       Cell(Cell(Atom(11),
                           Cell(Cell(Cell(Atom(0), Atom(0)), Cell(Atom(1), Atom(0))), Cell(Atom(1), Atom(7)))),
                            Cell(Atom(1), Atom(8)))));
            && Yields(Cell(Atom(0), Atom(0)), f, Atom(7))
            && forall k: nat :: !Guarded(k, Cell(Atom(0), Atom(0)), f).Val?
  {
    var arm := Cell(Atom(11), Cell(Cell(Cell(Atom(0), Atom(0)), Cell(Atom(1), Atom(0))), Cell(Atom(1), Atom(7))));
    var cond := Cell(Atom(0), Atom(2));
    var f := Cell(Atom(6), Cell(cond, Cell(arm, Cell(Atom(1), Atom(8)))));
    var s := Cell(Atom(0), Atom(0));
    assert Slot(1, s) == Some(s);
    assert Nock(1, s, cond) == Some(Atom(0));
    assert Nock(1, s, Cell(Atom(1), Atom(7))) == Some(Atom(7)) && Nock(1, s, Cell(Atom(1), Atom(0))) == Some(Atom(0));
    assert Nock(2, s, arm) == Some(Atom(7));
    NockMono(1, 2, s, cond);
    assert Nock(3, s, f) == Some(Atom(7));
    assert Constant(cond) == None && !Formulaic(arm);
    forall k: nat
      ensures !Guarded(k, s, f).Val?
    {
      if k > 1 {
        assert Guarded(k - 1, s, cond) == Val(Atom(0));
      }
    }
  }
}
