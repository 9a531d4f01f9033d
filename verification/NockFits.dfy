/** Which formulas load: what the assembler refuses, in terms of the code and of the
    formula it is compiled from. */
module NockFits {
  import opened Nouns
  import opened NockSpec
  import opened NockComp
  import opened NockAsm
  import opened NockGuard
  import opened NockForward

  /** The tables a program has, of 2^16 entries at most. */
  datatype Table = Lits | Calls | Regs | Memos

  /** Too large for an argument of two bytes. */
  predicate Wide(n: Noun) {
    n.Cell? || n.a > 0xFFFF
  }

  /** The instructions that file something in a table. */
  predicate Files(op: Op, table: Table) {
    match table
    case Calls => op.Kick?
    case Regs => op.Fast?
    case Memos => op.Skim?
    case Lits =>
      match op
      case Frag(axe, _) => axe > 0xFFFF
      case Lit(val, _) => Wide(val)
      case Sam(val) => Wide(val)
      case Mut(at, _) => Wide(at)
      case Bush(_) => true
      case Fore(_, _) => true
      case _ => false
  }

  /** How many instructions of a program file something in a table. */
  function Filed(code: Code, table: Table): nat {
    match code
    case End => 0
    case Then(op, next) => Filed(next, table) + (if Files(op, table) then 1 else 0)
  }

  function Entries(p: Prog, table: Table): nat {
    match table
    case Lits => |p.lits|
    case Calls => |p.cals|
    case Regs => p.regs
    case Memos => |p.mems|
  }

  /** One instruction: at most five bytes, and an entry in the table it files in. */
  lemma PutSmall(op: Op, sip: nat, q: Prog, table: Table)
    ensures |Put(op, sip, q).bytes| <= |q.bytes| + 5
    ensures Entries(Put(op, sip, q), table) == Entries(q, table) + (if Files(op, table) then 1 else 0)
  {
  }

  lemma {:induction false} AsmSmall(code: Code, table: Table)
    ensures |Asm(code).bytes| <= 1 + 5 * Len(code)
    ensures Entries(Asm(code), table) == Filed(code, table) <= Len(code)
  {
    hide Put, Entries, Files;
    match code
    case End => EndSmall(table);
    case Then(op, next) =>
      AsmSmall(next, table);
      PutSmall(op, SkipBytes(op, next), Asm(next), table);
  }

  lemma EndSmall(table: Table)
    ensures |Asm(End).bytes| == 1 && Entries(Asm(End), table) == 0
  {
  }

  predicate TablesFit(code: Code) {
    && Filed(code, Lits) <= 0x10000 && Filed(code, Calls) <= 0x10000
    && Filed(code, Regs) <= 0x10000 && Filed(code, Memos) <= 0x10000
  }

  lemma FitsExact(code: Code)
    requires Len(code) <= 0x3333_3332
    ensures Fits(Asm(code)) <==> TablesFit(code)
  {
    AsmSmall(code, Lits);
    AsmSmall(code, Calls);
    AsmSmall(code, Regs);
    AsmSmall(code, Memos);
    hide Asm, Len, Filed;
  }

  /** A program that is not hopelessly long loads if and only if no table of it has
      more than 2^16 entries. */
  lemma LoadExact(f: Noun)
    requires Comp(f, true, true).Some? && Len(Comp(f, true, true).value) <= 0x3333_3332
    ensures Load(f) == if TablesFit(Comp(f, true, true).value) then Comp(f, true, true) else None
  {
    hide Comp, Asm, Fits, TablesFit;
    FitsExact(Comp(f, true, true).value);
  }

  /** A formula's size. */
  function Nodes(n: Noun): (size: nat)
    ensures size > 0
  {
    match n
    case Atom(_) => 1
    case Cell(h, t) => 1 + Nodes(h) + Nodes(t)
  }

  lemma NodeParts(f: Noun)
    ensures f.Cell? ==> Nodes(f) == 1 + Nodes(f.h) + Nodes(f.t)
    ensures f.Cell? && f.t.Cell? ==> Nodes(f.t) == 1 + Nodes(f.t.h) + Nodes(f.t.t)
    ensures f.Cell? && f.t.Cell? && f.t.h.Cell? ==> Nodes(f.t.h) == 1 + Nodes(f.t.h.h) + Nodes(f.t.h.t)
    ensures f.Cell? && f.t.Cell? && f.t.t.Cell? ==> Nodes(f.t.t) == 1 + Nodes(f.t.t.h) + Nodes(f.t.t.t)
  {
  }

  lemma AppendLen(a: Code, b: Code)
    ensures Len(Append(a, b)) == Len(a) + Len(b)
  {
    DropAppend(a, b);
  }

  lemma OneLen(op: Op)
    ensures Len(One(op)) == 1
  {
  }

  lemma {:induction false} PairShort(b: Noun, c: Noun, los: bool, op: Op)
    requires Pair(b, c, los, op).Some?
    ensures Len(Pair(b, c, los, op).value) <= 4 * Nodes(b) + 4 * Nodes(c) + 2
    decreases Weight(b) + Weight(c), 1
  {
    CompShort(b, false, false);
    CompShort(c, los, false);
    var p, q := Comp(b, false, false).value, Comp(c, los, false).value;
    AppendLen(q, One(op));
    AppendLen(p, Then(Swap, Append(q, One(op))));
    OneLen(op);
    hide Comp, Append;
  }

  lemma {:induction false} ArmShort(f: Noun, los: bool, tel: bool)
    requires Arm(f, los, tel).Some?
    ensures Len(Arm(f, los, tel).value) <= 4 * Nodes(f)
    decreases Weight(f), 1
  {
    if Formulaic(f) {
      CompShort(f, los, tel);
    } else {
      OneLen(Bail);
    }
  }

  lemma ForkLen(yep: Code, nop: Code)
    ensures Len(Fork(yep, nop)) == Len(yep) + Len(nop) + 2
  {
    AppendLen(yep, Then(Sbip(Len(nop)), nop));
  }

  lemma FencedLen(fore: Op, q: Code, los: bool, clue: bool)
    ensures Len(Fenced(fore, q, los, clue)) == Len(q) + 5
  {
    var hind := Hindmost(los, clue);
    assert Len(hind.next.next) == 1 && Len(hind.next) == 2 && Len(hind) == 3;
    AppendLen(q, hind);
  }

  lemma {:induction false} HintShort(zep: Noun, nef: Noun, los: bool, tel: bool)
    requires Hinted(zep, nef, los, tel).Some?
    ensures Len(Hinted(zep, nef, los, tel).value) <= 4 * Nodes(nef) + 5
    decreases Weight(nef), 1
  {
    hide Append, Fenced, Len, Comp, Nodes, Weight;
    if Traced(zep) || zep == Atom(FAST) {
      CompShort(nef, los, false);
      WrapLen(if Traced(zep) then Bush(zep) else Swap, Comp(nef, los, false).value,
          if Traced(zep) then Untrace else Fast(los));
    } else if zep == Atom(MEMO) {
      CompShort(nef, true, false);
      var q := Comp(nef, true, false).value;
      WrapLen(Skim(nef, Len(q) + 1, los), q, Save);
      ThenLen(Toss, Then(Skim(nef, Len(q) + 1, los), Append(q, One(Save))));
    } else if Plain(zep).None? {
      CompShort(nef, los, false);
      FencedLen(Fore(Cell(zep, nef), true), Comp(nef, los, false).value, los, true);
    } else {
      CompShort(nef, los, tel);
      ThenLen(Plain(zep).value, Comp(nef, los, tel).value);
    }
  }

  lemma ThenLen(op: Op, q: Code)
    ensures Len(Then(op, q)) == 1 + Len(q)
  {
  }

  lemma WrapLen(pre: Op, q: Code, post: Op)
    ensures Len(Then(pre, Append(q, One(post)))) == Len(q) + 2
  {
    AppendLen(q, One(post));
    OneLen(post);
  }

  lemma {:induction false} BintShort(hif: Noun, nef: Noun, los: bool, tel: bool)
    requires Bint(hif, nef, los, tel).Some?
    ensures Len(Bint(hif, nef, los, tel).value) <= 4 * Nodes(hif) + 4 * Nodes(nef) + 5
    decreases Weight(hif) + Weight(nef), 1
  {
    match hif
    case Atom(_) =>
      if AtomProtocol(hif) {
        CompShort(nef, los, false);
        FencedLen(Fore(Cell(hif, nef), false), Comp(nef, los, false).value, los, false);
      } else {
        CompShort(nef, los, tel);
      }
    case Cell(zep, hod) =>
      CompShort(hod, false, false);
      HintShort(zep, nef, los, tel);
      AppendLen(Comp(hod, false, false).value, Hinted(zep, nef, los, tel).value);
  }

  /** Code is at most four times as long as its formula is large. */
  lemma {:induction false} CompShort(f: Noun, los: bool, tel: bool)
    requires Comp(f, los, tel).Some?
    ensures Len(Comp(f, los, tel).value) <= 4 * Nodes(f)
    decreases Weight(f), 0
  {
    if Late(f) {
      LateShort(f, los, tel);
    } else {
      EarlyShort(f, los, tel);
    }
  }

  lemma {:induction false} EarlyShort(f: Noun, los: bool, tel: bool)
    requires !Late(f) && Comp(f, los, tel).Some?
    ensures Len(Comp(f, los, tel).value) <= 4 * Nodes(f)
    decreases Weight(f) - 1, 2
  {
    hide Append, Pair, Nodes, Len, One;
    Lighter(f);
    NodeParts(f);
    match f
    case Cell(Cell(_, _), arg) =>
      PairShort(f.h, arg, los, Auto(los));
    case Cell(Atom(0), Atom(b)) =>
      FragLen(b, los);
    case Cell(Atom(1), b) =>
      OneLen(Lit(b, los));
    case Cell(Atom(2), Cell(b, c)) =>
      PairShort(b, c, los, CallOp(los, tel));
    case Cell(Atom(3), b) =>
      LastShort(b, los, Deep);
    case Cell(Atom(4), b) =>
      LastShort(b, los, Bump);
    case Cell(Atom(5), Cell(b, c)) =>
      EqualShort(b, c, los, tel);
  }

  lemma FragLen(b: nat, los: bool)
    ensures Len(FragOps(b, los)) <= 1
  {
  }

  lemma {:induction false} LastShort(b: Noun, los: bool, op: Op)
    requires Comp(b, los, false).Some?
    ensures Len(Append(Comp(b, los, false).value, One(op))) <= 4 * Nodes(b) + 1
    decreases Weight(b), 1
  {
    CompShort(b, los, false);
    AppendLen(Comp(b, los, false).value, One(op));
    OneLen(op);
  }

  lemma {:induction false} EqualShort(b: Noun, c: Noun, los: bool, tel: bool)
    requires Comp(Cell(Atom(5), Cell(b, c)), los, tel).Some?
    ensures Len(Comp(Cell(Atom(5), Cell(b, c)), los, tel).value) <= 4 * Nodes(b) + 4 * Nodes(c) + 2
    decreases Weight(b) + Weight(c), 2
  {
    EqualCode(b, c, los, tel);
    hide *;
    if b.h == Atom(1) && c.h == Atom(1) {
      OneLen(Lit(Loob(b.t == c.t), los));
    } else if b.h == Atom(1) || c.h == Atom(1) {
      var e, x := if b.h == Atom(1) then c else b, if b.h == Atom(1) then b.t else c.t;
      LastShort(e, los, Sam(x));
    } else {
      PairShort(b, c, los, Same(los));
    }
  }

  lemma {:induction false} LateShort(f: Noun, los: bool, tel: bool)
    requires Late(f) && Comp(f, los, tel).Some?
    ensures Len(Comp(f, los, tel).value) <= 4 * Nodes(f)
    decreases Weight(f) - 1, 2
  {
    hide Append, Pair, Nodes, Len, One, Fork, Arm, Bint, Macro, Formulaic, SafetyOf;
    Lighter(f);
    NodeParts(f);
    match f
    case Cell(Atom(6), Cell(b, Cell(c, d))) =>
      if Constant(b).None? {
        CompShort(b, false, false);
        ArmShort(c, los, tel);
        ArmShort(d, los, tel);
        var yep, nop := Arm(c, los, tel).value, Arm(d, los, tel).value;
        ForkLen(yep, nop);
        AppendLen(Comp(b, false, false).value, Fork(yep, nop));
      } else if Constant(b).value in {Atom(0), Atom(1)} {
        CompShort(if Constant(b).value == Atom(0) then c else d, los, tel);
      } else {
        OneLen(Bail);
      }
    case Cell(Atom(7), Cell(b, c)) =>
      CompShort(b, los, false);
      CompShort(c, true, tel);
      AppendLen(Comp(b, los, false).value, Comp(c, true, tel).value);
    case Cell(Atom(8), Cell(b, c)) =>
      CompShort(b, false, false);
      CompShort(c, true, tel);
      ThenLen(Snoc(los), Comp(c, true, tel).value);
      AppendLen(Comp(b, false, false).value, Then(Snoc(los), Comp(c, true, tel).value));
    case Cell(Atom(9), Cell(b, c)) =>
      KickShort(b.a, c, los, tel);
    case Cell(Atom(10), Cell(Cell(b, c), d)) =>
      PairShort(d, c, los, Mut(b, los));
    case Cell(Atom(11), Cell(hif, nef)) =>
      BintShort(hif, nef, los, tel);
    case Cell(Atom(12), Cell(b, c)) =>
      PairShort(b, c, los, Wish(los));
  }

  lemma {:induction false} KickShort(b: nat, c: Noun, los: bool, tel: bool)
    requires Comp(Cell(Atom(9), Cell(Atom(b), c)), los, tel).Some?
    ensures Len(Comp(Cell(Atom(9), Cell(Atom(b), c)), los, tel).value) <= 4 * Nodes(c) + 4
    decreases Weight(c), 2
  {
    KickCode(b, c, los, tel);
    hide *;
    if b == 1 || Cap(b) == Some(3) {
      MacroCode(b, c, los, tel);
      CompShort(c, los, false);
      var op := if tel then NockTail else NockLose;
      AppendLen(Comp(c, los, false).value, MacroTail(b, op));
      MacroTailLen(b, op);
    } else {
      LastShort(c, tel || los, Kick(b, tel));
    }
  }

  lemma KickCode(b: nat, c: Noun, los: bool, tel: bool)
    requires Comp(Cell(Atom(9), Cell(Atom(b), c)), los, tel).Some?
    ensures var code := Comp(Cell(Atom(9), Cell(Atom(b), c)), los, tel);
            && (b == 1 || Cap(b) == Some(3) ==> code == Comp(Macro(Atom(b), c), los, tel))
            && (b != 1 && Cap(b) != Some(3) ==>
                Comp(c, tel || los, false).Some?
                && code.value == Append(Comp(c, tel || los, false).value, One(Kick(b, tel))))
  {
    hide Append, Macro, Pair, Bint, Arm;
  }

  lemma MacroTailLen(b: nat, op: Op)
    ensures Len(MacroTail(b, op)) <= 4
  {
    FragLen(b, true);
    AppendLen(FragOps(b, true), One(op));
    OneLen(op);
    ThenLen(Swap, Append(FragOps(b, true), One(op)));
  }

  /** The size up to which compiling is all it takes to load. */
  const MODEST := 0x4000

  /** A formula of modest size loads if it compiles. */
  lemma SmallLoads(f: Noun)
    requires Nodes(f) <= MODEST && Comp(f, true, true).Some?
    ensures Load(f) == Comp(f, true, true)
  {
    var code := Comp(f, true, true).value;
    CompShort(f, true, true);
    AsmSmall(code, Lits);
    AsmSmall(code, Calls);
    AsmSmall(code, Regs);
    AsmSmall(code, Memos);
    hide Comp, Nodes, Len, Filed, Asm;
    LoadExact(f);
  }

  /** So a tame formula of modest size with a product on some subject loads. */
  lemma ProductLoads(k: nat, s: Noun, f: Noun)
    requires Nock(k, s, f).Some? && Tame(f) && Nodes(f) <= MODEST
    ensures Load(f).Some?
  {
    hide *;
    ProductCompiles(k, s, f);
    SmallLoads(f);
  }
}
