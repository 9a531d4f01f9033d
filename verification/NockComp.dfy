/** The compiler from formulas to instruction lists. Instructions are listed in
    execution order; `lose` says that an instruction consumes its subject, and
    `tail` that nothing of the formula is left to do after it. The width of an
    argument (byte, short, literal index) is decided from its value, so it is
    left to the assembler. */
module NockComp {
  import opened Nouns
  import opened NockSpec

  datatype Op =
    | Bail | Copy | Swap | Toss
    | Auto(lose: bool) | Snoc(lose: bool)
    | Head(lose: bool) | Tail(lose: bool) | Frag(axe: nat, lose: bool)
    | Lit(val: Noun, lose: bool)
    | NockLose | NockTail | NockKeep
    | Deep | Bump | Same(lose: bool) | Sam(val: Noun)
    | Sbip(n: nat) | Sbin(n: nat)
    | Kick(axe: nat, tail: bool)
    | Wish(lose: bool)
    | Bush(tag: Noun) | Untrace | Heck | Slog | Fast(lose: bool)
    | Skim(key: Noun, n: nat, lose: bool) | Save
    | Fore(hint: Noun, clue: bool) | Hind(lose: bool, clue: bool)
    | Mut(at: Noun, lose: bool)

  /** Code, in execution order. Skips count the instructions that they pass. */
  datatype Code = End | Then(op: Op, next: Code)

  function Append(a: Code, b: Code): (c: Code)
    ensures a == End ==> c == b
    ensures b == End ==> c == a
  {
    match a
    case End => b
    case Then(op, next) => Then(op, Append(next, b))
  }

  function Len(a: Code): nat {
    match a
    case End => 0
    case Then(_, next) => 1 + Len(next)
  }

  function Drop(n: nat, a: Code): (b: Code)
    requires n <= Len(a)
    ensures Len(b) == Len(a) - n
  {
    if n == 0 then a else Drop(n - 1, a.next)
  }

  lemma {:induction false} AppendAssoc(a: Code, b: Code, c: Code)
    ensures Append(Append(a, b), c) == Append(a, Append(b, c))
  {
    match a
    case End =>
    case Then(_, next) => AppendAssoc(next, b, c);
  }

  lemma {:induction false} DropAppend(a: Code, b: Code)
    ensures Len(Append(a, b)) == Len(a) + Len(b)
    ensures Drop(Len(a), Append(a, b)) == b
  {
    match a
    case End =>
    case Then(_, next) => DropAppend(next, b);
  }

  /** Hint tags: four letters read as a little-endian number. */
  const CASH := 0x68736163
  const XRAY := 0x79617278
  const MEME := 0x656d656d
  const NARA := 0x6172616e
  const HELA := 0x616c6568
  const LOOP := 0x706f6f6c
  const BOUT := 0x74756f62
  const SPIN := 0x6e697073
  const JINX := 0x786e696a
  const HUNK := 0x6b6e7568
  const LOSE := 0x65736f6c
  const MEAN := 0x6e61656d
  const SPOT := 0x746f7073
  const LIVE := 0x6576696c
  const SLOG := 0x676f6c73
  const FAST := 0x74736166
  const MEMO := 0x6f6d656d

  /** Atomic hints and clued hints that go through the fore/hind protocol, and
      the clued hints that push a trace item. */
  predicate AtomProtocol(tag: Noun) {
    tag.Atom? && tag.a in [CASH, XRAY, MEME, NARA, HELA, LOOP, BOUT]
  }

  predicate ClueProtocol(tag: Noun) {
    tag.Atom? && tag.a in [XRAY, MEME, NARA, HELA, SPIN, LOOP, JINX, BOUT]
  }

  predicate Traced(tag: Noun) {
    tag.Atom? && tag.a in [HUNK, LOSE, MEAN, SPOT]
  }

  /** The outcome of the crash-freedom check: `Safe` formulas cannot crash, and
      `out` is their product when it is the same for every subject. */
  datatype Safety = Unsafe | Safe(out: Option<Noun>)

  function SafetyOf(f: Noun): Safety {
    match f
    case Cell(Atom(0), b) => if b == Atom(1) then Safe(None) else Unsafe
    case Cell(Atom(1), b) => Safe(Some(b))
    case Cell(Atom(3), b) =>
      (match SafetyOf(b)
       case Safe(Some(x)) => Safe(Some(Loob(x.Cell?)))
       case r => r)
    case Cell(Atom(5), Cell(p, q)) =>
      (match (SafetyOf(p), SafetyOf(q))
       case (Safe(Some(x)), Safe(Some(y))) => Safe(Some(Loob(x == y)))
       case (Safe(_), Safe(_)) => Safe(None)
       case _ => Unsafe)
    case Cell(Atom(6), Cell(p, Cell(q, r))) =>
      (match SafetyOf(p)
       case Safe(Some(Atom(0))) => SafetyOf(q)
       case Safe(Some(Atom(1))) => SafetyOf(r)
       case _ => Unsafe)
    case Cell(Atom(7), Cell(p, q)) => if SafetyOf(p).Safe? then SafetyOf(q) else Unsafe
    case Cell(Atom(8), Cell(p, q)) => if SafetyOf(p).Safe? then SafetyOf(q) else Unsafe
    case _ => Unsafe
  }

  /** The product of a condition, when the safety check can tell it. */
  function Constant(f: Noun): Option<Noun> {
    match SafetyOf(f)
    case Safe(Some(x)) => Some(x)
    case _ => None
  }

  /** The check run on each arm of a computed branch before compiling it. */
  predicate Formulaic(f: Noun) {
    match f
    case Cell(Cell(_, _), arg) => Formulaic(f.h) && Formulaic(arg)
    case Cell(Atom(0), b) => b.Atom?
    case Cell(Atom(1), _) => true
    case Cell(Atom(3), b) => Formulaic(b)
    case Cell(Atom(4), b) => Formulaic(b)
    case Cell(Atom(2), Cell(b, c)) => Formulaic(b) && Formulaic(c)
    case Cell(Atom(5), Cell(b, c)) => Formulaic(b) && Formulaic(c)
    case Cell(Atom(7), Cell(b, c)) => Formulaic(b) && Formulaic(c)
    case Cell(Atom(8), Cell(b, c)) => Formulaic(b) && Formulaic(c)
    case Cell(Atom(12), Cell(b, c)) => Formulaic(b) && Formulaic(c)
    case Cell(Atom(6), Cell(b, Cell(c, d))) =>
      && Formulaic(b)
      && (match Constant(b)
          case None => Formulaic(c) || Formulaic(d)
          case Some(Atom(0)) => Formulaic(c)
          case Some(Atom(1)) => Formulaic(d)
          case _ => false)
    case Cell(Atom(9), Cell(b, c)) => b.Atom? && Formulaic(c)
    case Cell(Atom(10), Cell(Cell(b, c), d)) => b.Atom? && Formulaic(c) && Formulaic(d)
    case Cell(Atom(11), Cell(Cell(b, c), d)) => Formulaic(d) && b.Atom? && Formulaic(c)
    case Cell(Atom(11), Cell(Atom(_), d)) => Formulaic(d)
    case _ => false
  }

  /** Size of a noun with 9 counted heavily: a tail-first kick is compiled as a
      larger formula that no longer has the 9. */
  function Weight(n: Noun): (w: nat)
    ensures w > 0
  {
    match n
    case Atom(a) => if a == 9 then 100 else 1
    case Cell(h, t) => 1 + Weight(h) + Weight(t)
  }

  /** `[7 c 2 [0 1] 0 b]`, which says the same as `[9 b c]`. */
  function Macro(b: Noun, c: Noun): Noun {
    Cell(Atom(7), Cell(c, Cell(Atom(2), Cell(Cell(Atom(0), Atom(1)), Cell(Atom(0), b)))))
  }

  lemma MacroLighter(b: Noun, c: Noun)
    ensures Weight(Macro(b, c)) < Weight(Cell(Atom(9), Cell(b, c)))
  {
    var rest := Cell(Atom(2), Cell(Cell(Atom(0), Atom(1)), Cell(Atom(0), b)));
    assert Macro(b, c) == Cell(Atom(7), Cell(c, rest));
    assert Weight(rest.t.h) == 3;
    assert Weight(rest.t.t) == 2 + Weight(b);
    assert Weight(rest.t) == 6 + Weight(b);
    assert Weight(Macro(b, c)) == 3 + Weight(c) + Weight(rest);
  }

  function One(op: Op): Code {
    Then(op, End)
  }

  function FragOps(axe: nat, los: bool): Code {
    if axe == 0 then One(Bail)
    else if axe == 1 then (if los then End else One(Copy))
    else if axe == 2 then One(Head(los))
    else if axe == 3 then One(Tail(los))
    else One(Frag(axe, los))
  }

  /** Compile a formula, or bail when its shape is wrong. */
  function Comp(f: Noun, los: bool, tel: bool): Option<Code>
    decreases Weight(f), 1
  {
    assert f.Cell? && f.t.Cell? ==> Weight(f) == 2 + Weight(f.h) + Weight(f.t.h) + Weight(f.t.t);
    assert f.Cell? && f.t.Cell? && f.t.t.Cell? ==> Weight(f.t.t) == 1 + Weight(f.t.t.h) + Weight(f.t.t.t);
    match f
    case Cell(Cell(_, _), arg) => Pair(f.h, arg, los, Auto(los))
    case Cell(Atom(0), Atom(b)) => Some(FragOps(b, los))
    case Cell(Atom(1), b) => Some(One(Lit(b, los)))
    case Cell(Atom(2), Cell(b, c)) =>
      Pair(b, c, los, CallOp(los, tel))
    case Cell(Atom(3), b) =>
      var p :- Comp(b, los, false);
      Some(Append(p, One(Deep)))
    case Cell(Atom(4), b) =>
      var p :- Comp(b, los, false);
      Some(Append(p, One(Bump)))
    case Cell(Atom(5), Cell(Cell(bh, bt), Cell(ch, ct))) =>
      var b, c := f.t.h, f.t.t;
      if bh == Atom(1) && ch == Atom(1) then Some(One(Lit(Loob(bt == ct), los)))
      else if bh != Atom(1) && ch != Atom(1) then Pair(b, c, los, Same(los))
      else
        var p :- Comp(if bh == Atom(1) then c else b, los, false);
        Some(Append(p, One(Sam(if bh == Atom(1) then bt else ct))))
    case Cell(Atom(6), Cell(b, Cell(c, d))) =>
      (match Constant(b)
       case Some(Atom(0)) => Comp(c, los, tel)
       case Some(Atom(1)) => Comp(d, los, tel)
       case Some(_) => Some(One(Bail))
       case None =>
         var p :- Comp(b, false, false);
         if !Formulaic(c) && !Formulaic(d) then None
         else
           var yep :- Arm(c, los, tel);
           var nop :- Arm(d, los, tel);
           Some(Append(p, Fork(yep, nop))))
    case Cell(Atom(7), Cell(b, c)) =>
      var p :- Comp(b, los, false);
      var q :- Comp(c, true, tel);
      Some(Append(p, q))
    case Cell(Atom(8), Cell(b, c)) =>
      var p :- Comp(b, false, false);
      var q :- Comp(c, true, tel);
      Some(Append(p, Then(Snoc(los), q)))
    case Cell(Atom(9), Cell(b, c)) =>
      if b.Cell? || b.a == 0 then None
      else if b.a == 1 || Cap(b.a) == Some(3) then
        MacroLighter(b, c);
        Comp(Macro(b, c), los, tel)
      else
        var p :- Comp(c, tel || los, false);
        Some(Append(p, One(Kick(b.a, tel))))
    case Cell(Atom(10), Cell(Cell(b, c), d)) => Pair(d, c, los, Mut(b, los))
    case Cell(Atom(11), Cell(hif, nef)) => Bint(hif, nef, los, tel)
    case Cell(Atom(12), Cell(b, c)) => Pair(b, c, los, Wish(los))
    case _ => None
  }

  /** Two formulas on the same subject, then an instruction on their products. */
  function Pair(b: Noun, c: Noun, los: bool, op: Op): Option<Code>
    decreases Weight(b) + Weight(c), 2
  {
    var p :- Comp(b, false, false);
    var q :- Comp(c, los, false);
    Some(Append(p, Then(Swap, Append(q, One(op)))))
  }

  /** An arm of a computed branch: malformed arms become a crash in place. */
  function Arm(f: Noun, los: bool, tel: bool): Option<Code>
    decreases Weight(f), 2
  {
    if Formulaic(f) then Comp(f, los, tel) else Some(One(Bail))
  }

  function Fork(yep: Code, nop: Code): Code {
    Then(Sbin(Len(yep) + 1), Append(yep, Then(Sbip(Len(nop)), nop)))
  }

  /** A hinted formula between its fore and hind instructions. `nef` can be
      skipped as a whole by a hint that declines to run it. */
  function Fenced(fore: Op, nef: Code, los: bool, clue: bool): Code {
    Then(fore, Then(Sbin(Len(nef) + 2), Append(nef, Hindmost(los, clue))))
  }

  function Hindmost(los: bool, clue: bool): Code {
    Then(Hind(los, clue), Then(Sbip(1), One(if los then Toss else Swap)))
  }

  /** The call of opcode 2: tail calls replace their caller. */
  function CallOp(los: bool, tel: bool): Op {
    if tel then NockTail else if los then NockLose else NockKeep
  }

  /** Compile a hinted formula. */
  function Bint(hif: Noun, nef: Noun, los: bool, tel: bool): Option<Code>
    decreases Weight(hif) + Weight(nef), 2
  {
    match hif
    case Atom(_) =>
      if AtomProtocol(hif) then
        var q :- Comp(nef, los, false);
        Some(Fenced(Fore(Cell(hif, nef), false), q, los, false))
      else Comp(nef, los, tel)
    case Cell(zep, hod) =>
      var p :- Comp(hod, false, false);
      var q :- Hinted(zep, nef, los, tel);
      Some(Append(p, q))
  }

  /** The instruction that drops the clue of a hint with nothing else to do. */
  function Plain(zep: Noun): Option<Op> {
    if zep == Atom(LIVE) then Some(Heck)
    else if zep == Atom(SLOG) then Some(Slog)
    else if ClueProtocol(zep) then None
    else Some(Toss)
  }

  /** A clued hint, once its clue is on the stack. */
  function Hinted(zep: Noun, nef: Noun, los: bool, tel: bool): Option<Code>
    decreases Weight(nef), 2
  {
    if Traced(zep) then
      var q :- Comp(nef, los, false);
      Some(Then(Bush(zep), Append(q, One(Untrace))))
    else if zep == Atom(FAST) then
      var q :- Comp(nef, los, false);
      Some(Then(Swap, Append(q, One(Fast(los)))))
    else if zep == Atom(MEMO) then
      var q :- Comp(nef, true, false);
      Some(Then(Toss, Then(Skim(nef, Len(q) + 1, los), Append(q, One(Save)))))
    else if Plain(zep).None? then
      var q :- Comp(nef, los, false);
      Some(Fenced(Fore(Cell(zep, nef), true), q, los, true))
    else
      var q :- Comp(nef, los, tel);
      Some(Then(Plain(zep).value, q))
  }
}
