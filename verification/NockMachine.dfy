/** The stack machine. The road stack holds operands and call frames together;
    a frame remembers where its caller resumes. What an instruction does to the
    stack (`Exec`) does not depend on how code is stored, so it is shared by the
    machine over instruction lists, defined here, and the one over bytes. */
module NockMachine {
  import opened Nouns
  import opened NockComp
  import opened NockAsm

  /** A place in a program: what remains of its code, or an offset in its bytes. */
  datatype Place = Rest(code: Code) | Byte(prog: Prog, ip: nat)

  datatype Stack = Empty | Push(top: Noun, rest: Stack) | Frame(ret: Place, rest: Stack)

  datatype Effect =
    | Go(stk: Stack)
    | Jump(n: nat, stk: Stack)
    | Call(fol: Noun, sub: Noun, stk: Stack)
    | Leap(fol: Noun, stk: Stack)
    | Die

  function Replace(v: Option<Noun>, stk: Stack): Effect {
    if v.Some? then Go(Push(v.value, stk)) else Die
  }

  /** The edit instructions: three axes have their own code, the rest go
      through the general edit. */
  function Mutate(at: Noun, newer: Noun, prior: Noun): Option<Noun> {
    if at == Atom(2) then (if prior.Cell? then Some(Cell(newer, prior.t)) else None)
    else if at == Atom(3) then (if prior.Cell? then Some(Cell(prior.h, newer)) else None)
    else if at == Atom(6) then
      (if prior.Cell? && prior.t.Cell? then Some(Cell(prior.h, Cell(newer, prior.t.t))) else None)
    else EditOf(at, newer, prior)
  }

  function Exec(op: Op, stk: Stack): Effect {
    match op
    case Bail => Die
    case Copy => if stk.Push? then Go(Push(stk.top, stk)) else Die
    case Swap =>
      (match stk
       case Push(a, Push(b, r)) => Go(Push(b, Push(a, r)))
       case _ => Die)
    case Toss => if stk.Push? then Go(stk.rest) else Die
    case Auto(lose) =>
      (match stk
       case Push(t, Push(h, r)) =>
         if lose then Go(Push(Cell(h, t), r))
         else (match r
               case Push(hed, r') => Go(Push(Cell(hed, t), Push(h, r')))
               case _ => Die)
       case _ => Die)
    case Snoc(lose) =>
      (match stk
       case Push(h, Push(t, r)) => Go(Push(Cell(h, t), if lose then r else Push(t, r)))
       case _ => Die)
    case Head(lose) =>
      (match stk
       case Push(Cell(h, t), r) => Go(Push(h, if lose then r else stk))
       case _ => Die)
    case Tail(lose) =>
      (match stk
       case Push(Cell(h, t), r) => Go(Push(t, if lose then r else stk))
       case _ => Die)
    case Frag(axe, lose) =>
      if stk.Push? then Replace(Slot(axe, stk.top), if lose then stk.rest else stk) else Die
    case Lit(val, lose) =>
      if !lose then Go(Push(val, stk))
      else if stk.Push? then Go(Push(val, stk.rest))
      else Die
    case NockLose =>
      (match stk
       case Push(fol, Push(bus, r)) => Call(fol, bus, r)
       case _ => Die)
    case NockTail => if stk.Push? then Leap(stk.top, stk.rest) else Die
    case NockKeep =>
      (match stk
       case Push(fol, Push(prior, Push(bus, r))) => Call(fol, bus, Push(prior, r))
       case _ => Die)
    case Deep => if stk.Push? then Go(Push(Loob(stk.top.Cell?), stk.rest)) else Die
    case Bump =>
      (match stk
       case Push(Atom(a), r) => Go(Push(Atom(a + 1), r))
       case _ => Die)
    case Sam(val) => if stk.Push? then Go(Push(Loob(stk.top == val), stk.rest)) else Die
    case Same(lose) =>
      (match stk
       case Push(x, Push(o, r)) =>
         if lose then Go(Push(Loob(x == o), r))
         else (match r
               case Push(prior, r') => Go(Push(Loob(x == prior), Push(o, r')))
               case _ => Die)
       case _ => Die)
    case Sbip(n) => Jump(n, stk)
    case Sbin(n) =>
      (match stk
       case Push(Atom(a), r) => if a == 0 then Go(r) else if a == 1 then Jump(n, r) else Die
       case _ => Die)
    case Kick(axe, tail) =>
      if !stk.Push? || stk.top.Atom? then Die
      else
        (match Slot(axe, stk.top)
         case None => Die
         case Some(arm) => if tail then Leap(arm, stk) else Call(arm, stk.top, stk.rest))
    case Wish(_) => Die
    case Bush(_) => if stk.Push? then Go(stk.rest) else Die
    case Untrace => Go(stk)
    case Heck => if stk.Push? then Go(stk.rest) else Die
    case Slog => if stk.Push? then Go(stk.rest) else Die
    case Fast(lose) =>
      (match stk
       case Push(pro, Push(clu, r)) =>
         if lose then Go(Push(pro, r))
         else (match r
               case Push(c, r') => Go(Push(pro, Push(clu, r')))
               case _ => Die)
       case _ => Die)
    case Skim(key, _, lose) =>
      if stk.Push? then
        Go(Push(stk.top, Push(Cell(Atom(0), Cell(stk.top, key)), if lose then stk.rest else stk)))
      else Die
    case Save =>
      (match stk
       case Push(pro, Push(_, r)) => Go(Push(pro, r))
       case _ => Die)
    case Fore(_, clue) =>
      // yes on top, then the subject, then a token for the hind instruction
      (match stk
       case Push(a, r) =>
         if !clue then Go(Push(Atom(0), Push(a, Push(Atom(0), r))))
         else if r.Push? then Go(Push(Atom(0), Push(r.top, Push(Atom(0), r.rest))))
         else Die
       case _ => Die)
    case Hind(lose, _) =>
      (match stk
       case Push(pro, Push(b, r)) =>
         if lose then Go(Push(pro, r))
         else (match r
               case Push(_, r') => Go(Push(pro, Push(b, r')))
               case _ => Die)
       case _ => Die)
    case Mut(at, lose) =>
      (match stk
       case Push(newer, Push(b, r)) =>
         if lose then Replace(Mutate(at, newer, b), r)
         else (match r
               case Push(prior, r') => Replace(Mutate(at, newer, prior), Push(b, r'))
               case _ => Die)
       case _ => Die)
  }

  /** The machine over instruction lists. Code only ever moves forward, so the
      place in a program is what remains of it. */
  datatype State = Running(code: Code, stk: Stack) | Done(v: Noun) | Dead

  /** Falling off the end of a program: hand the top of the stack to the frame below. */
  function Return(v: Noun, stk: Stack): State {
    match stk
    case Empty => Done(v)
    case Frame(Rest(code), r) => Running(code, Push(v, r))
    case _ => Dead
  }

  function Enter(fol: Noun, stk: Stack): State {
    match Load(fol)
    case Some(code) => Running(code, stk)
    case None => Dead
  }

  function Step(st: State): State {
    match st
    case Running(End, Push(v, r)) => Return(v, r)
    case Running(End, _) => Dead
    case Running(Then(op, next), _) =>
      (match Exec(op, st.stk)
       case Go(stk) => Running(next, stk)
       case Jump(n, stk) => if n <= Len(next) then Running(Drop(n, next), stk) else Dead
       case Call(fol, sub, stk) => Enter(fol, Push(sub, Frame(Rest(next), stk)))
       case Leap(fol, stk) => Enter(fol, stk)
       case Die => Dead)
    case _ => st
  }

  function Run(n: nat, st: State): State {
    if n == 0 then st else Run(n - 1, Step(st))
  }

  function Start(s: Noun, f: Noun): State {
    Enter(f, Push(s, Empty))
  }

  ghost predicate Reaches(st: State, st': State) {
    exists n: nat :: Run(n, st) == st'
  }

  lemma {:induction false} RunAdd(m: nat, n: nat, st: State)
    ensures Run(m + n, st) == Run(n, Run(m, st))
  {
    if m > 0 {
      RunAdd(m - 1, n, Step(st));
    }
  }

  lemma ReachesTrans(a: State, b: State, c: State)
    requires Reaches(a, b) && Reaches(b, c)
    ensures Reaches(a, c)
  {
    var m: nat :| Run(m, a) == b;
    var n: nat :| Run(n, b) == c;
    RunAdd(m, n, a);
  }

  lemma ReachesStep(a: State, c: State)
    requires Reaches(Step(a), c)
    ensures Reaches(a, c)
  {
    var n: nat :| Run(n, Step(a)) == c;
    assert Run(n + 1, a) == c;
  }
}
