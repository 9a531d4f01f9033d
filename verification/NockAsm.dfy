/** The assembler: instruction lists laid out as bytes, with side tables for
    what does not fit in them. The tables are filled from the last instruction
    to the first, so the program of a suffix is a suffix of the program. */
module NockAsm {
  import opened Nouns
  import opened NockComp

  datatype Memo = Memo(sip: nat, key: Noun)

  datatype Prog = Prog(bytes: seq<nat>, lits: seq<Noun>, cals: seq<nat>, regs: nat, mems: seq<Memo>)

  /** What follows an opcode: nothing, a number of one or two bytes, an index
      into a table, or a skip over that many instructions. */
  datatype Arg =
    | NoArg
    | Direct(wide: bool, x: nat)
    | LitArg(lit: Noun) | CalArg(cal: nat) | RegArg | MemArg(key: Noun, over: nat)
    | SkipArg(n: nat)

  /** `base` for a byte, `base + 1` for a short, `base + 2` for an indexed literal. */
  function Sized(base: nat, x: Noun): (nat, Arg) {
    if x.Atom? && x.a <= 0xFF then (base, Direct(false, x.a))
    else if x.Atom? && x.a <= 0xFFFF then (base + 1, Direct(true, x.a))
    else (base + 2, LitArg(x))
  }

  /** Opcode (the byte-index one, where there are two) and argument. */
  function Encode(op: Op): (nat, Arg) {
    match op
    case Bail => (1, NoArg)
    case Copy => (2, NoArg)
    case Swap => (3, NoArg)
    case Toss => (4, NoArg)
    case Auto(lose) => (if lose then 6 else 5, NoArg)
    case Snoc(lose) => (if lose then 8 else 7, NoArg)
    case Head(lose) => (if lose then 10 else 9, NoArg)
    case Tail(lose) => (if lose then 12 else 11, NoArg)
    case Frag(axe, lose) => Sized(if lose then 17 else 13, Atom(axe))
    case Lit(val, lose) =>
      var zero := if lose then 27 else 21;
      if val == Atom(0) then (zero, NoArg)
      else if val == Atom(1) then (zero + 1, NoArg)
      else Sized(zero + 2, val)
    case NockLose => (33, NoArg)
    case NockTail => (34, NoArg)
    case NockKeep => (35, NoArg)
    case Deep => (36, NoArg)
    case Bump => (37, NoArg)
    case Sam(val) =>
      if val == Atom(0) then (38, NoArg)
      else if val == Atom(1) then (39, NoArg)
      else Sized(40, val)
    case Same(lose) => (if lose then 45 else 44, NoArg)
    case Sbip(n) => (47, SkipArg(n))
    case Sbin(n) => (50, SkipArg(n))
    case Kick(axe, tail) => (if tail then 55 else 53, CalArg(axe))
    case Wish(lose) => (if lose then 57 else 58, NoArg)
    case Bush(tag) => (59, LitArg(tag))
    case Untrace => (61, NoArg)
    case Heck => (62, NoArg)
    case Slog => (63, NoArg)
    case Fast(lose) => (if lose then 66 else 64, RegArg)
    case Skim(key, n, lose) => (if lose then 70 else 68, MemArg(key, n))
    case Save => (72, NoArg)
    case Fore(hint, clue) => (if clue then 75 else 73, LitArg(hint))
    case Hind(lose, clue) => ((if clue then 79 else 77) + (if lose then 1 else 0), NoArg)
    case Mut(at, lose) =>
      var keep := if lose then 0 else 1;
      if at == Atom(2) then (81 + keep, NoArg)
      else if at == Atom(3) then (83 + keep, NoArg)
      else if at == Atom(6) then (85 + keep, NoArg)
      else Sized(87 + 4 * keep, at)
  }

  /** An index, with overflow from the byte opcode to its successor. */
  function Index(cod: nat, inx: nat): seq<nat> {
    if inx <= 0xFF then [cod, inx] else [cod + 1, inx % 0x100, inx / 0x100 % 0x100]
  }

  /** A byte distance, with overflow to a short and to a word. */
  function Distance(cod: nat, sip: nat): seq<nat> {
    if sip <= 0xFF then [cod, sip]
    else if sip <= 0xFFFF then [cod + 1, sip % 0x100, sip / 0x100]
    else [cod + 2, sip % 0x100, sip / 0x100 % 0x100, sip / 0x10000 % 0x100, sip / 0x1000000 % 0x100]
  }

  /** Put one instruction in front of a program; `sip` is its skip in bytes. */
  function Put(op: Op, sip: nat, p: Prog): Prog {
    var (cod, arg) := Encode(op);
    match arg
    case NoArg => p.(bytes := [cod] + p.bytes)
    case Direct(wide, x) =>
      p.(bytes := (if wide then [cod, x % 0x100, x / 0x100] else [cod, x]) + p.bytes)
    case LitArg(lit) => p.(bytes := Index(cod, |p.lits|) + p.bytes, lits := p.lits + [lit])
    case CalArg(cal) => p.(bytes := Index(cod, |p.cals|) + p.bytes, cals := p.cals + [cal])
    case RegArg => p.(bytes := Index(cod, p.regs) + p.bytes, regs := p.regs + 1)
    case MemArg(key, _) => p.(bytes := Index(cod, |p.mems|) + p.bytes, mems := p.mems + [Memo(sip, key)])
    case SkipArg(_) => p.(bytes := Distance(cod, sip) + p.bytes)
  }

  /** How many instructions an instruction may skip, if it is a skipping one. */
  function Skipped(op: Op): nat {
    match op
    case Sbip(n) => n
    case Sbin(n) => n
    case Skim(_, n, _) => n
    case _ => 0
  }

  function Asm(code: Code): Prog
    decreases Len(code), 0
  {
    match code
    case End => Prog([0], [], [], 0, [])
    case Then(op, next) => Put(op, SkipBytes(op, next), Asm(next))
  }

  /** How many bytes an instruction in front of `next` skips. */
  function SkipBytes(op: Op, next: Code): nat
    decreases Len(next), 1
  {
    if Skipped(op) <= Len(next) then Span(Asm(next), Asm(Drop(Skipped(op), next))) else 0
  }

  /** Bytes from the start of a program to the start of one of its suffixes. */
  function Span(p: Prog, q: Prog): nat {
    if |q.bytes| <= |p.bytes| then |p.bytes| - |q.bytes| else 0
  }

  /** The sizes beyond which the assembler stops the process. */
  predicate Fits(p: Prog) {
    && |p.lits| <= 0x10000 && |p.cals| <= 0x10000 && p.regs <= 0x10000 && |p.mems| <= 0x10000
    && |p.bytes| < 0x1_0000_0000
  }

  /** The code of a formula that compiles and assembles. */
  function Load(f: Noun): Option<Code> {
    var code :- Comp(f, true, true);
    if Fits(Asm(code)) then Some(code) else None
  }
}
