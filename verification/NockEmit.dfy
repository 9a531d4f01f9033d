/** The compiler as it emits: each instruction is put at the head of the list
    that the caller passes in, so that list holds the code backwards, and the
    number of instructions added is counted on the way for the skips. */
module NockEmit {
  import opened Nouns
  import opened NockComp
  import opened NockGuard

  /** The code of a list built by putting each new instruction at the head. */
  function Built(list: seq<Op>): Code {
    if list == [] then End else Append(Built(list[1..]), One(list[0]))
  }

  method Emit(ops: seq<Op>, op: Op) returns (out: seq<Op>)
    ensures out == [op] + ops && Built(out) == Append(Built(ops), One(op))
  {
    out := [op] + ops;
    assert out[1..] == ops;
  }

  /** Put a whole list in front of another. */
  method Prepend(ops: seq<Op>, src: seq<Op>) returns (out: seq<Op>)
    ensures out == src + ops && Built(out) == Append(Built(ops), Built(src))
  {
    BuiltConcat(src, ops);
    out := src + ops;
  }

  lemma {:induction false} BuiltConcat(a: seq<Op>, b: seq<Op>)
    ensures Built(a + b) == Append(Built(b), Built(a))
  {
    if a == [] {
      assert a + b == b;
    } else {
      assert (a + b)[1..] == a[1..] + b;
      BuiltConcat(a[1..], b);
      AppendAssoc(Built(b), Built(a[1..]), One(a[0]));
    }
  }

  /** Two pieces of code put behind others one after the other. */
  lemma Behind(b: Code, p: Code, q: Code)
    ensures Append(Append(b, p), q) == Append(b, Append(p, q))
    ensures Len(Append(p, q)) == Len(p) + Len(q)
  {
    AppendAssoc(b, p, q);
    DropAppend(p, q);
  }

  /** What compiling `f` onto `ops` must have done. */
  ghost predicate Emitted(ops: seq<Op>, code: Option<Code>, ok: bool, out: seq<Op>, tot: nat) {
    && (ok <==> code.Some?)
    && (ok ==> Built(out) == Append(Built(ops), code.value) && tot == Len(code.value))
  }

  /** An instruction after what has been emitted. */
  method EmitAfter(ghost ops: seq<Op>, ghost p: Code, mid: seq<Op>, n: nat, op: Op) returns (out: seq<Op>, tot: nat)
    requires Built(mid) == Append(Built(ops), p) && n == Len(p)
    ensures Emitted(ops, Some(Append(p, One(op))), true, out, tot)
  {
    out := Emit(mid, op);
    tot := n + 1;
    Behind(Built(ops), p, One(op));
  }

  /** Compiling a formula after what has been emitted. */
  method CompileAfter(ghost ops: seq<Op>, ghost p: Code, mid: seq<Op>, n: nat, f: Noun, los: bool, tel: bool)
    returns (ok: bool, out: seq<Op>, tot: nat)
    requires Built(mid) == Append(Built(ops), p) && n == Len(p)
    ensures ok <==> Comp(f, los, tel).Some?
    ensures ok ==> Emitted(ops, Some(Append(p, Comp(f, los, tel).value)), true, out, tot)
    decreases Weight(f), 2
  {
    ok, out, tot := Compile(mid, f, los, tel);
    tot := n + tot;
    if ok {
      Behind(Built(ops), p, Comp(f, los, tel).value);
    }
  }

  /** Compiling a formula onto a list of its own. */
  method CompileAlone(f: Noun, los: bool, tel: bool) returns (ok: bool, out: seq<Op>, tot: nat)
    ensures ok <==> Comp(f, los, tel).Some?
    ensures ok ==> Built(out) == Comp(f, los, tel).value && tot == Len(Built(out))
    decreases Weight(f), 2
  {
    ok, out, tot := Compile([], f, los, tel);
  }

  method CompilePair(ops: seq<Op>, b: Noun, c: Noun, los: bool, op: Op) returns (ok: bool, out: seq<Op>, tot: nat)
    ensures Emitted(ops, Pair(b, c, los, op), ok, out, tot)
    decreases Weight(b) + Weight(c), 3
  {
    hide Append, Built, Len, Comp, Pair;
    PairIs(b, c, los, op);
    ok, out, tot := Compile(ops, b, false, false);
    if ok {
      ghost var p := Comp(b, false, false).value;
      out, tot := EmitAfter(ops, p, out, tot, Swap);
      ghost var p1 := Append(p, One(Swap));
      ok, out, tot := CompileAfter(ops, p1, out, tot, c, los, false);
      if ok {
        ghost var q := Comp(c, los, false).value;
        out, tot := EmitAfter(ops, Append(p1, q), out, tot, op);
        PairEmitted(p, q, op);
      }
    }
  }

  lemma PairIs(b: Noun, c: Noun, los: bool, op: Op)
    ensures var p, q := Comp(b, false, false), Comp(c, los, false);
            Pair(b, c, los, op) ==
              if p.Some? && q.Some? then Some(Append(p.value, Then(Swap, Append(q.value, One(op))))) else None
  {
    hide Comp, Append;
  }

  lemma PairEmitted(p: Code, q: Code, op: Op)
    ensures Append(Append(Append(p, One(Swap)), q), One(op)) == Append(p, Then(Swap, Append(q, One(op))))
  {
    AppendAssoc(p, One(Swap), q);
    AppendAssoc(p, Then(Swap, q), One(op));
  }

  /** An arm of a branch, on a list of its own. */
  method CompileArm(f: Noun, los: bool, tel: bool) returns (ok: bool, out: seq<Op>, tot: nat)
    ensures ok <==> Arm(f, los, tel).Some?
    ensures ok ==> Built(out) == Arm(f, los, tel).value && tot == Len(Built(out))
    decreases Weight(f), 3
  {
    if Formulaic(f) {
      ok, out, tot := CompileAlone(f, los, tel);
    } else {
      ok, out, tot := true, [Bail], 1;
      assert out[1..] == [];
    }
  }

  method CompileFork(ops: seq<Op>, b: Noun, c: Noun, d: Noun, los: bool, tel: bool)
        returns (ok: bool, out: seq<Op>, tot: nat)
    requires Constant(b).None?
    ensures Emitted(ops, Comp(Cell(Atom(6), Cell(b, Cell(c, d))), los, tel), ok, out, tot)
    decreases Weight(b) + Weight(c) + Weight(d), 4
  {
    hide Append, Built, Fork, Comp, Len, One;
    ForkIs(b, c, d, los, tel);
    ok, out, tot := Compile(ops, b, false, false);
    if !ok || (!Formulaic(c) && !Formulaic(d)) {
      return false, out, tot;
    }
    var yep, yepn := [], 0;
    var nop, nopn := [], 0;
    ok, yep, yepn := CompileArm(c, los, tel);
    if ok {
      ok, nop, nopn := CompileArm(d, los, tel);
    }
    if ok {
      ghost var p, y := Comp(b, false, false).value, Built(yep);
      yep := Emit(yep, Sbip(nopn));
      yepn := yepn + 1;
      OneMore(y, Sbip(nopn));
      out, tot := EmitAfter(ops, p, out, tot, Sbin(yepn));
      out := Prepend(out, yep);
      tot := tot + yepn;
      out := Prepend(out, nop);
      tot := tot + nopn;
      ForkEmitted(Built(ops), p, y, Built(nop));
    }
  }

  lemma ForkIs(b: Noun, c: Noun, d: Noun, los: bool, tel: bool)
    requires Constant(b).None?
    ensures var p, y, n := Comp(b, false, false), Arm(c, los, tel), Arm(d, los, tel);
            Comp(Cell(Atom(6), Cell(b, Cell(c, d))), los, tel) ==
              if p.Some? && (Formulaic(c) || Formulaic(d)) && y.Some? && n.Some?
              then Some(Append(p.value, Fork(y.value, n.value))) else None
  {
    hide Arm, Append, Fork, Constant, Formulaic, Pair, Bint, Weight;
  }

  lemma OneThen(op: Op, q: Code)
    ensures Append(One(op), q) == Then(op, q)
  {
  }

  lemma OneMore(q: Code, op: Op)
    ensures Len(Append(q, One(op))) == Len(q) + 1
  {
    DropAppend(q, One(op));
    assert Len(One(op)) == 1;
  }

  lemma ForkEmitted(b: Code, p: Code, y: Code, n: Code)
    ensures var sbin, sbip := One(Sbin(Len(y) + 1)), One(Sbip(Len(n)));
            && Append(Append(Append(b, Append(p, sbin)), Append(y, sbip)), n) == Append(b, Append(p, Fork(y, n)))
            && Len(Append(p, Fork(y, n))) == Len(Append(p, sbin)) + (Len(y) + 1) + Len(n)
  {
    var sbin, sbip := One(Sbin(Len(y) + 1)), One(Sbip(Len(n)));
    AppendAssoc(Append(b, Append(p, sbin)), Append(y, sbip), n);
    AppendAssoc(y, sbip, n);
    AppendAssoc(b, Append(p, sbin), Append(y, Then(Sbip(Len(n)), n)));
    AppendAssoc(p, sbin, Append(y, Then(Sbip(Len(n)), n)));
    assert Append(sbin, Append(y, Then(Sbip(Len(n)), n))) == Fork(y, n);
    DropAppend(p, Fork(y, n));
    DropAppend(p, sbin);
    DropAppend(y, Then(Sbip(Len(n)), n));
    assert Len(sbin) == 1;
  }

  /** The formula between fore and hind, on a list of its own, then all of it. */
  method CompileFenced(ghost ops: seq<Op>, ghost p: Code, mid: seq<Op>, n: nat, fore: Op, nef: Noun, los: bool,
        clue: bool)
    returns (ok: bool, out: seq<Op>, tot: nat)
    requires Built(mid) == Append(Built(ops), p) && n == Len(p)
    ensures ok <==> Comp(nef, los, false).Some?
    ensures ok ==> Emitted(ops, Some(Append(p, Fenced(fore, Comp(nef, los, false).value, los, clue))), true, out, tot)
    decreases Weight(nef), 3
  {
    hide Append, Len, Comp, Built, Fenced, One;
    var fen, fenn := [], 0;
    ok, fen, fenn := CompileAlone(nef, los, false);
    out, tot := mid, n;
    if ok {
      ghost var q := Built(fen);
      fen := Emit(fen, Hind(los, clue));
      fen := Emit(fen, Sbip(1));
      fenn := fenn + 2;
      out, tot := EmitAfter(ops, p, out, tot, fore);
      out, tot := EmitAfter(ops, Append(p, One(fore)), out, tot, Sbin(fenn));
      out := Prepend(out, fen);
      tot := tot + fenn;
      out := Emit(out, if los then Toss else Swap);
      tot := tot + 1;
      FencedEmitted(Built(ops), p, fore, q, los, clue);
    }
  }

  lemma FenEmitted(q: Code, los: bool, clue: bool)
    ensures var last := One(if los then Toss else Swap);
            var fen := Append(Append(q, One(Hind(los, clue))), One(Sbip(1)));
            Append(fen, last) == Append(q, Hindmost(los, clue)) && Len(fen) == Len(q) + 2
  {
    var last := One(if los then Toss else Swap);
    var two := Then(Hind(los, clue), One(Sbip(1)));
    AppendAssoc(q, One(Hind(los, clue)), One(Sbip(1)));
    AppendAssoc(q, two, last);
    assert Append(two.next, last) == Then(Sbip(1), last);
    DropAppend(q, two);
    assert Len(two.next) == 1;
  }

  lemma FencedEmitted(b: Code, p: Code, fore: Op, q: Code, los: bool, clue: bool)
    ensures var sbin, last := One(Sbin(Len(q) + 2)), One(if los then Toss else Swap);
            var fen := Append(Append(q, One(Hind(los, clue))), One(Sbip(1)));
            && Append(Append(Append(b, Append(Append(p, One(fore)), sbin)), fen), last)
               == Append(b, Append(p, Fenced(fore, q, los, clue)))
            && Len(Append(p, Fenced(fore, q, los, clue))) == Len(Append(Append(p, One(fore)), sbin)) + (Len(q) + 2) + 1
            && Len(fen) == Len(q) + 2
  {
    FenEmitted(q, los, clue);
    var sbin, last := One(Sbin(Len(q) + 2)), One(if los then Toss else Swap);
    var fen := Append(Append(q, One(Hind(los, clue))), One(Sbip(1)));
    var rest := Append(fen, last);
    var p1, p2 := Append(p, One(fore)), Append(Append(p, One(fore)), sbin);
    AppendAssoc(Append(b, p2), fen, last);
    AppendAssoc(b, p2, rest);
    AppendAssoc(p1, sbin, rest);
    AppendAssoc(p, One(fore), Then(sbin.op, rest));
    DropAppend(fen, last);
    DropAppend(p2, rest);
    assert Len(last) == 1;
  }

  method CompileMemo(ghost ops: seq<Op>, ghost p: Code, mid: seq<Op>, n: nat, nef: Noun, los: bool)
    returns (ok: bool, out: seq<Op>, tot: nat)
    requires Built(mid) == Append(Built(ops), p) && n == Len(p)
    ensures ok <==> Hinted(Atom(MEMO), nef, los, false).Some?
    ensures ok ==> Emitted(ops, Some(Append(p, Hinted(Atom(MEMO), nef, los, false).value)), true, out, tot)
    decreases Weight(nef), 3
  {
    hide Append, Len, Comp, Built;
    var mem, memn := [], 0;
    out, tot := EmitAfter(ops, p, mid, n, Toss);
    ok, mem, memn := CompileAlone(nef, true, false);
    if ok {
      ghost var q := Built(mem);
      mem := Emit(mem, Save);
      memn := memn + 1;
      out, tot := EmitAfter(ops, Append(p, One(Toss)), out, tot, Skim(nef, memn, los));
      out := Prepend(out, mem);
      tot := tot + memn;
      MemoEmitted(Built(ops), p, Skim(nef, memn, los), q);
    }
  }

  lemma MemoEmitted(b: Code, p: Code, skim: Op, q: Code)
    ensures var p2, all := Append(Append(p, One(Toss)), One(skim)), Then(Toss, Then(skim, Append(q, One(Save))));
            && Append(Append(b, p2), Append(q, One(Save))) == Append(b, Append(p, all))
            && Len(Append(p, all)) == Len(p2) + Len(q) + 1 && Len(Append(q, One(Save))) == Len(q) + 1
  {
    var p1, end := Append(p, One(Toss)), Append(q, One(Save));
    Behind(b, Append(p1, One(skim)), end);
    AppendAssoc(p1, One(skim), end);
    AppendAssoc(p, One(Toss), Then(skim, end));
    DropAppend(q, One(Save));
    DropAppend(Append(p1, One(skim)), end);
    assert Len(One(Save)) == 1;
  }

  /** A hint's code after its clue. */
  method CompileHinted(ghost ops: seq<Op>, ghost p: Code, mid: seq<Op>, n: nat, zep: Noun, nef: Noun, los: bool,
        tel: bool)
    returns (ok: bool, out: seq<Op>, tot: nat)
    requires Built(mid) == Append(Built(ops), p) && n == Len(p)
    ensures ok <==> Hinted(zep, nef, los, tel).Some?
    ensures ok ==> Emitted(ops, Some(Append(p, Hinted(zep, nef, los, tel).value)), true, out, tot)
    decreases Weight(nef), 4
  {
    hide Built, Fenced, Append, Comp, Len, One;
    if Traced(zep) || zep == Atom(FAST) {
      var pre := if Traced(zep) then Bush(zep) else Swap;
      var post := if Traced(zep) then Untrace else Fast(los);
      ok, out, tot := CompileWrapped(ops, p, mid, n, pre, nef, los, post);
    } else if zep == Atom(MEMO) {
      ok, out, tot := CompileMemo(ops, p, mid, n, nef, los);
    } else if Plain(zep).None? {
      ok, out, tot := CompileFenced(ops, p, mid, n, Fore(Cell(zep, nef), true), nef, los, true);
    } else {
      out, tot := EmitAfter(ops, p, mid, n, Plain(zep).value);
      ok, out, tot := CompileAfter(ops, Append(p, One(Plain(zep).value)), out, tot, nef, los, tel);
      if ok {
        AppendAssoc(p, One(Plain(zep).value), Comp(nef, los, tel).value);
        OneThen(Plain(zep).value, Comp(nef, los, tel).value);
      }
    }
  }

  method CompileWrapped(ghost ops: seq<Op>, ghost p: Code, mid: seq<Op>, n: nat, pre: Op, nef: Noun, los: bool,
        post: Op)
    returns (ok: bool, out: seq<Op>, tot: nat)
    requires Built(mid) == Append(Built(ops), p) && n == Len(p)
    ensures ok <==> Comp(nef, los, false).Some?
    ensures ok ==>
        Emitted(ops, Some(Append(p, Then(pre, Append(Comp(nef, los, false).value, One(post))))), true, out, tot)
    decreases Weight(nef), 3
  {
    out, tot := EmitAfter(ops, p, mid, n, pre);
    ok, out, tot := CompileAfter(ops, Append(p, One(pre)), out, tot, nef, los, false);
    if ok {
      ghost var q := Comp(nef, los, false).value;
      out, tot := EmitAfter(ops, Append(Append(p, One(pre)), q), out, tot, post);
      AppendAssoc(Append(p, One(pre)), q, One(post));
      AppendAssoc(p, One(pre), Append(q, One(post)));
    }
  }

  method CompileHint(ops: seq<Op>, hif: Noun, nef: Noun, los: bool, tel: bool)
        returns (ok: bool, out: seq<Op>, tot: nat)
    ensures Emitted(ops, Bint(hif, nef, los, tel), ok, out, tot)
    decreases Weight(hif) + Weight(nef), 4
  {
    match hif
    case Atom(_) =>
      if AtomProtocol(hif) {
        ok, out, tot := CompileFenced(ops, End, ops, 0, Fore(Cell(hif, nef), false), nef, los, false);
      } else {
        ok, out, tot := Compile(ops, nef, los, tel);
      }
    case Cell(zep, hod) =>
      ok, out, tot := Compile(ops, hod, false, false);
      if ok {
        ok, out, tot := CompileHinted(ops, Comp(hod, false, false).value, out, tot, zep, nef, los, tel);
      }
  }

  /** Compile a formula onto a list, bailing exactly when `Comp` does, with the
      code of `Comp` added and its length counted. */
  method Compile(ops: seq<Op>, f: Noun, los: bool, tel: bool) returns (ok: bool, out: seq<Op>, tot: nat)
    ensures Emitted(ops, Comp(f, los, tel), ok, out, tot)
    decreases Weight(f), 1
  {
    Lighter(f);
    if f.Cell? && f.h.Atom? && f.h.a >= 6 {
      ok, out, tot := CompileHigh(ops, f, los, tel);
    } else {
      ok, out, tot := CompileLow(ops, f, los, tel);
    }
  }

  method CompileLow(ops: seq<Op>, f: Noun, los: bool, tel: bool) returns (ok: bool, out: seq<Op>, tot: nat)
    requires !(f.Cell? && f.h.Atom? && f.h.a >= 6)
    ensures Emitted(ops, Comp(f, los, tel), ok, out, tot)
    decreases Weight(f), 0
  {
    Lighter(f);
    ok, out, tot := false, ops, 0;
    match f
    case Cell(Cell(_, _), arg) =>
      ok, out, tot := CompilePair(ops, f.h, arg, los, Auto(los));
    case Cell(Atom(0), Atom(b)) =>
      ok := true;
      if b != 1 || !los {
        out := Emit(ops, FragOps(b, los).op);
        tot := 1;
      }
    case Cell(Atom(1), b) =>
      ok := true;
      out := Emit(ops, Lit(b, los));
      tot := 1;
    case Cell(Atom(2), Cell(b, c)) =>
      ok, out, tot := CompilePair(ops, b, c, los, CallOp(los, tel));
    case Cell(Atom(3), b) =>
      ok, out, tot := Compile(ops, b, los, false);
      if ok {
        out, tot := EmitAfter(ops, Comp(b, los, false).value, out, tot, Deep);
      }
    case Cell(Atom(4), b) =>
      ok, out, tot := Compile(ops, b, los, false);
      if ok {
        out, tot := EmitAfter(ops, Comp(b, los, false).value, out, tot, Bump);
      }
    case Cell(Atom(5), Cell(Cell(bh, bt), Cell(ch, ct))) =>
      var b, c := f.t.h, f.t.t;
      if bh == Atom(1) && ch == Atom(1) {
        ok := true;
        out := Emit(ops, Lit(Loob(bt == ct), los));
        tot := 1;
      } else if bh != Atom(1) && ch != Atom(1) {
        ok, out, tot := CompilePair(ops, b, c, los, Same(los));
      } else {
        var e := if bh == Atom(1) then c else b;
        ok, out, tot := Compile(ops, e, los, false);
        if ok {
          out, tot := EmitAfter(ops, Comp(e, los, false).value, out, tot, Sam(if bh == Atom(1) then bt else ct));
        }
      }
    case _ =>
  }

  method CompileHigh(ops: seq<Op>, f: Noun, los: bool, tel: bool) returns (ok: bool, out: seq<Op>, tot: nat)
    requires f.Cell? && f.h.Atom? && f.h.a >= 6
    ensures Emitted(ops, Comp(f, los, tel), ok, out, tot)
    decreases Weight(f), 0
  {
    Lighter(f);
    ok, out, tot := false, ops, 0;
    match f
    case Cell(Atom(6), Cell(b, Cell(c, d))) =>
      if Constant(b).None? {
        ok, out, tot := CompileFork(ops, b, c, d, los, tel);
      } else if Constant(b) == Some(Atom(0)) {
        ok, out, tot := Compile(ops, c, los, tel);
      } else if Constant(b) == Some(Atom(1)) {
        ok, out, tot := Compile(ops, d, los, tel);
      } else {
        ok := true;
        out := Emit(ops, Bail);
        tot := 1;
      }
    case Cell(Atom(7), Cell(b, c)) =>
      ok, out, tot := Compile(ops, b, los, false);
      if ok {
        ok, out, tot := CompileAfter(ops, Comp(b, los, false).value, out, tot, c, true, tel);
      }
    case Cell(Atom(8), Cell(b, c)) =>
      ok, out, tot := Compile(ops, b, false, false);
      if ok {
        ghost var p := Comp(b, false, false).value;
        out, tot := EmitAfter(ops, p, out, tot, Snoc(los));
        ok, out, tot := CompileAfter(ops, Append(p, One(Snoc(los))), out, tot, c, true, tel);
        if ok {
          AppendAssoc(p, One(Snoc(los)), Comp(c, true, tel).value);
        }
      }
    case Cell(Atom(9), Cell(Atom(b), c)) =>
      if b == 1 || Cap(b) == Some(3) {
        MacroLighter(Atom(b), c);
        ok, out, tot := Compile(ops, Macro(Atom(b), c), los, tel);
      } else if b != 0 {
        ok, out, tot := Compile(ops, c, tel || los, false);
        if ok {
          out, tot := EmitAfter(ops, Comp(c, tel || los, false).value, out, tot, Kick(b, tel));
        }
      }
    case Cell(Atom(10), Cell(Cell(b, c), d)) =>
      ok, out, tot := CompilePair(ops, d, c, los, Mut(b, los));
    case Cell(Atom(11), Cell(hif, nef)) =>
      ok, out, tot := CompileHint(ops, hif, nef, los, tel);
    case Cell(Atom(12), Cell(b, c)) =>
      ok, out, tot := CompilePair(ops, b, c, los, Wish(los));
    case _ =>
  }
}
