/** The reference semantics: Nock 4K, opcodes 0 to 11, as a recursion bounded
    by reduction depth. A crash and an endless reduction both yield nothing. */
module NockSpec {
  import opened Nouns

  function Nock(k: nat, s: Noun, f: Noun): Option<Noun> {
    if k == 0 then None
    else
      match f
      case Cell(Cell(_, _), arg) =>
        var p :- Nock(k - 1, s, f.h);
        var q :- Nock(k - 1, s, arg);
        Some(Cell(p, q))
      case Cell(Atom(0), Atom(b)) => Slot(b, s)
      case Cell(Atom(1), b) => Some(b)
      case Cell(Atom(2), Cell(b, c)) =>
        var p :- Nock(k - 1, s, b);
        var q :- Nock(k - 1, s, c);
        Nock(k - 1, p, q)
      case Cell(Atom(3), b) =>
        var p :- Nock(k - 1, s, b);
        Some(Atom(if p.Cell? then 0 else 1))
      case Cell(Atom(4), b) =>
        var p :- Nock(k - 1, s, b);
        if p.Atom? then Some(Atom(p.a + 1)) else None
      case Cell(Atom(5), Cell(b, c)) =>
        var p :- Nock(k - 1, s, b);
        var q :- Nock(k - 1, s, c);
        Some(Atom(if p == q then 0 else 1))
      case Cell(Atom(6), Cell(b, Cell(c, d))) =>
        var p :- Nock(k - 1, s, b);
        if p == Atom(0) then Nock(k - 1, s, c)
        else if p == Atom(1) then Nock(k - 1, s, d)
        else None
      case Cell(Atom(7), Cell(b, c)) =>
        var p :- Nock(k - 1, s, b);
        Nock(k - 1, p, c)
      case Cell(Atom(8), Cell(b, c)) =>
        var p :- Nock(k - 1, s, b);
        Nock(k - 1, Cell(p, s), c)
      case Cell(Atom(9), Cell(b, c)) =>
        var p :- Nock(k - 1, s, c);
        var q :- SlotOf(b, p);
        Nock(k - 1, p, q)
      case Cell(Atom(10), Cell(Cell(b, c), d)) =>
        var p :- Nock(k - 1, s, c);
        var q :- Nock(k - 1, s, d);
        EditOf(b, p, q)
      case Cell(Atom(11), Cell(Cell(_, c), d)) =>
        var _ :- Nock(k - 1, s, c);
        Nock(k - 1, s, d)
      case Cell(Atom(11), Cell(Atom(_), d)) => Nock(k - 1, s, d)
      case _ => None
  }

  /** Some number of reductions takes `[s f]` to `v`. */
  ghost predicate Yields(s: Noun, f: Noun, v: Noun) {
    exists k: nat :: Nock(k, s, f) == Some(v)
  }

  /** More depth never changes a value already found. */
  lemma {:induction false} NockMono(k: nat, l: nat, s: Noun, f: Noun)
    requires k <= l && Nock(k, s, f).Some?
    ensures Nock(l, s, f) == Nock(k, s, f)
    decreases k
  {
    var i, j: nat := k - 1, l - 1;
    forall s': Noun, f': Noun | Nock(i, s', f').Some?
      ensures Nock(j, s', f') == Nock(i, s', f')
    {
      NockMono(i, j, s', f');
    }
  }

  /** A formula has at most one product. */
  lemma NockUnique(k: nat, l: nat, s: Noun, f: Noun)
    requires Nock(k, s, f).Some? && Nock(l, s, f).Some?
    ensures Nock(k, s, f) == Nock(l, s, f)
  {
    if k <= l {
      NockMono(k, l, s, f);
    } else {
      NockMono(l, k, s, f);
    }
  }
}
