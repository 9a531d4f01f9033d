/** Nouns, options, and the two tree operators every other module speaks of:
    slot lookup and slot edit, both written as the reduction rules write them. */
module Nouns {

  datatype Option<+T> = None | Some(value: T) {
    predicate IsFailure() { None? }

    function PropagateFailure<U>(): Option<U>
      requires None?
    {
      None
    }

    function Extract(): T
      requires Some?
    {
      value
    }
  }

  datatype Noun = Atom(a: nat) | Cell(h: Noun, t: Noun)

  /** `0` for yes and `1` for no, the loobean convention. */
  function Loob(b: bool): Noun {
    Atom(if b then 0 else 1)
  }

  /** `/[axe n]`: the subtree at an axis. */
  function Slot(axe: nat, n: Noun): Option<Noun> {
    if axe == 0 then None
    else if axe == 1 then Some(n)
    else
      match Slot(axe / 2, n)
      case Some(Cell(h, t)) => Some(if axe % 2 == 0 then h else t)
      case _ => None
  }

  /** `#[axe new n]`: the tree with the subtree at an axis replaced. */
  function Edit(axe: nat, newer: Noun, n: Noun): Option<Noun> {
    if axe == 0 then None
    else if axe == 1 then Some(newer)
    else
      match Slot(if axe % 2 == 0 then axe + 1 else axe - 1, n)
      case None => None
      case Some(sib) => Edit(axe / 2, if axe % 2 == 0 then Cell(newer, sib) else Cell(sib, newer), n)
  }

  /** Slot lookup when the axis itself is a noun; only atoms are axes. */
  function SlotOf(axe: Noun, n: Noun): Option<Noun> {
    if axe.Atom? then Slot(axe.a, n) else None
  }

  function EditOf(axe: Noun, newer: Noun, n: Noun): Option<Noun> {
    if axe.Atom? then Edit(axe.a, newer, n) else None
  }

  /** The root turn of an axis: 2 when its path starts in the head, 3 when it
      starts in the tail, nothing for the two axes that have no first turn. */
  function Cap(axe: nat): Option<nat> {
    if axe < 2 then None
    else if axe < 4 then Some(axe)
    else Cap(axe / 2)
  }

  /** An axis whose path starts in the head reads the head alone: two cells that
      share a head have the same subtree there. */
  lemma {:induction false} SlotInHead(axe: nat, h: Noun, t: Noun, u: Noun)
    requires Cap(axe) == Some(2)
    ensures Slot(axe, Cell(h, t)) == Slot(axe, Cell(h, u))
  {
    if axe < 4 {
      assert Slot(1, Cell(h, t)) == Some(Cell(h, t)) && Slot(1, Cell(h, u)) == Some(Cell(h, u));
    } else {
      SlotInHead(axe / 2, h, t, u);
    }
  }
}
