/** Tree edit from the top down, as the runtime walks an axis bit by bit. */
module EditPath {
  import opened Nouns
  import opened Bits

  /** How many turns an axis takes. */
  function Turns(axe: nat): nat {
    if axe < 2 then 0 else 1 + Turns(axe / 2)
  }

  function SlotFrom(axe: nat, k: nat, n: Noun): Option<Noun> {
    if k == 0 then Some(n)
    else
      match n
      case Atom(_) => None
      case Cell(h, t) => SlotFrom(axe, k - 1, if Bit(axe, k - 1) then t else h)
  }

  /** Replace the subtree that the low `k` bits of the axis lead to. */
  function EditFrom(axe: nat, k: nat, som: Noun, n: Noun): Option<Noun> {
    if k == 0 then Some(som)
    else
      match n
      case Atom(_) => None
      case Cell(h, t) =>
        if Bit(axe, k - 1) then
          (match EditFrom(axe, k - 1, som, t)
           case None => None
           case Some(newer) => Some(Cell(h, newer)))
        else
          match EditFrom(axe, k - 1, som, h)
          case None => None
          case Some(newer) => Some(Cell(newer, t))
  }

  lemma {:induction false} SlotLast(axe: nat, k: nat, n: Noun)
    ensures SlotFrom(axe, k + 1, n)
            == match SlotFrom(axe / 2, k, n) {
                 case Some(Cell(h, t)) => Some(if axe % 2 == 1 then t else h)
                 case _ => None
               }
    decreases k
  {
    if k == 0 {
      assert Bit(axe, 0) == (axe % 2 == 1);
    } else if n.Cell? {
      SlotLast(axe, k - 1, if Bit(axe, k) then n.t else n.h);
    }
  }

  lemma {:induction false} EditLast(axe: nat, k: nat, som: Noun, n: Noun)
    ensures EditFrom(axe, k + 1, som, n)
            == match SlotFrom(axe / 2, k, n) {
                 case Some(Cell(h, t)) => EditFrom(axe / 2, k, if axe % 2 == 1 then Cell(h, som) else Cell(som, t), n)
                 case _ => None
               }
    decreases k
  {
    if k == 0 {
      assert Bit(axe, 0) == (axe % 2 == 1);
      if n.Cell? {
        assert EditFrom(axe, 0, som, n.h) == Some(som) && EditFrom(axe, 0, som, n.t) == Some(som);
      }
    } else if n.Cell? {
      EditLast(axe, k - 1, som, if Bit(axe, k) then n.t else n.h);
    }
  }

  lemma {:induction false} SlotWalk(axe: nat, n: Noun)
    requires axe > 0
    ensures SlotFrom(axe, Turns(axe), n) == Slot(axe, n)
  {
    if axe > 1 {
      SlotWalk(axe / 2, n);
      SlotLast(axe, Turns(axe / 2), n);
    }
  }

  /** The walk computes the edit of the reduction rules. */
  lemma {:induction false} EditWalk(axe: nat, som: Noun, n: Noun)
    requires axe > 0
    ensures EditFrom(axe, Turns(axe), som, n) == Edit(axe, som, n)
  {
    if axe > 1 {
      EditLast(axe, Turns(axe / 2), som, n);
      SlotWalk(axe / 2, n);
      var other := if axe % 2 == 0 then axe + 1 else axe - 1;
      assert other / 2 == axe / 2 && other % 2 != axe % 2;
      if Slot(axe / 2, n).Some? && Slot(axe / 2, n).value.Cell? {
        var cell := Slot(axe / 2, n).value;
        EditWalk(axe / 2, if axe % 2 == 1 then Cell(cell.h, som) else Cell(som, cell.t), n);
      }
    }
  }
}
