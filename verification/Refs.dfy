/** Noun references: a word is a direct atom, or a tagged reference to an indirect
    atom or to a cell, with two bits of the address shifted out. */
module Refs {
  const LOOM := 0x1_0000_0000

  predicate IsCat(w: nat) { w < 0x8000_0000 }

  predicate IsPug(w: nat) { 0x8000_0000 <= w < 0xC000_0000 }

  predicate IsPom(w: nat) { 0xC000_0000 <= w < LOOM }

  function Off(w: nat): nat {
    w % 0x4000_0000 * 4
  }

  function ToPug(off: nat): (w: nat)
    requires off < LOOM && off % 4 == 0
    ensures IsPug(w) && Off(w) == off
  {
    off / 4 + 0x8000_0000
  }

  function ToPom(off: nat): (w: nat)
    requires off < LOOM && off % 4 == 0
    ensures IsPom(w) && Off(w) == off
  {
    off / 4 + 0xC000_0000
  }
}
