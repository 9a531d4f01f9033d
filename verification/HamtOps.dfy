/** Putting into and deleting from a slot, as changes to what is found there. */
module HamtOps {
  import opened Nouns
  import opened Bits
  import opened Hamt

  lemma {:induction false} PutWf(mug: Noun -> Hash, slot: Slot, line: Line, d: nat, hi: nat)
    requires Wf(mug, slot, d, hi) && Frag(mug(line.kev.key), d) == hi
    ensures var (now, newer) := Put(mug, slot, line, d, Rest(mug(line.kev.key), d));
            Wf(mug, now, d, hi) && (newer <==> Get(mug, slot, line.kev.key, d).None?)
    decreases d
  {
    hide Bit, SetBit, Pc, Low, Frag, Rest, Two;
    var h := mug(line.kev.key);
    match slot {
      case Leaf(had) =>
        if had.kev.key != line.kev.key {
          TwoWf(mug, had, line, d, hi);
        }
      case Buck(row) =>
        PutRowWf(mug, row, line, hi);
        FragZero(h);
      case Node(bits, sots) =>
        PutNodeWf(mug, slot, line, d, hi);
    }
  }

  lemma PutRowWf(mug: Noun -> Hash, row: seq<Line>, line: Line, hi: nat)
    requires Wf(mug, Buck(row), 0, hi) && Frag(mug(line.kev.key), 0) == hi
    ensures var (now, newer) := Put(mug, Buck(row), line, 0, Rest(mug(line.kev.key), 0));
            Wf(mug, now, 0, hi) && (newer <==> FindRow(row, line.kev.key).None?)
  {
    hide ReplaceRow, FindRow;
    FindRowIs(row, line.kev.key);
    ReplaceRowIs(row, line);
  }

  /** What putting into a node does: the kid on the path changes, or comes. */
  lemma PutNode(mug: Noun -> Hash, slot: Slot, line: Line, d: nat, hi: nat) returns (bit: nat)
    requires slot.Node? && Wf(mug, slot, d, hi) && Frag(mug(line.kev.key), d) == hi
    ensures d > 0 && bit == Frag(Rest(mug(line.kev.key), d), d - 1) < 32 && Inx(slot.bits, bit) <= |slot.sots|
    ensures Bit(slot.bits, bit) ==>
      && Inx(slot.bits, bit) < |slot.sots| && Wf(mug, Kid(slot, bit), d - 1, 32 * hi + bit)
      && Frag(mug(line.kev.key), d - 1) == 32 * hi + bit
      && (var (kid, newer) := Put(mug, Kid(slot, bit), line, d - 1, Rest(mug(line.kev.key), d - 1));
          Put(mug, slot, line, d,
              Rest(mug(line.kev.key), d)) == (Node(slot.bits, slot.sots[Inx(slot.bits, bit) := kid]), newer))
    ensures !Bit(slot.bits, bit) ==>
      && Put(mug, slot, line, d, Rest(mug(line.kev.key), d)) == (Added(slot, bit, Leaf(line)), true)
      && Frag(mug(line.kev.key), d - 1) == 32 * hi + bit
  {
    hide Bit, SetBit, Pc, Low, Frag, Rest, Kid, Inx, Wf;
    bit := PathKid(mug, slot, d, hi, mug(line.kev.key));
  }

  /** A node with one more slot. */
  function Added(slot: Slot, bit: nat, kid: Slot): Slot
    requires slot.Node? && Inx(slot.bits, bit) <= |slot.sots|
  {
    Node(SetBit(slot.bits, bit), slot.sots[..Inx(slot.bits, bit)] + [kid] + slot.sots[Inx(slot.bits, bit)..])
  }

  lemma AddedWf(mug: Noun -> Hash, slot: Slot, d: nat, hi: nat, bit: nat, kid: Slot)
    requires slot.Node? && Wf(mug, slot, d, hi) && bit < 32 && !Bit(slot.bits, bit)
        && Inx(slot.bits, bit) <= |slot.sots|
    requires Wf(mug, kid, d - 1, 32 * hi + bit)
    ensures Wf(mug, Added(slot, bit, kid), d, hi)
  {
    hide Bit, SetBit, Pc, Low, Inx, Kid;
    var now := Added(slot, bit, kid);
    KidInsert(slot, bit, kid, bit);
    forall c | 0 <= c < 32 && Bit(now.bits, c)
      ensures Wf(mug, Kid(now, c), d - 1, 32 * hi + c)
    {
      KidInsert(slot, bit, kid, c);
    }
  }

  lemma PutNodeWf(mug: Noun -> Hash, slot: Slot, line: Line, d: nat, hi: nat)
    requires slot.Node? && Wf(mug, slot, d, hi) && Frag(mug(line.kev.key), d) == hi
    ensures var (now, newer) := Put(mug, slot, line, d, Rest(mug(line.kev.key), d));
            Wf(mug, now, d, hi) && (newer <==> Get(mug, slot, line.kev.key, d).None?)
    decreases d, 0
  {
    hide *;
    var bit := PutNode(mug, slot, line, d, hi);
    GetNode(mug, slot, d, hi, line.kev.key);
    if Bit(slot.bits, bit) {
      var kid := Put(mug, Kid(slot, bit), line, d - 1, Rest(mug(line.kev.key), d - 1)).0;
      PutWf(mug, Kid(slot, bit), line, d - 1, 32 * hi + bit);
      ReplaceWf(mug, slot, d, hi, bit, kid);
    } else {
      LeafWf(mug, line, d - 1, 32 * hi + bit);
      AddedWf(mug, slot, d, hi, bit, Leaf(line));
    }
  }

  lemma LeafWf(mug: Noun -> Hash, line: Line, d: nat, hi: nat)
    requires Frag(mug(line.kev.key), d) == hi
    ensures Wf(mug, Leaf(line), d, hi)
  {
  }

  lemma ReplaceWf(mug: Noun -> Hash, slot: Slot, d: nat, hi: nat, bit: nat, kid: Slot)
    requires slot.Node? && Wf(mug, slot, d, hi) && bit < 32 && Bit(slot.bits, bit) && Inx(slot.bits, bit) < |slot.sots|
    requires Wf(mug, kid, d - 1, 32 * hi + bit)
    ensures Wf(mug, Node(slot.bits, slot.sots[Inx(slot.bits, bit) := kid]), d, hi)
  {
    hide Bit, Pc, Low, Inx, Kid;
    var now := Node(slot.bits, slot.sots[Inx(slot.bits, bit) := kid]);
    KidReplace(slot, bit, kid, bit);
    forall c | 0 <= c < 32 && Bit(now.bits, c)
      ensures Wf(mug, Kid(now, c), d - 1, 32 * hi + c)
    {
      KidReplace(slot, bit, kid, c);
    }
  }

  /** Putting changes what one key finds. */
  lemma {:induction false} PutGet(mug: Noun -> Hash, slot: Slot, line: Line, d: nat, hi: nat, k: Noun)
    requires Wf(mug, slot, d, hi) && Frag(mug(line.kev.key), d) == hi == Frag(mug(k), d)
    ensures Get(mug, Put(mug, slot, line, d, Rest(mug(line.kev.key), d)).0, k, d)
            == if k == line.kev.key then Some(line) else Get(mug, slot, k, d)
    decreases d, 1
  {
    hide Bit, SetBit, Pc, Low, Frag, Rest, Two;
    match slot {
      case Leaf(had) =>
        if had.kev.key != line.kev.key {
          TwoGet(mug, had, line, d, hi, k);
        }
      case Buck(row) =>
        ReplaceRowIs(row, line);
        FindRowIs(row, line.kev.key);
        assert ([line] + row)[1..] == row;
      case Node(bits, sots) =>
        PutNodeGet(mug, slot, line, d, hi, k);
    }
  }

  lemma PutNodeGet(mug: Noun -> Hash, slot: Slot, line: Line, d: nat, hi: nat, k: Noun)
    requires slot.Node? && Wf(mug, slot, d, hi) && Frag(mug(line.kev.key), d) == hi == Frag(mug(k), d)
    ensures Get(mug, Put(mug, slot, line, d, Rest(mug(line.kev.key), d)).0, k, d)
            == if k == line.kev.key then Some(line) else Get(mug, slot, k, d)
    decreases d, 0
  {
    hide Bit, SetBit, Pc, Low, Frag, Rest, Kid, Inx;
    var h := mug(line.kev.key);
    var bit := PathKid(mug, slot, d, hi, h);
    var c := PathKid(mug, slot, d, hi, mug(k));
    var now := Put(mug, slot, line, d, Rest(h, d)).0;
    PutNodeWf(mug, slot, line, d, hi);
    GetNode(mug, slot, d, hi, k);
    GetNode(mug, now, d, hi, k);
    if Bit(slot.bits, bit) {
      var kid := Put(mug, Kid(slot, bit), line, d - 1, Rest(h, d - 1)).0;
      if Bit(slot.bits, c) {
        KidReplace(slot, bit, kid, c);
      }
      if c == bit {
        PutGet(mug, Kid(slot, bit), line, d - 1, 32 * hi + bit, k);
      }
    } else {
      KidInsert(slot, bit, Leaf(line), c);
      LeafGet(mug, line, k, d - 1);
    }
  }

  lemma LeafGet(mug: Noun -> Hash, line: Line, k: Noun, d: nat)
    ensures Get(mug, Leaf(line), k, d) == if k == line.kev.key then Some(line) else None
  {
  }

  /** What a slot that may have become null looks up. */
  predicate WfOrNull(mug: Noun -> Hash, slot: Slot, d: nat, hi: nat) {
    slot == Null || Wf(mug, slot, d, hi)
  }

  /** Taking the place of a kid that is still there, or dropping it. */
  function Settle(slot: Slot, bit: nat, kid: Slot): Slot
    requires slot.Node? && Inx(slot.bits, bit) < |slot.sots|
  {
    if kid != Null then Node(slot.bits, slot.sots[Inx(slot.bits, bit) := kid]) else Shrink(slot, bit)
  }

  lemma SettleWf(mug: Noun -> Hash, slot: Slot, d: nat, hi: nat, bit: nat, kid: Slot)
    requires slot.Node? && Wf(mug, slot, d, hi) && bit < 32 && Bit(slot.bits, bit) && Inx(slot.bits, bit) < |slot.sots|
    requires WfOrNull(mug, kid, d - 1, 32 * hi + bit)
    ensures Wf(mug, Settle(slot, bit, kid), d, hi)
  {
    hide Bit, ClearBit, Pc, Low, Inx, Kid;
    var now := Settle(slot, bit, kid);
    if kid != Null {
      ReplaceWf(mug, slot, d, hi, bit, kid);
    } else if |slot.sots| == 2 && slot.sots[if Inx(slot.bits, bit) == 0 then 1 else 0].Leaf? {
      var c := OtherKid(slot, bit);
      LeafUp(mug, slot, d, hi, c);
    } else {
      KidRemove(slot, bit, bit);
      forall c | 0 <= c < 32 && Bit(now.bits, c)
        ensures Wf(mug, Kid(now, c), d - 1, 32 * hi + c)
      {
        KidRemove(slot, bit, c);
      }
    }
  }

  /** The bit of the other of two slots. */
  lemma OtherKid(slot: Slot, bit: nat) returns (c: nat)
    requires WfNode(slot) && |slot.sots| == 2 && bit < 32 && Bit(slot.bits, bit)
    ensures c < 32 && c != bit && Bit(slot.bits, c) && Inx(slot.bits, bit) < 2
    ensures Kid(slot, c) == slot.sots[if Inx(slot.bits, bit) == 0 then 1 else 0]
    ensures forall b :: 0 <= b < 32 && Bit(slot.bits, b) ==> b == bit || b == c
  {
    hide Bit, Pc, Low, CountBits;
    PcIs(slot.bits);
    KidThere(slot, bit);
    InxIs(slot.bits, bit);
    c := SelectBit(slot.bits, 32, if Inx(slot.bits, bit) == 0 then 1 else 0);
    InxIs(slot.bits, c);
    KidThere(slot, c);
    forall b | 0 <= b < 32 && Bit(slot.bits, b)
      ensures b == bit || b == c
    {
      KidThere(slot, b);
      if b != bit && b != c {
        KidsApart(slot.bits, b, bit);
        KidsApart(slot.bits, b, c);
      }
    }
  }

  lemma {:induction false} SelectBit(w: nat, n: nat, r: nat) returns (i: nat)
    requires r < CountBits(w, n)
    ensures i < n && Bit(w, i) && CountBits(w, i) == r
  {
    if CountBits(w, n - 1) > r {
      i := SelectBit(w, n - 1, r);
    } else {
      i := n - 1;
    }
  }

  /** An entry may stand a level higher. */
  lemma LeafUp(mug: Noun -> Hash, slot: Slot, d: nat, hi: nat, c: nat)
    requires slot.Node? && Wf(mug, slot, d, hi) && c < 32 && Bit(slot.bits, c) && Kid(slot, c).Leaf?
    ensures Wf(mug, Kid(slot, c), d, hi)
  {
    hide Bit, Kid;
    assert Wf(mug, Kid(slot, c), d - 1, 32 * hi + c);
    FragStep(mug(Kid(slot, c).line.kev.key), d);
  }

  /** What is found after a kid has changed: only keys on the kid's path can tell. */
  lemma SettleGet(mug: Noun -> Hash, slot: Slot, d: nat, hi: nat, bit: nat, kid: Slot, k: Noun)
    requires slot.Node? && Wf(mug, slot, d, hi) && bit < 32 && Bit(slot.bits, bit) && Inx(slot.bits, bit) < |slot.sots|
    requires WfOrNull(mug, kid, d - 1, 32 * hi + bit) && Frag(mug(k), d) == hi && d > 0
    ensures Get(mug, Settle(slot, bit, kid), k, d)
            == if Frag(Rest(mug(k), d), d - 1) == bit then Get(mug, kid, k, d - 1) else Get(mug, slot, k, d)
  {
    hide Bit, ClearBit, Pc, Low, Inx, Kid, Frag, Rest;
    var now := Settle(slot, bit, kid);
    var c := PathKid(mug, slot, d, hi, mug(k));
    SettleWf(mug, slot, d, hi, bit, kid);
    GetNode(mug, slot, d, hi, k);
    if kid != Null {
      KidReplace(slot, bit, kid, bit);
      GetNode(mug, now, d, hi, k);
      if Bit(slot.bits, c) {
        KidReplace(slot, bit, kid, c);
      }
    } else if |slot.sots| == 2 && slot.sots[if Inx(slot.bits, bit) == 0 then 1 else 0].Leaf? {
      var o := OtherKid(slot, bit);
      LeafGet(mug, now.line, k, d);
      LeafGet(mug, now.line, k, d - 1);
      assert Wf(mug, Kid(slot, o), d - 1, 32 * hi + o);
    } else {
      KidRemove(slot, bit, c);
      GetNode(mug, now, d, hi, k);
    }
  }

  /** What deleting from a node does: the kid on the path changes or goes. */
  lemma DelNode(mug: Noun -> Hash, slot: Slot, key: Noun, d: nat, hi: nat) returns (bit: nat)
    requires slot.Node? && Wf(mug, slot, d, hi) && Frag(mug(key), d) == hi
    ensures d > 0 && bit == Frag(Rest(mug(key), d), d - 1) < 32 && Frag(mug(key), d - 1) == 32 * hi + bit
    ensures Victim(slot, key, d, Rest(mug(key), d))
            == if Bit(slot.bits, bit) then Victim(Kid(slot, bit), key, d - 1, Rest(mug(key), d - 1)) else None
    ensures Bit(slot.bits, bit) ==> Inx(slot.bits, bit) < |slot.sots| && Wf(mug, Kid(slot, bit), d - 1, 32 * hi + bit)
    ensures Bit(slot.bits, bit) ==>
      var (kid, gone) := Del(Kid(slot, bit), key, d - 1, Rest(mug(key), d - 1));
      Del(slot, key, d, Rest(mug(key), d)) == (if gone then Settle(slot, bit, kid) else slot, gone)
    ensures !Bit(slot.bits, bit) ==> Del(slot, key, d, Rest(mug(key), d)) == (slot, false)
  {
    hide Bit, SetBit, Pc, Low, Frag, Rest, Kid, Inx, Wf, Shrink;
    bit := PathKid(mug, slot, d, hi, mug(key));
  }

  /** A deletion takes out its victim, and nothing else. */
  lemma {:induction false} DelIs(mug: Noun -> Hash, slot: Slot, key: Noun, d: nat, hi: nat, k: Noun)
    requires Wf(mug, slot, d, hi) && Frag(mug(key), d) == hi == Frag(mug(k), d)
    ensures var (now, gone) := Del(slot, key, d, Rest(mug(key), d)); var v := Victim(slot, key, d, Rest(mug(key), d));
            && WfOrNull(mug, now, d, hi) && (gone <==> v.Some?)
            && Get(mug, now, k, d) == if v == Some(k) then None else Get(mug, slot, k, d)
    decreases d
  {
    hide Bit, Pc, Low, Frag, Rest, Settle;
    match slot {
      case Leaf(had) =>
      case Buck(row) =>
        DropRowIs(row, key);
        FindRowIs(row, key);
        if DropRow(row, key).Some? {
          var now := DropRow(row, key).value;
          assert forall i :: 0 <= i < |now| ==> now[i] in row;
        }
      case Node(_, _) =>
        DelNodeIs(mug, slot, key, d, hi, k);
    }
  }

  lemma DelNodeIs(mug: Noun -> Hash, slot: Slot, key: Noun, d: nat, hi: nat, k: Noun)
    requires slot.Node? && Wf(mug, slot, d, hi) && Frag(mug(key), d) == hi == Frag(mug(k), d)
    ensures var (now, gone) := Del(slot, key, d, Rest(mug(key), d)); var v := Victim(slot, key, d, Rest(mug(key), d));
            && WfOrNull(mug, now, d, hi) && (gone <==> v.Some?)
            && Get(mug, now, k, d) == if v == Some(k) then None else Get(mug, slot, k, d)
    decreases d, 0
  {
    hide *;
    var bit := DelNode(mug, slot, key, d, hi);
    WfWfOrNull(mug, slot, d, hi);
    if Bit(slot.bits, bit) {
      var c := PathKid(mug, slot, d, hi, mug(k));
      DelIs(mug, Kid(slot, bit), key, d - 1, 32 * hi + bit, if c == bit then k else key);
      var kid := Del(Kid(slot, bit), key, d - 1, Rest(mug(key), d - 1)).0;
      GetNode(mug, slot, d, hi, k);
      SettleWf(mug, slot, d, hi, bit, kid);
      WfWfOrNull(mug, Settle(slot, bit, kid), d, hi);
      SettleGet(mug, slot, d, hi, bit, kid, k);
      VictimIs(mug, slot, key, d, hi);
    }
  }

  lemma WfWfOrNull(mug: Noun -> Hash, slot: Slot, d: nat, hi: nat)
    ensures Wf(mug, slot, d, hi) ==> WfOrNull(mug, slot, d, hi)
  {
  }

  /** The victim is stored, on the key's path; a key that is stored is its own. */
  lemma {:induction false} VictimIs(mug: Noun -> Hash, slot: Slot, key: Noun, d: nat, hi: nat)
    requires Wf(mug, slot, d, hi) && Frag(mug(key), d) == hi
    ensures var v := Victim(slot, key, d, Rest(mug(key), d));
            && (v.Some? ==> Frag(mug(v.value), d) == hi && Get(mug, slot, v.value, d).Some?)
            && (v.Some? && slot.Node? ==> Frag(Rest(mug(v.value), d), d - 1) == Frag(Rest(mug(key), d), d - 1))
            && (Get(mug, slot, key, d).Some? ==> v == Some(key))
    decreases d
  {
    hide Bit, Pc, Low, Frag, Rest, Settle, Del;
    if slot.Node? {
      var bit := DelNode(mug, slot, key, d, hi);
      GetNode(mug, slot, d, hi, key);
      if Bit(slot.bits, bit) {
        VictimIs(mug, Kid(slot, bit), key, d - 1, 32 * hi + bit);
        var v := Victim(slot, key, d, Rest(mug(key), d));
        if v.Some? {
          FragStep(mug(v.value), d);
          PrefixUp(mug(v.value), mug(key), d);
          GetNode(mug, slot, d, hi, v.value);
        }
      }
    } else if slot.Buck? {
      FindRowIs(slot.row, key);
    }
  }

  /** Hashes that agree down to one level agree at the level above. */
  lemma PrefixUp(a: nat, b: nat, d: nat)
    requires d > 0 && Frag(a, d - 1) == Frag(b, d - 1)
    ensures Frag(a, d) == Frag(b, d) && Frag(Rest(a, d), d - 1) == Frag(Rest(b, d), d - 1)
  {
    hide Frag, Rest;
    FragStep(a, d);
    FragStep(b, d);
  }
}
