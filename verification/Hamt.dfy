/** The hash table's tries: slots, their bitmapped nodes and bottom buckets, and
    the functions that read, add and delete. The hash of a noun is a parameter. */
module Hamt {
  import opened Nouns
  import opened Bits

  type Hash = h: nat | h < 0x8000_0000

  datatype Kev = Kev(key: Noun, val: Noun)

  /** A key-value pair with its fresh bit. */
  datatype Line = Line(kev: Kev, warm: bool)

  datatype Slot = Null | Leaf(line: Line) | Node(bits: nat, sots: seq<Slot>) | Buck(row: seq<Line>)

  /** A hash shifted right by five bits, `d` times over. */
  function Frag(h: nat, d: nat): nat {
    if d == 0 then h else Frag(h / 32, d - 1)
  }

  /** The low `5 * d` bits of a hash. */
  function Rest(h: nat, d: nat): nat {
    if d == 0 then 0 else h % 32 + 32 * Rest(h / 32, d - 1)
  }

  /** One level down: five more bits of the hash. */
  lemma {:induction false} FragStep(h: nat, d: nat)
    requires d > 0
    ensures Frag(Rest(h, d), d - 1) < 32 && Frag(h, d - 1) == 32 * Frag(h, d) + Frag(Rest(h, d), d - 1)
    ensures Rest(Rest(h, d), d - 1) == Rest(h, d - 1)
  {
    if d > 1 {
      FragStep(h / 32, d - 1);
    }
  }

  /** Where the slot of a bit is: how many lower bits are set. */
  function Inx(bits: nat, bit: nat): nat {
    Pc(Low(bits, bit))
  }

  function Kid(slot: Slot, bit: nat): Slot
    requires slot.Node?
  {
    if Inx(slot.bits, bit) < |slot.sots| then slot.sots[Inx(slot.bits, bit)] else Null
  }

  predicate WfNode(slot: Slot) {
    slot.Node? && slot.bits < WORD && |slot.sots| == Pc(slot.bits)
  }

  predicate Distinct(row: seq<Line>) {
    forall i, j :: 0 <= i < j < |row| ==> row[i].kev.key != row[j].kev.key
  }

  /** Everything under a slot at depth `d` has a hash that starts with `hi`. */
  predicate Wf(mug: Noun -> Hash, slot: Slot, d: nat, hi: nat)
    decreases d
  {
    match slot
    case Null => false
    case Leaf(line) => Frag(mug(line.kev.key), d) == hi
    case Buck(row) => d == 0 && Distinct(row) && forall i :: 0 <= i < |row| ==> mug(row[i].kev.key) == hi
    case Node(bits, _) => d > 0 && WfNode(slot) && forall b :: 0 <= b < 32 && Bit(bits, b) ==>
        Wf(mug, Kid(slot, b), d - 1, 32 * hi + b)
  }

  /* ---- the functions ---- */

  function FindRow(row: seq<Line>, key: Noun): Option<Line> {
    if row == [] then None
    else if row[0].kev.key == key then Some(row[0])
    else FindRow(row[1..], key)
  }

  /** Look a key up. */
  function Find(slot: Slot, key: Noun, d: nat, rem: nat): Option<Line>
    decreases d
  {
    match slot
    case Null => None
    case Leaf(line) => if line.kev.key == key then Some(line) else None
    case Buck(row) => FindRow(row, key)
    case Node(bits, _) =>
      if d == 0 || !Bit(bits, Frag(rem, d - 1)) then None
      else Find(Kid(slot, Frag(rem, d - 1)), key, d - 1, Rest(rem, d - 1))
  }

  /** A node, or at the bottom a bucket, with two lines under it. */
  function Two(had: Line, add: Line, d: nat, ham: nat, mad: nat): Slot
    decreases d
  {
    if d == 0 then Buck([had, add])
    else
      var hop, tad := Frag(ham, d - 1), Frag(mad, d - 1);
      if hop == tad then Node(SetBit(0, hop), [Two(had, add, d - 1, Rest(ham, d - 1), Rest(mad, d - 1))])
      else Node(SetBit(SetBit(0, hop), tad), if hop < tad then [Leaf(had), Leaf(add)] else [Leaf(add), Leaf(had)])
  }

  function ReplaceRow(row: seq<Line>, line: Line): Option<seq<Line>> {
    if row == [] then None
    else if row[0].kev.key == line.kev.key then Some([line] + row[1..])
    else match ReplaceRow(row[1..], line)
      case Some(rest) => Some([row[0]] + rest)
      case None => None
  }

  /** Store a line in a slot that is not null; whether the key is new. */
  function Put(mug: Noun -> Hash, slot: Slot, line: Line, d: nat, rem: nat): (Slot, bool)
    decreases d
  {
    match slot
    case Null => (Leaf(line), true)
    case Leaf(had) =>
      if had.kev.key == line.kev.key then (Leaf(line), false)
      else (Two(had, line, d, Rest(mug(had.kev.key), d), rem), true)
    case Buck(row) =>
      (match ReplaceRow(row, line)
       case Some(now) => (Buck(now), false)
       case None => (Buck([line] + row), true))
    case Node(bits, sots) =>
      if d == 0 then (slot, false)
      else
        var bit, i := Frag(rem, d - 1), Inx(bits, Frag(rem, d - 1));
        if i > |sots| then (slot, false)
        else if Bit(bits, bit) && i < |sots| then
          var (kid, newer) := Put(mug, sots[i], line, d - 1, Rest(rem, d - 1));
          (Node(bits, sots[i := kid]), newer)
        else (Node(SetBit(bits, bit), sots[..i] + [Leaf(line)] + sots[i..]), true)
  }

  function DropRow(row: seq<Line>, key: Noun): Option<seq<Line>> {
    if row == [] then None
    else if row[0].kev.key == key then Some(row[1..])
    else match DropRow(row[1..], key)
      case Some(rest) => Some([row[0]] + rest)
      case None => None
  }

  /** A node whose slot `i` has become empty: the other side alone, if there are
      two sides and the other is an entry; otherwise the node without the bit. */
  function Shrink(slot: Slot, bit: nat): Slot
    requires slot.Node? && Inx(slot.bits, bit) < |slot.sots|
  {
    var i := Inx(slot.bits, bit);
    var ken := if i == 0 then 1 else 0;
    if |slot.sots| == 2 && slot.sots[ken].Leaf? then slot.sots[ken]
    else Node(ClearBit(slot.bits, bit), slot.sots[..i] + slot.sots[i + 1..])
  }

  /** Delete the entry on a key's path: an entry outside a bucket is not compared
      with the key. Whether something was deleted. */
  function Del(slot: Slot, key: Noun, d: nat, rem: nat): (Slot, bool)
    decreases d
  {
    match slot
    case Null => (slot, false)
    case Leaf(_) => (Null, true)
    case Buck(row) =>
      (match DropRow(row, key)
       case Some(now) => (Buck(now), true)
       case None => (slot, false))
    case Node(bits, sots) =>
      if d == 0 || !Bit(bits, Frag(rem, d - 1)) || Inx(bits, Frag(rem, d - 1)) >= |sots| then (slot, false)
      else
        var bit, i := Frag(rem, d - 1), Inx(bits, Frag(rem, d - 1));
        var (kid, gone) := Del(sots[i], key, d - 1, Rest(rem, d - 1));
        if !gone then (slot, false)
        else if kid != Null then (Node(bits, sots[i := kid]), true)
        else (Shrink(slot, bit), true)
  }

  /** The key that a deletion takes out. */
  function Victim(slot: Slot, key: Noun, d: nat, rem: nat): Option<Noun>
    decreases d
  {
    match slot
    case Null => None
    case Leaf(line) => Some(line.kev.key)
    case Buck(row) => if FindRow(row, key).Some? then Some(key) else None
    case Node(bits, _) =>
      if d == 0 || !Bit(bits, Frag(rem, d - 1)) then None
      else Victim(Kid(slot, Frag(rem, d - 1)), key, d - 1, Rest(rem, d - 1))
  }

  /* ---- bitmaps and slot arrays ---- */

  lemma InxIs(bits: nat, bit: nat)
    ensures Inx(bits, bit) == CountBits(bits, bit)
  {
    PcLow(bits, bit);
  }

  lemma PcIs(bits: nat)
    requires bits < WORD
    ensures Pc(bits) == CountBits(bits, 32)
  {
    PowerWord();
    PcAll(bits, 32);
  }

  lemma KidThere(slot: Slot, b: nat)
    requires WfNode(slot) && b < 32
    ensures Inx(slot.bits, b) <= |slot.sots|
    ensures Bit(slot.bits, b) ==> Inx(slot.bits, b) < |slot.sots| && Kid(slot, b) == slot.sots[Inx(slot.bits, b)]
  {
    InxIs(slot.bits, b);
    PcIs(slot.bits);
    CountMono(slot.bits, b, 32);
  }

  lemma KidsApart(bits: nat, b: nat, c: nat)
    requires Bit(bits, b) && Bit(bits, c) && b != c
    ensures Inx(bits, b) != Inx(bits, c)
  {
    InxIs(bits, b);
    InxIs(bits, c);
    CountMono(bits, if b < c then b else c, if b < c then c else b);
  }

  /** Replacing one slot leaves the others. */
  lemma KidReplace(slot: Slot, b: nat, kid: Slot, c: nat)
    requires WfNode(slot) && b < 32 && c < 32 && Bit(slot.bits, b) && Bit(slot.bits, c)
    ensures Inx(slot.bits, b) < |slot.sots|
    ensures var next := Node(slot.bits, slot.sots[Inx(slot.bits, b) := kid]);
            WfNode(next) && Kid(next, c) == if c == b then kid else Kid(slot, c)
  {
    KidThere(slot, b);
    KidThere(slot, c);
    if b != c {
      KidsApart(slot.bits, b, c);
    }
  }

  /** Inserting a slot with its bit leaves the others. */
  lemma KidInsert(slot: Slot, b: nat, kid: Slot, c: nat)
    requires WfNode(slot) && b < 32 && c < 32 && !Bit(slot.bits, b)
    ensures Inx(slot.bits, b) <= |slot.sots|
    ensures var i := Inx(slot.bits, b); var next := Node(SetBit(slot.bits, b), slot.sots[..i] + [kid] + slot.sots[i..]);
            && WfNode(next) && (Bit(next.bits, c) <==> c == b || Bit(slot.bits, c))
            && (c == b ==> Kid(next, c) == kid) && (c != b && Bit(slot.bits, c) ==> Kid(next, c) == Kid(slot, c))
  {
    hide Bit, Pc, Low, CountBits, SetBit;
    var bits, i := slot.bits, Inx(slot.bits, b);
    var now := SetBit(bits, b);
    forall j: nat
      ensures Bit(now, j) <==> j == b || Bit(bits, j)
    {
      SetBitAt(bits, b, j);
    }
    PowerWord();
    SetBitSmall(bits, b, 32);
    KidThere(slot, b);
    KidThere(slot, c);
    PcIs(bits);
    PcIs(now);
    CountDiffer(bits, now, b, 32);
    CountDiffer(bits, now, b, c);
    InxIs(bits, b);
    InxIs(bits, c);
    InxIs(now, c);
    CountMono(bits, if b < c then b else c, if b < c then c else b);
  }

  /** Removing a slot with its bit leaves the others. */
  lemma KidRemove(slot: Slot, b: nat, c: nat)
    requires WfNode(slot) && b < 32 && c < 32 && Bit(slot.bits, b)
    ensures Inx(slot.bits, b) < |slot.sots|
    ensures var i := Inx(slot.bits, b); var next := Node(ClearBit(slot.bits, b), slot.sots[..i] + slot.sots[i + 1..]);
            && WfNode(next) && (Bit(next.bits, c) <==> c != b && Bit(slot.bits, c))
            && (c != b && Bit(slot.bits, c) ==> Kid(next, c) == Kid(slot, c))
  {
    hide Bit, Pc, Low, CountBits, ClearBit;
    var bits, i := slot.bits, Inx(slot.bits, b);
    var now := ClearBit(bits, b);
    forall j: nat
      ensures Bit(now, j) <==> j != b && Bit(bits, j)
    {
      ClearBitAt(bits, b, j);
    }
    ClearBitAt(bits, b, b);
    KidThere(slot, b);
    KidThere(slot, c);
    PcIs(bits);
    PcIs(now);
    CountDiffer(now, bits, b, 32);
    CountDiffer(now, bits, b, c);
    InxIs(bits, b);
    InxIs(bits, c);
    InxIs(now, c);
    CountMono(bits, if b < c then b else c, if b < c then c else b);
  }

  /* ---- what the functions do ---- */

  /** The kid on a hash's path. */
  lemma PathKid(mug: Noun -> Hash, slot: Slot, d: nat, hi: nat, h: nat) returns (bit: nat)
    requires slot.Node? && Wf(mug, slot, d, hi) && Frag(h, d) == hi
    ensures d > 0 && WfNode(slot) && bit == Frag(Rest(h, d), d - 1) < 32 && Frag(h, d - 1) == 32 * hi + bit
    ensures Rest(Rest(h, d), d - 1) == Rest(h, d - 1)
    ensures Bit(slot.bits, bit) ==> Wf(mug, Kid(slot, bit), d - 1, 32 * hi + bit)
    ensures Bit(slot.bits, bit) ==>
        Inx(slot.bits, bit) < |slot.sots| && Kid(slot, bit) == slot.sots[Inx(slot.bits, bit)]
    ensures Inx(slot.bits, bit) <= |slot.sots|
  {
    bit := Frag(Rest(h, d), d - 1);
    FragStep(h, d);
    KidThere(slot, bit);
  }

  /** Look up by hash. */
  function Get(mug: Noun -> Hash, slot: Slot, key: Noun, d: nat): Option<Line> {
    Find(slot, key, d, Rest(mug(key), d))
  }

  lemma GetNode(mug: Noun -> Hash, slot: Slot, d: nat, hi: nat, key: Noun)
    requires slot.Node? && Wf(mug, slot, d, hi) && Frag(mug(key), d) == hi
    ensures d > 0
    ensures var bit := Frag(Rest(mug(key), d), d - 1);
            bit < 32 && Get(mug, slot, key, d) == if Bit(slot.bits, bit) then Get(mug, Kid(slot, bit), key, d - 1)
                else None
  {
    var bit := PathKid(mug, slot, d, hi, mug(key));
  }

  lemma {:induction false} FindRowIs(row: seq<Line>, key: Noun)
    ensures FindRow(row, key).Some? ==> FindRow(row, key).value in row && FindRow(row, key).value.kev.key == key
    ensures FindRow(row, key).None? ==> forall i :: 0 <= i < |row| ==> row[i].kev.key != key
  {
    if row != [] && row[0].kev.key != key {
      FindRowIs(row[1..], key);
      assert forall i :: 1 <= i < |row| ==> row[i] == row[1..][i - 1];
    }
  }

  lemma {:induction false} ReplaceRowIs(row: seq<Line>, line: Line)
    ensures ReplaceRow(row, line).Some? <==> FindRow(row, line.kev.key).Some?
    ensures ReplaceRow(row, line).Some? ==>
              && |ReplaceRow(row, line).value| == |row|
              && (forall i :: 0 <= i < |row| ==> ReplaceRow(row, line).value[i].kev.key == row[i].kev.key)
              && (forall k ::
                  FindRow(ReplaceRow(row, line).value, k) == if k == line.kev.key then Some(line) else FindRow(row, k))
  {
    if row != [] && row[0].kev.key != line.kev.key {
      ReplaceRowIs(row[1..], line);
      assert forall i :: 1 <= i < |row| ==> row[i] == row[1..][i - 1];
    }
  }

  lemma {:induction false} DropRowIs(row: seq<Line>, key: Noun)
    requires Distinct(row)
    ensures DropRow(row, key).Some? <==> FindRow(row, key).Some?
    ensures DropRow(row, key).Some? ==>
              && Distinct(DropRow(row, key).value)
              && (forall i :: 0 <= i < |DropRow(row, key).value| ==> DropRow(row, key).value[i] in row)
              && (forall k :: FindRow(DropRow(row, key).value, k) == if k == key then None else FindRow(row, k))
  {
    if row != [] {
      FindRowIs(row[1..], key);
      if row[0].kev.key != key {
        DropRowIs(row[1..], key);
      } else {
        FindRowIs(row[1..], row[0].kev.key);
      }
    }
  }

  lemma OneKid(hop: nat, kid: Slot, c: nat)
    requires hop < 32 && c < 32
    ensures var s := Node(SetBit(0, hop), [kid]);
            WfNode(s) && (Bit(s.bits, c) <==> c == hop) && (c == hop ==> Kid(s, c) == kid)
  {
    ZeroBit(hop);
    ZeroBit(c);
    var none := Node(0, []);
    assert WfNode(none);
    KidInsert(none, hop, kid, c);
    assert none.sots[..0] + [kid] + none.sots[0..] == [kid];
  }

  lemma TwoKids(hop: nat, x: Slot, tad: nat, y: Slot, c: nat)
    requires hop < 32 && tad < 32 && hop != tad && c < 32
    ensures var s := Node(SetBit(SetBit(0, hop), tad), if hop < tad then [x, y] else [y, x]);
            WfNode(s) && (Bit(s.bits, c) <==> c == hop || c == tad) && (c == hop ==> Kid(s, c) == x)
                && (c == tad ==> Kid(s, c) == y)
  {
    OneKid(hop, x, c);
    OneKid(hop, x, hop);
    OneKid(hop, x, tad);
    var one := Node(SetBit(0, hop), [x]);
    KidInsert(one, tad, y, c);
    var i := Inx(one.bits, tad);
    InxIs(one.bits, tad);
    ZeroBit(hop);
    forall j: nat
      ensures Bit(one.bits, j) <==> j == hop || Bit(0, j)
    {
      SetBitAt(0, hop, j);
    }
    CountDiffer(0, one.bits, hop, tad);
    CountZero(tad);
    assert one.sots[..i] + [y] + one.sots[i..] == if hop < tad then [x, y] else [y, x];
  }

  lemma {:induction false} CountZero(b: nat)
    ensures CountBits(0, b) == 0
  {
    if b > 0 {
      CountZero(b - 1);
      ZeroBit(b - 1);
    }
  }

  /** Two lines of different keys under one slot are well placed. */
  lemma {:induction false} TwoWf(mug: Noun -> Hash, had: Line, add: Line, d: nat, hi: nat)
    requires had.kev.key != add.kev.key && Frag(mug(had.kev.key), d) == hi == Frag(mug(add.kev.key), d)
    ensures Wf(mug, Two(had, add, d, Rest(mug(had.kev.key), d), Rest(mug(add.kev.key), d)), d, hi)
    decreases d
  {
    hide Bit, Pc, SetBit, Inx, Frag, Rest;
    var h, a := mug(had.kev.key), mug(add.kev.key);
    if d == 0 {
      FragZero(h);
      FragZero(a);
    } else {
      FragStep(h, d);
      FragStep(a, d);
      var hop, tad := Frag(Rest(h, d), d - 1), Frag(Rest(a, d), d - 1);
      if hop == tad {
        TwoWf(mug, had, add, d - 1, 32 * hi + hop);
        var kid := Two(had, add, d - 1, Rest(h, d - 1), Rest(a, d - 1));
        var s := Node(SetBit(0, hop), [kid]);
        forall c: nat | c < 32 && Bit(s.bits, c)
          ensures Wf(mug, Kid(s, c), d - 1, 32 * hi + c)
        {
          OneKid(hop, kid, c);
        }
        OneKid(hop, kid, hop);
      } else {
        var s := Two(had, add, d, Rest(h, d), Rest(a, d));
        TwoKids(hop, Leaf(had), tad, Leaf(add), hop);
        forall c: nat | c < 32 && Bit(s.bits, c)
          ensures Wf(mug, Kid(s, c), d - 1, 32 * hi + c)
        {
          TwoKids(hop, Leaf(had), tad, Leaf(add), c);
        }
      }
    }
  }

  lemma FragZero(h: nat)
    ensures Frag(h, 0) == h
  {
  }

  /** They are both found, and nothing else is. */
  lemma {:induction false} TwoGet(mug: Noun -> Hash, had: Line, add: Line, d: nat, hi: nat, k: Noun)
    requires had.kev.key != add.kev.key
        && Frag(mug(had.kev.key), d) == hi == Frag(mug(add.kev.key), d) == Frag(mug(k), d)
    ensures Get(mug, Two(had, add, d, Rest(mug(had.kev.key), d), Rest(mug(add.kev.key), d)), k, d)
            == if k == had.kev.key then Some(had) else if k == add.kev.key then Some(add) else None
    decreases d
  {
    hide Bit, Pc, SetBit, Inx, Frag, Rest;
    var h, a := mug(had.kev.key), mug(add.kev.key);
    if d > 0 {
      FragStep(h, d);
      FragStep(a, d);
      FragStep(mug(k), d);
      var hop, tad, c := Frag(Rest(h, d), d - 1), Frag(Rest(a, d), d - 1), Frag(Rest(mug(k), d), d - 1);
      if hop == tad {
        OneKid(hop, Two(had, add, d - 1, Rest(h, d - 1), Rest(a, d - 1)), c);
        if c == hop {
          TwoGet(mug, had, add, d - 1, 32 * hi + hop, k);
        }
      } else {
        TwoKids(hop, Leaf(had), tad, Leaf(add), c);
        var s := Two(had, add, d, Rest(h, d), Rest(a, d));
        assert s == Node(SetBit(SetBit(0, hop), tad), if hop < tad then [Leaf(had), Leaf(add)]
            else [Leaf(add), Leaf(had)]);
        assert Get(mug, s, k, d) == if Bit(s.bits, c) then Find(Kid(s, c), k, d - 1, Rest(Rest(mug(k), d), d - 1))
            else None;
      }
    } else {
      assert [had, add][1..] == [add] && [add][1..] == [];
      assert FindRow([add], k) == if add.kev.key == k then Some(add) else None;
    }
  }
}
