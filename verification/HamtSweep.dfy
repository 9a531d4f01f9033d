/** What one step of the clock does, said of the entries alone: how far it looks, what
    it cools or takes out there, and where it leaves the arm. */
module HamtSweep {
  import opened Nouns
  import opened Bits
  import opened Hamt
  import opened HamtOps
  import opened HamtTrim

  /** Where a step ends: at a prefix of the arm's hash under which there is nothing, or
      one entry; or in the bucket of the arm's hash, at an index. */
  datatype End = Bare(e: nat) | Lone(e: nat, line: Line) | Row(row: seq<Line>, i: nat) {
    function Depth(): nat {
      match this
      case Bare(e) => e
      case Lone(e, _) => e
      case Row(_, _) => 0
    }
  }

  /** What becomes of the line at `p` when a bucket is scanned from `i` to `j`. */
  function After(line: Line, p: nat, i: nat, j: nat): Option<Line> {
    if p < i || p > j then Some(line) else if p < j then Some(line.(warm := false)) else None
  }

  /** A prefix with no entry is passed. One entry is cooled if warm and taken out if
      cold, and passed. In a bucket the warm entries from the arm's index on are cooled,
      and the first cold one is taken out: the arm stays at the hash, past that index,
      or at the start again if one entry is left. A bucket with no cold entry from there
      on is passed. */
  ghost predicate Steps(mug: Noun -> Hash, was: Noun -> Option<Line>, now: Noun -> Option<Line>, arm: Arm, next: Arm,
        ret: Trim, end: End) {
    match end
    case Bare(e) =>
      && next == Arm(Skip(arm.mug, e), arm.inx) && !ret.Gone?
      && (forall k :: Frag(mug(k), e) == Frag(arm.mug, e) ==> was(k) == None)
      && (forall k :: now(k) == was(k))
    case Lone(e, line) =>
      && next == Arm(Skip(arm.mug, e), arm.inx) && ret == (if line.warm then Nothing else Gone(line.kev))
      && Frag(mug(line.kev.key), e) == Frag(arm.mug, e)
      && (forall k :: Frag(mug(k), e) == Frag(arm.mug, e) ==>
          was(k) == if k == line.kev.key then Some(line) else None)
      && (forall k :: now(k) == if k != line.kev.key then was(k)
          else if line.warm then Some(line.(warm := false)) else None)
    case Row(row, i) =>
      && Distinct(row) && (forall k :: mug(k) == arm.mug ==> was(k) == FindRow(row, k))
      && (forall p :: arm.inx <= p < i && p < |row| ==> row[p].warm)
      && (forall p :: 0 <= p < |row| ==>
          mug(row[p].kev.key) == arm.mug && now(row[p].kev.key) == After(row[p], p, arm.inx, i))
      && (forall k :: mug(k) != arm.mug || FindRow(row, k) == None ==> now(k) == was(k))
      && if i < |row|
        then arm.inx <= i && !row[i].warm && ret == Gone(row[i].kev)
             && next == Arm(arm.mug, if |row| == 2 then 0 else i + 1)
        else ret == Nothing && next == Arm((arm.mug + 1) % HASHES, 0)
  }

  /** What is found under a slot. */
  ghost function Under(mug: Noun -> Hash, slot: Slot, d: nat, hi: nat): Noun -> Option<Line> {
    (k: Noun) => if Frag(mug(k), d) == hi then Get(mug, slot, k, d) else None
  }

  /** A bucket's scan, index by index. */
  lemma {:induction false} TrimRowAt(row: seq<Line>, i: nat)
    requires Distinct(row)
    ensures var (now, j, ret) := TrimRow(row, i);
            && i <= j && (forall p :: i <= p < j && p < |row| ==> row[p].warm)
            && (if j < |row| then !row[j].warm && ret == Gone(row[j].kev) else ret == Nothing)
            && forall p :: 0 <= p < |row| ==> FindRow(now, row[p].kev.key) == After(row[p], p, i, j)
    decreases |row| - i
  {
    if i < |row| && row[i].warm {
      var cool := row[i].(warm := false);
      var mid := row[i := cool];
      FindRowChange(row, i, cool, cool.kev.key);
      TrimRowAt(mid, i + 1);
      var (now, j, ret) := TrimRow(mid, i + 1);
      assert TrimRow(row, i) == (now, j, ret);
      hide TrimRow, FindRow;
      forall p | 0 <= p < |row|
        ensures FindRow(now, row[p].kev.key) == After(row[p], p, i, j) && (i <= p < j ==> row[p].warm)
      {
        assert mid[p] == if p == i then cool else row[p];
      }
      assert j < |row| ==> mid[j] == row[j];
    } else {
      forall p | 0 <= p < |row|
        ensures FindRow(row, row[p].kev.key) == Some(row[p])
        ensures i < |row| ==> FindRow(row[..i] + row[i + 1..], row[p].kev.key) == After(row[p], p, i, i)
      {
        FindRowAt(row, p);
        if i < |row| {
          FindRowDrop(row, i, row[p].kev.key);
        }
      }
    }
  }

  lemma NoneKept(row: seq<Line>, i: nat, k: Noun)
    requires Distinct(row)
    ensures FindRow(row, k) == None ==> FindRow(TrimRow(row, i).0, k) == None
  {
    TrimRowIs(row, i, k);
    hide TrimRow, FindRow, Distinct;
  }

  lemma OneFound(row: seq<Line>, k: Noun)
    requires |row| == 1
    ensures FindRow(row, k) == if row[0].kev.key == k then Some(row[0]) else None
  {
    assert FindRow(row[1..], k) == None;
  }

  lemma BuckFinds(mug: Noun -> Hash, row: seq<Line>, arm: Arm, k: Noun)
    requires Distinct(row)
    ensures Get(mug, Buck(row), k, 0) == FindRow(row, k)
    ensures Get(mug, TrimBuck(row, arm).0, k, 0) == FindRow(TrimRow(row, arm.inx).0, k)
    ensures FindRow(row, k) == None ==> FindRow(TrimRow(row, arm.inx).0, k) == None
  {
    hide TrimRow, FindRow, Distinct;
    NoneKept(row, arm.inx, k);
    if |TrimRow(row, arm.inx).0| == 1 {
      OneFound(TrimRow(row, arm.inx).0, k);
    }
  }

  lemma BuckHash(mug: Noun -> Hash, row: seq<Line>, hi: nat)
    requires Wf(mug, Buck(row), 0, hi)
    ensures Distinct(row) && forall p :: 0 <= p < |row| ==> mug(row[p].kev.key) == hi
  {
  }

  lemma BuckSteps(mug: Noun -> Hash, row: seq<Line>, hi: nat, arm: Arm)
    requires Wf(mug, Buck(row), 0, hi) && arm.mug == hi
    ensures var (now, next, ret) := TrimBuck(row, arm);
            Steps(mug, Under(mug, Buck(row), 0, hi), Under(mug, now, 0, hi), arm, next, ret,
                Row(row, TrimRow(row, arm.inx).1))
  {
    hide TrimRow, FindRow, Get, Frag, Wf, After, Distinct;
    BuckHash(mug, row, hi);
    TrimRowAt(row, arm.inx);
    TrimRowIs(row, arm.inx, Atom(0));
    forall k
      ensures Get(mug, Buck(row), k, 0) == FindRow(row, k)
      ensures Get(mug, TrimBuck(row, arm).0, k, 0) == FindRow(TrimRow(row, arm.inx).0, k)
      ensures FindRow(row, k) == None ==> FindRow(TrimRow(row, arm.inx).0, k) == None
      ensures Frag(mug(k), 0) == mug(k)
    {
      BuckFinds(mug, row, arm, k);
      FragZero(mug(k));
    }
  }

  /** What holds under one prefix, and nothing changes elsewhere, holds of all. */
  lemma StepsUp(mug: Noun -> Hash, was: Noun -> Option<Line>, now: Noun -> Option<Line>, wide: Noun -> Option<Line>,
        after: Noun -> Option<Line>, d: nat, arm: Arm, next: Arm, ret: Trim, end: End)
    requires Steps(mug, was, now, arm, next, ret, end) && end.Depth() <= d
    requires forall k :: Frag(mug(k), d) == Frag(arm.mug, d) ==> wide(k) == was(k) && after(k) == now(k)
    requires forall k :: Frag(mug(k), d) != Frag(arm.mug, d) ==> wide(k) == after(k)
    ensures Steps(mug, wide, after, arm, next, ret, end)
  {
    hide Frag, FindRow, Distinct, Skip;
    FragZero(arm.mug);
    forall k
      ensures Frag(mug(k), end.Depth()) == Frag(arm.mug, end.Depth()) ==> Frag(mug(k), d) == Frag(arm.mug, d)
      ensures Frag(mug(k), 0) == mug(k)
    {
      FragZero(mug(k));
      if Frag(mug(k), d) != Frag(arm.mug, d) {
        PrefixApart(mug(k), arm.mug, end.Depth(), d);
      }
    }
  }

  /** Every step under a slot is as said. */
  lemma {:induction false} TrimSteps(mug: Noun -> Hash, slot: Slot, d: nat, hi: nat, arm: Arm) returns (end: End)
    requires Wf(mug, slot, d, hi) && Frag(arm.mug, d) == hi
    ensures end.Depth() <= d
    ensures var (now, next, ret) := TrimSlot(slot, d, Rest(arm.mug, d), arm);
            Steps(mug, Under(mug, slot, d, hi), Under(mug, now, d, hi), arm, next, ret, end)
    decreases d, 1
  {
    hide Bit, Frag, Rest, Settle, Skip, TrimRow, FindRow, TrimBuck;
    match slot {
      case Leaf(line) =>
        end := Lone(d, line);
      case Buck(row) =>
        FragZero(arm.mug);
        BuckSteps(mug, row, hi, arm);
        end := Row(row, TrimRow(row, arm.inx).1);
      case Node(_, _) =>
        end := NodeSteps(mug, slot, d, hi, arm);
    }
  }

  lemma NodeSteps(mug: Noun -> Hash, slot: Slot, d: nat, hi: nat, arm: Arm) returns (end: End)
    requires slot.Node? && Wf(mug, slot, d, hi) && Frag(arm.mug, d) == hi
    ensures end.Depth() <= d
    ensures var (now, next, ret) := TrimSlot(slot, d, Rest(arm.mug, d), arm);
            Steps(mug, Under(mug, slot, d, hi), Under(mug, now, d, hi), arm, next, ret, end)
    decreases d, 0
  {
    hide Wf, Bit, Frag, Rest, Settle, Skip, TrimSlot, Get, Kid, Inx, FindRow;
    var bit := TrimNode(mug, slot, d, hi, arm);
    forall k | Frag(mug(k), d) == hi
      ensures Frag(mug(k), d - 1) == Frag(arm.mug, d - 1) <==> Frag(Rest(mug(k), d), d - 1) == bit
      ensures Frag(mug(k), d - 1) == Frag(arm.mug, d - 1) ==>
        Get(mug, slot, k, d) == if Bit(slot.bits, bit) then Get(mug, Kid(slot, bit), k, d - 1) else None
    {
      FragStep(mug(k), d);
      GetNode(mug, slot, d, hi, k);
    }
    forall k | Frag(mug(k), d) != hi
      ensures Frag(mug(k), d - 1) != Frag(arm.mug, d - 1)
    {
      PrefixApart(mug(k), arm.mug, d - 1, d);
    }
    if Bit(slot.bits, bit) {
      var kid := Kid(slot, bit);
      var (left, next, ret) := TrimSlot(kid, d - 1, Rest(arm.mug, d - 1), arm);
      end := TrimSteps(mug, kid, d - 1, 32 * hi + bit, arm);
      TrimIs(mug, kid, d - 1, 32 * hi + bit, arm, Atom(0));
      forall k | Frag(mug(k), d) == hi
        ensures Get(mug, Settle(slot, bit, left), k, d)
                == if Frag(Rest(mug(k), d), d - 1) == bit then Get(mug, left, k, d - 1) else Get(mug, slot, k, d)
      {
        SettleGet(mug, slot, d, hi, bit, left, k);
      }
      StepsUp(mug, Under(mug, kid, d - 1, 32 * hi + bit), Under(mug, left, d - 1, 32 * hi + bit),
              Under(mug, slot, d, hi), Under(mug, Settle(slot, bit, left), d, hi), d - 1, arm, next, ret, end);
    } else {
      end := Bare(d - 1);
    }
  }

  /** The arm's next hash is the first that does not share the prefix, or zero if
      there is none. */
  lemma SkipIs(h: nat, d: nat, t: nat)
    requires h <= t < HASHES && d <= 5
    ensures if Skip(h, d) == 0 then Frag(t, d) == Frag(h, d)
            else h < Skip(h, d) && (t < Skip(h, d) <==> Frag(t, d) == Frag(h, d))
  {
    hide Frag, Shl;
    ShlFrag(h, d);
    ShlFrag(t, d);
    ShlEnd(h, d);
    if Frag(t, d) < Frag(h, d) {
      ShlMono(Frag(t, d) + 1, Frag(h, d), d);
    } else if Frag(h, d) < Frag(t, d) {
      ShlMono(Frag(h, d) + 1, Frag(t, d), d);
    }
  }
}
