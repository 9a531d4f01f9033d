/** Clock eviction: an arm sweeps the hashes in order, cools the warm entries it
    meets, and takes out the first cold one. */
module HamtTrim {
  import opened Nouns
  import opened Bits
  import opened Hamt
  import opened HamtOps

  const HASHES := 0x8000_0000

  /** The clock's arm: a hash, and an index into the bucket there. */
  datatype Arm = Arm(mug: nat, inx: nat)

  /** What one step of trimming yields. `Miss` is what the code returns where the
      arm's path leaves the table inside a node. */
  datatype Trim = Nothing | Miss | Gone(kev: Kev)

  function Shl(x: nat, d: nat): nat {
    if d == 0 then x else 32 * Shl(x, d - 1)
  }

  /** The first hash after those that share `h`'s prefix, around the clock. */
  function Skip(h: nat, d: nat): (next: nat)
    ensures next < HASHES
  {
    Shl(Frag(h, d) + 1, d) % HASHES
  }

  function TrimLine(line: Line): (Slot, Trim) {
    if line.warm then (Leaf(line.(warm := false)), Nothing) else (Null, Gone(line.kev))
  }

  /** The scan of a bucket from an index: the row it leaves, where it stops, and
      what it takes out. */
  function TrimRow(row: seq<Line>, i: nat): (seq<Line>, nat, Trim)
    decreases |row| - i
  {
    if i >= |row| then (row, i, Nothing)
    else if row[i].warm then TrimRow(row[i := row[i].(warm := false)], i + 1)
    else (row[..i] + row[i + 1..], i, Gone(row[i].kev))
  }

  function TrimBuck(row: seq<Line>, arm: Arm): (Slot, Arm, Trim) {
    var (now, i, ret) := TrimRow(row, arm.inx);
    if ret == Nothing then (Buck(now), Arm((arm.mug + 1) % HASHES, 0), Nothing)
    else if |now| == 1 then (Leaf(now[0]), Arm(arm.mug, 0), ret)
    else (Buck(now), Arm(arm.mug, i + 1), ret)
  }

  function TrimSlot(slot: Slot, d: nat, rem: nat, arm: Arm): (Slot, Arm, Trim)
    decreases d
  {
    match slot
    case Null => (slot, arm, Nothing)
    case Leaf(line) => var (now, ret) := TrimLine(line); (now, Arm(Skip(arm.mug, d), arm.inx), ret)
    case Buck(row) => TrimBuck(row, arm)
    case Node(bits, sots) =>
      if d == 0 then (slot, arm, Nothing)
      else
        var bit := Frag(rem, d - 1);
        if !Bit(bits, bit) || Inx(bits, bit) >= |sots| then (slot, Arm(Skip(arm.mug, d - 1), arm.inx), Miss)
        else
          var (kid, next, ret) := TrimSlot(sots[Inx(bits, bit)], d - 1, Rest(rem, d - 1), arm);
          (Settle(slot, bit, kid), next, ret)
  }

  /** The same entry, perhaps gone cold. */
  predicate Cooler(now: Option<Line>, was: Option<Line>) {
    match was
    case None => now == None
    case Some(l) => now.Some? && now.value.kev == l.kev && (now.value.warm ==> l.warm)
  }

  /** What is found after a step, against what was found before. */
  predicate Trimmed(now: Option<Line>, was: Option<Line>, ret: Trim, k: Noun) {
    if ret.Gone? && k == ret.kev.key then now == None && was == Some(Line(ret.kev, false)) else Cooler(now, was)
  }

  lemma {:induction false} FindRowAt(row: seq<Line>, i: nat)
    requires i < |row| && Distinct(row)
    ensures FindRow(row, row[i].kev.key) == Some(row[i])
  {
    if i > 0 {
      assert row[i] == row[1..][i - 1];
      FindRowAt(row[1..], i - 1);
    }
  }

  lemma {:induction false} FindRowChange(row: seq<Line>, i: nat, line: Line, k: Noun)
    requires i < |row| && Distinct(row) && line.kev == row[i].kev
    ensures Distinct(row[i := line])
    ensures FindRow(row[i := line], k) == if k == line.kev.key then Some(line) else FindRow(row, k)
  {
    if i > 0 {
      assert row[i := line][1..] == row[1..][i - 1 := line];
      assert row[i] == row[1..][i - 1];
      FindRowChange(row[1..], i - 1, line, k);
    }
  }

  lemma {:induction false} FindRowDrop(row: seq<Line>, i: nat, k: Noun)
    requires i < |row| && Distinct(row)
    ensures Distinct(row[..i] + row[i + 1..])
    ensures FindRow(row[..i] + row[i + 1..], k) == if k == row[i].kev.key then None else FindRow(row, k)
  {
    if i == 0 {
      assert row[..0] + row[1..] == row[1..];
      FindRowIs(row[1..], k);
    } else {
      var now := row[..i] + row[i + 1..];
      assert now[1..] == row[1..][..i - 1] + row[1..][i..];
      assert row[i] == row[1..][i - 1] && now[0] == row[0];
      FindRowDrop(row[1..], i - 1, k);
    }
  }

  /** A bucket's scan cools from the index on, and takes out the first cold entry. */
  lemma {:induction false} TrimRowIs(row: seq<Line>, i: nat, k: Noun)
    requires Distinct(row)
    ensures var (now, j, ret) := TrimRow(row, i);
            && Distinct(now) && ret != Miss && |now| == (if ret == Nothing then |row| else |row| - 1)
            && (forall l :: l in now ==> exists w :: w in row && w.kev == l.kev)
            && (ret.Gone? ==> FindRow(row, ret.kev.key) == Some(Line(ret.kev, false)))
            && Trimmed(FindRow(now, k), FindRow(row, k), ret, k)
    decreases |row| - i
  {
    if i < |row| {
      FindRowAt(row, i);
      if row[i].warm {
        var cool := row[i].(warm := false);
        var mid := row[i := cool];
        FindRowChange(row, i, cool, k);
        TrimRowIs(mid, i + 1, k);
        var (now, j, ret) := TrimRow(row, i);
        if ret.Gone? {
          TrimRowKeeps(mid, i + 1, i);
          FindRowChange(row, i, cool, ret.kev.key);
        }
        forall l | l in now
          ensures exists w :: w in row && w.kev == l.kev
        {
          var w :| w in mid && w.kev == l.kev;
          if w == cool {
            assert row[i] in row;
          }
        }
      } else {
        FindRowDrop(row, i, k);
      }
    }
  }

  /** The scan does not take out what it has passed. */
  lemma {:induction false} TrimRowKeeps(row: seq<Line>, i: nat, p: nat)
    requires p < i && p < |row| && Distinct(row)
    ensures TrimRow(row, i).2.Gone? ==> TrimRow(row, i).2.kev.key != row[p].kev.key
    decreases |row| - i
  {
    if i < |row| && row[i].warm {
      var mid := row[i := row[i].(warm := false)];
      FindRowChange(row, i, mid[i], row[i].kev.key);
      TrimRowKeeps(mid, i + 1, p);
    }
  }

  lemma TrimBuckIs(mug: Noun -> Hash, row: seq<Line>, hi: nat, arm: Arm, k: Noun)
    requires Wf(mug, Buck(row), 0, hi)
    ensures var (now, next, ret) := TrimBuck(row, arm);
            && Wf(mug, now, 0, hi)
                && (ret.Gone? ==> mug(ret.kev.key) == hi && FindRow(row, ret.kev.key) == Some(Line(ret.kev, false)))
            && Trimmed(Find(now, k, 0, 0), FindRow(row, k), ret, k)
  {
    TrimRowIs(row, arm.inx, k);
    var (now, j, ret) := TrimRow(row, arm.inx);
    forall l | l in now
      ensures mug(l.kev.key) == hi
    {
      var w :| w in row && w.kev == l.kev;
    }
    if ret.Gone? {
      FindRowIs(row, ret.kev.key);
    }
    if |now| == 1 {
      assert FindRow(now[1..], k) == None;
    }
    FragZero(hi);
  }

  /** What a step at a node does. */
  lemma TrimNode(mug: Noun -> Hash, slot: Slot, d: nat, hi: nat, arm: Arm) returns (bit: nat)
    requires slot.Node? && Wf(mug, slot, d, hi) && Frag(arm.mug, d) == hi
    ensures d > 0 && bit == Frag(Rest(arm.mug, d), d - 1) < 32 && Frag(arm.mug, d - 1) == 32 * hi + bit && WfNode(slot)
    ensures Bit(slot.bits, bit) ==> Inx(slot.bits, bit) < |slot.sots| && Wf(mug, Kid(slot, bit), d - 1, 32 * hi + bit)
    ensures Bit(slot.bits, bit) ==>
      var (kid, next, ret) := TrimSlot(Kid(slot, bit), d - 1, Rest(arm.mug, d - 1), arm);
      TrimSlot(slot, d, Rest(arm.mug, d), arm) == (Settle(slot, bit, kid), next, ret)
    ensures !Bit(slot.bits, bit) ==>
      TrimSlot(slot, d, Rest(arm.mug, d), arm) == (slot, Arm(Skip(arm.mug, d - 1), arm.inx), Miss)
  {
    hide Bit, Pc, Low, Frag, Rest, Kid, Inx, Wf, Shrink, Settle, Skip;
    bit := PathKid(mug, slot, d, hi, arm.mug);
  }

  /** A step takes out a cold entry or none, cools, and leaves all else. */
  lemma {:induction false} TrimIs(mug: Noun -> Hash, slot: Slot, d: nat, hi: nat, arm: Arm, k: Noun)
    requires Wf(mug, slot, d, hi) && Frag(arm.mug, d) == hi
    ensures var (now, next, ret) := TrimSlot(slot, d, Rest(arm.mug, d), arm);
            && WfOrNull(mug, now, d, hi) && (now == Null ==> ret.Gone?)
            && (ret.Gone? ==>
                Frag(mug(ret.kev.key), d) == hi && Get(mug, slot, ret.kev.key, d) == Some(Line(ret.kev, false)))
            && (ret.Gone? && slot.Node? ==> Frag(Rest(mug(ret.kev.key), d), d - 1) == Frag(Rest(arm.mug, d), d - 1))
            && (Frag(mug(k), d) == hi ==> Trimmed(Get(mug, now, k, d), Get(mug, slot, k, d), ret, k))
    decreases d, 2
  {
    hide Bit, Pc, Low, Frag, Rest, Settle, Skip, TrimRow, FindRow;
    match slot {
      case Leaf(line) =>
      case Buck(row) =>
        TrimBuckIs(mug, row, hi, arm, k);
        FragZero(arm.mug);
        FragZero(mug(k));
        var (_, _, ret) := TrimBuck(row, arm);
        if ret.Gone? {
          FragZero(mug(ret.kev.key));
        }
        FindAny(TrimBuck(row, arm).0, k, Rest(mug(k), 0), 0);
      case Node(_, _) =>
        TrimNodeIs(mug, slot, d, hi, arm, k);
    }
  }

  /** Below the nodes the rest of the hash does not matter. */
  lemma FindAny(slot: Slot, k: Noun, a: nat, b: nat)
    requires !slot.Node?
    ensures Find(slot, k, 0, a) == Find(slot, k, 0, b)
  {
  }

  lemma TrimNodeIs(mug: Noun -> Hash, slot: Slot, d: nat, hi: nat, arm: Arm, k: Noun)
    requires slot.Node? && Wf(mug, slot, d, hi) && Frag(arm.mug, d) == hi
    ensures var (now, next, ret) := TrimSlot(slot, d, Rest(arm.mug, d), arm);
            && WfOrNull(mug, now, d, hi) && now != Null
            && (ret.Gone? ==>
                Frag(mug(ret.kev.key), d) == hi && Get(mug, slot, ret.kev.key, d) == Some(Line(ret.kev, false)))
            && (ret.Gone? ==> Frag(Rest(mug(ret.kev.key), d), d - 1) == Frag(Rest(arm.mug, d), d - 1))
            && (Frag(mug(k), d) == hi ==> Trimmed(Get(mug, now, k, d), Get(mug, slot, k, d), ret, k))
    decreases d, 1
  {
    hide *;
    var bit := TrimNode(mug, slot, d, hi, arm);
    WfWfOrNull(mug, slot, d, hi);
    WfNotNull(mug, slot, d, hi);
    if Bit(slot.bits, bit) {
      var (kid, next, ret) := TrimSlot(Kid(slot, bit), d - 1, Rest(arm.mug, d - 1), arm);
      TrimIs(mug, Kid(slot, bit), d - 1, 32 * hi + bit, arm, k);
      SettleWf(mug, slot, d, hi, bit, kid);
      WfWfOrNull(mug, Settle(slot, bit, kid), d, hi);
      WfNotNull(mug, Settle(slot, bit, kid), d, hi);
      if ret.Gone? {
        PrefixUp(mug(ret.kev.key), arm.mug, d);
        GetNode(mug, slot, d, hi, ret.kev.key);
      }
    }
    if Frag(mug(k), d) == hi {
      TrimNodeGet(mug, slot, d, hi, arm, k);
    }
  }

  lemma TrimNodeGet(mug: Noun -> Hash, slot: Slot, d: nat, hi: nat, arm: Arm, k: Noun)
    requires slot.Node? && Wf(mug, slot, d, hi) && Frag(arm.mug, d) == hi == Frag(mug(k), d)
    ensures var (now, next, ret) := TrimSlot(slot, d, Rest(arm.mug, d), arm);
        Trimmed(Get(mug, now, k, d), Get(mug, slot, k, d), ret, k)
    decreases d, 0
  {
    hide *;
    var bit := TrimNode(mug, slot, d, hi, arm);
    var c := PathKid(mug, slot, d, hi, mug(k));
    GetNode(mug, slot, d, hi, k);
    if Bit(slot.bits, bit) {
      var (kid, next, ret) := TrimSlot(Kid(slot, bit), d - 1, Rest(arm.mug, d - 1), arm);
      TrimIs(mug, Kid(slot, bit), d - 1, 32 * hi + bit, arm, k);
      SettleGet(mug, slot, d, hi, bit, kid, k);
      if c != bit {
        if ret.Gone? {
          PrefixUp(mug(ret.kev.key), arm.mug, d);
        }
        CoolerSelf(Get(mug, slot, k, d), ret, k);
      }
    } else {
      CoolerSelf(Get(mug, slot, k, d), Miss, k);
    }
  }

  lemma WfNotNull(mug: Noun -> Hash, slot: Slot, d: nat, hi: nat)
    requires Wf(mug, slot, d, hi)
    ensures slot != Null
  {
  }

  lemma CoolerSelf(found: Option<Line>, ret: Trim, k: Noun)
    requires ret.Gone? ==> k != ret.kev.key
    ensures Trimmed(found, found, ret, k)
  {
  }

  /** How far the arm is from a hash, going up and around. */
  function Ahead(h: nat, t: nat): nat
    requires h < HASHES && t < HASHES
  {
    if h <= t then t - h else t + HASHES - h
  }

  lemma {:induction false} ShlFrag(h: nat, d: nat)
    ensures Shl(Frag(h, d), d) <= h < Shl(Frag(h, d) + 1, d)
  {
    if d > 0 {
      ShlFrag(h / 32, d - 1);
    }
  }

  lemma {:induction false} ShlMono(x: nat, y: nat, d: nat)
    requires x <= y
    ensures Shl(x, d) <= Shl(y, d)
  {
    if d > 0 {
      ShlMono(x, y, d - 1);
    }
  }

  lemma {:induction false} FragLess(h: nat, n: nat, d: nat)
    requires h < Shl(n, d)
    ensures Frag(h, d) < n
  {
    if d > 0 {
      FragLess(h / 32, n, d - 1);
    }
  }

  /** Hashes end with a whole prefix. */
  lemma ShlEnd(h: nat, d: nat)
    requires h < HASHES && d <= 5
    ensures Shl(Frag(h, d) + 1, d) <= HASHES
  {
    var n := [HASHES, 0x400_0000, 0x20_0000, 0x1_0000, 0x800, 0x40][d];
    assert Shl(n, d) == HASHES by {
      assert Shl(0x400_0000, 1) == Shl(0x20_0000, 2) == Shl(0x1_0000, 3) == Shl(0x800, 4) == Shl(0x40, 5) == HASHES;
    }
    FragLess(h, n, d);
    ShlMono(Frag(h, d) + 1, n, d);
  }

  /** Skipping a prefix that a hash does not have brings the arm nearer to it. */
  lemma SkipNearer(h: nat, d: nat, t: nat)
    requires h < HASHES && t < HASHES && d <= 5 && Frag(t, d) != Frag(h, d)
    ensures Ahead(Skip(h, d), t) < Ahead(h, t)
  {
    hide Frag, Shl;
    ShlFrag(h, d);
    ShlFrag(t, d);
    ShlEnd(h, d);
    if Frag(h, d) < Frag(t, d) {
      ShlMono(Frag(h, d) + 1, Frag(t, d), d);
    } else {
      ShlMono(Frag(t, d) + 1, Frag(h, d), d);
    }
  }

  /** Why a step that takes nothing out is progress: an entry is cooled, or the
      bucket's index is used up, or the arm passes a prefix under which there is
      nothing. */
  datatype Progress = Cooled(key: Noun) | Wrapped | Passed(e: nat)

  ghost predicate Progresses(mug: Noun -> Hash, slot: Slot, d: nat, hi: nat, arm: Arm, now: Slot, next: Arm,
        why: Progress) {
    match why
    case Cooled(key) =>
      && Frag(mug(key), d) == hi && next.inx <= arm.inx
      && Get(mug, slot, key, d).Some? && Get(mug, slot, key, d).value.warm
      && Get(mug, now, key, d).Some? && !Get(mug, now, key, d).value.warm
    case Wrapped => now == slot && arm.inx > 0 && next.inx == 0
    case Passed(e) =>
      && now == slot && e <= d && next == Arm(Skip(arm.mug, e), arm.inx)
      && forall t :: Frag(mug(t), d) == hi && Get(mug, slot, t, d).Some? ==> Frag(mug(t), e) != Frag(arm.mug, e)
  }

  lemma {:induction false} TrimRowProgress(row: seq<Line>, i: nat)
    requires Distinct(row) && TrimRow(row, i).2 == Nothing
    ensures i >= |row| ==> TrimRow(row, i).0 == row
    ensures i < |row| ==> row[i].warm && FindRow(row, row[i].kev.key) == Some(row[i])
    ensures i < |row| ==> FindRow(TrimRow(row, i).0, row[i].kev.key) == Some(row[i].(warm := false))
  {
    if i < |row| {
      FindRowAt(row, i);
      var cool := row[i].(warm := false);
      var mid := row[i := cool];
      FindRowChange(row, i, cool, row[i].kev.key);
      TrimRowIs(mid, i + 1, row[i].kev.key);
    }
  }

  /** Every step that takes nothing out is progress. */
  lemma {:induction false} TrimProgress(mug: Noun -> Hash, slot: Slot, d: nat, hi: nat, arm: Arm)
        returns (why: Progress)
    requires Wf(mug, slot, d, hi) && Frag(arm.mug, d) == hi && arm.mug < HASHES && d <= 5
    requires !TrimSlot(slot, d, Rest(arm.mug, d), arm).2.Gone?
    ensures var (now, next, ret) := TrimSlot(slot, d, Rest(arm.mug, d), arm);
        Progresses(mug, slot, d, hi, arm, now, next, why)
    decreases d, 1
  {
    hide Bit, Pc, Low, Frag, Rest, Settle, Skip, TrimRow, FindRow;
    match slot {
      case Leaf(line) =>
        why := Cooled(line.kev.key);
      case Buck(row) =>
        TrimRowIs(row, arm.inx, Atom(0));
        TrimRowProgress(row, arm.inx);
        FragZero(arm.mug);
        if arm.inx < |row| {
          FragZero(mug(row[arm.inx].kev.key));
          why := Cooled(row[arm.inx].kev.key);
        } else if arm.inx > 0 {
          why := Wrapped;
        } else {
          SkipZero(arm.mug);
          FindNone();
          why := Passed(0);
        }
      case Node(_, _) =>
        why := TrimNodeProgress(mug, slot, d, hi, arm);
    }
  }

  lemma FindNone()
    ensures forall k :: FindRow([], k) == None
  {
  }

  lemma SkipZero(h: nat)
    ensures Skip(h, 0) == (h + 1) % HASHES
  {
  }

  lemma TrimNodeProgress(mug: Noun -> Hash, slot: Slot, d: nat, hi: nat, arm: Arm) returns (why: Progress)
    requires slot.Node? && Wf(mug, slot, d, hi) && Frag(arm.mug, d) == hi && arm.mug < HASHES && d <= 5
    requires !TrimSlot(slot, d, Rest(arm.mug, d), arm).2.Gone?
    ensures var (now, next, ret) := TrimSlot(slot, d, Rest(arm.mug, d), arm);
        Progresses(mug, slot, d, hi, arm, now, next, why)
    decreases d, 0
  {
    hide Wf, Bit, Pc, Low, Frag, Rest, Settle, Skip, TrimSlot, Get, Kid, Inx;
    var bit := TrimNode(mug, slot, d, hi, arm);
    if Bit(slot.bits, bit) {
      var (kid, next, ret) := TrimSlot(Kid(slot, bit), d - 1, Rest(arm.mug, d - 1), arm);
      why := TrimProgress(mug, Kid(slot, bit), d - 1, 32 * hi + bit, arm);
      if why.Cooled? {
        TrimIs(mug, Kid(slot, bit), d - 1, 32 * hi + bit, arm, why.key);
        PrefixUp(mug(why.key), arm.mug, d);
        GetNode(mug, slot, d, hi, why.key);
        SettleGet(mug, slot, d, hi, bit, kid, why.key);
      } else {
        WfNotNull(mug, Kid(slot, bit), d - 1, 32 * hi + bit);
        SettleSame(slot, bit);
        if why.Passed? {
          forall t | Frag(mug(t), d) == hi && Get(mug, slot, t, d).Some?
            ensures Frag(mug(t), why.e) != Frag(arm.mug, why.e)
          {
            GetNode(mug, slot, d, hi, t);
            FragStep(mug(t), d);
            if Frag(mug(t), d - 1) != Frag(arm.mug, d - 1) {
              PrefixApart(mug(t), arm.mug, why.e, d - 1);
            }
          }
        }
      }
    } else {
      why := Passed(d - 1);
      forall t | Frag(mug(t), d) == hi && Get(mug, slot, t, d).Some?
        ensures Frag(mug(t), d - 1) != Frag(arm.mug, d - 1)
      {
        GetNode(mug, slot, d, hi, t);
        FragStep(mug(t), d);
      }
    }
  }

  lemma SettleSame(slot: Slot, bit: nat)
    requires WfNode(slot) && Inx(slot.bits, bit) < |slot.sots| && Kid(slot, bit) != Null
    ensures Settle(slot, bit, Kid(slot, bit)) == slot
  {
    hide Inx, Pc;
    assert slot.sots[Inx(slot.bits, bit) := Kid(slot, bit)] == slot.sots;
  }

  /** Hashes that differ at one level differ below it. */
  lemma {:induction false} PrefixApart(a: nat, b: nat, e: nat, d: nat)
    requires e <= d && Frag(a, d) != Frag(b, d)
    ensures Frag(a, e) != Frag(b, e)
  {
    hide Frag;
    if e < d && Frag(a, d - 1) == Frag(b, d - 1) {
      PrefixUp(a, b, d);
    } else if e < d {
      PrefixApart(a, b, e, d - 1);
    }
  }
}
