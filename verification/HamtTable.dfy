/** The hash table: sixty-four root slots, a count, and a clock arm. */
module HamtTable {
  import opened Nouns
  import opened Bits
  import opened Hamt
  import opened HamtOps
  import opened HamtTrim
  import opened HamtSweep

  const ROOTS := 64

  /** The root slot of a key. */
  function Root(mug: Noun -> Hash, k: Noun): (i: nat)
    ensures i < ROOTS
  {
    assert Shl(64, 5) == HASHES;
    FragLess(mug(k), 64, 5);
    Frag(mug(k), 5)
  }

  function Look(mug: Noun -> Hash, sots: seq<Slot>, k: Noun): Option<Line>
    requires |sots| == ROOTS
  {
    Get(mug, sots[Root(mug, k)], k, 5)
  }

  /** Every entry is where its hash says. */
  ghost predicate Placed(mug: Noun -> Hash, sots: seq<Slot>) {
    |sots| == ROOTS && forall i :: 0 <= i < ROOTS ==> WfOrNull(mug, sots[i], 5, i)
  }

  /** The table is the map: lookup finds what is stored, and only that. */
  ghost predicate Holds(mug: Noun -> Hash, sots: seq<Slot>, contents: map<Noun, Noun>) {
    && Placed(mug, sots)
    && (forall k :: k in contents <==> Look(mug, sots, k).Some?)
    && (forall k :: k in contents ==> Look(mug, sots, k).value.kev == Kev(k, contents[k]))
  }

  ghost function Warm(mug: Noun -> Hash, sots: seq<Slot>, contents: map<Noun, Noun>): set<Noun>
    requires Holds(mug, sots, contents)
  {
    set k | k in contents && Look(mug, sots, k).value.warm
  }

  /** One root slot changes: keys of other roots cannot tell. */
  lemma LookElsewhere(mug: Noun -> Hash, sots: seq<Slot>, i: nat, slot: Slot, k: Noun)
    requires |sots| == ROOTS && i < ROOTS
    ensures Look(mug, sots[i := slot], k) == if Root(mug, k) == i then Get(mug, slot, k, 5) else Look(mug, sots, k)
  {
  }

  /** Putting a line into a root slot. */
  function PutRoot(mug: Noun -> Hash, slot: Slot, line: Line): (Slot, bool) {
    if slot == Null then (Leaf(line), true) else Put(mug, slot, line, 5, Rest(mug(line.kev.key), 5))
  }

  lemma PutRootIs(mug: Noun -> Hash, slot: Slot, line: Line, k: Noun)
    requires WfOrNull(mug, slot, 5, Root(mug, line.kev.key))
    ensures var (now, newer) := PutRoot(mug, slot, line); var i := Root(mug, line.kev.key);
            && Wf(mug, now, 5, i) && (newer <==> Get(mug, slot, line.kev.key, 5).None?)
            && (Root(mug, k) == i ==>
                Get(mug, now, k, 5) == if k == line.kev.key then Some(line) else Get(mug, slot, k, 5))
  {
    hide Frag, Rest, Put;
    var i := Root(mug, line.kev.key);
    if slot != Null {
      PutWf(mug, slot, line, 5, i);
      if Root(mug, k) == i {
        PutGet(mug, slot, line, 5, i, k);
      }
    }
  }

  lemma PutHolds(mug: Noun -> Hash, sots: seq<Slot>, contents: map<Noun, Noun>, line: Line)
    requires Holds(mug, sots, contents)
    ensures var i := Root(mug, line.kev.key); var (now, newer) := PutRoot(mug, sots[i], line);
            Holds(mug, sots[i := now], contents[line.kev.key := line.kev.val]) && (newer <==> line.kev.key !in contents)
    ensures var i := Root(mug, line.kev.key); var (now, _) := PutRoot(mug, sots[i], line); forall k ::
      Look(mug, sots[i := now], k) == if k == line.kev.key then Some(line) else Look(mug, sots, k)
  {
    hide Get, Wf, PutRoot, Root;
    var i := Root(mug, line.kev.key);
    var (now, newer) := PutRoot(mug, sots[i], line);
    PutRootIs(mug, sots[i], line, line.kev.key);
    forall k
      ensures Look(mug, sots[i := now], k) == if k == line.kev.key then Some(line) else Look(mug, sots, k)
    {
      PutRootIs(mug, sots[i], line, k);
      LookElsewhere(mug, sots, i, now, k);
    }
  }

  /** The key that a deletion takes out of the table. */
  function VictimOf(mug: Noun -> Hash, sots: seq<Slot>, key: Noun): Option<Noun>
    requires |sots| == ROOTS
  {
    Victim(sots[Root(mug, key)], key, 5, Rest(mug(key), 5))
  }

  /** What every lookup is after a deletion. */
  lemma DelLooks(mug: Noun -> Hash, sots: seq<Slot>, key: Noun, k: Noun)
    requires Placed(mug, sots)
    ensures var i := Root(mug, key); var v := VictimOf(mug, sots, key);
            var (now, gone) := Del(sots[i], key, 5, Rest(mug(key), 5));
            && WfOrNull(mug, now, 5, i) && (gone <==> v.Some?)
            && (v.Some? ==> Look(mug, sots, v.value).Some?) && (Look(mug, sots, key).Some? ==> v == Some(key))
            && Look(mug, sots[i := now], k) == if v == Some(k) then None else Look(mug, sots, k)
  {
    hide Frag, Rest, Del, Victim, Find;
    var i := Root(mug, key);
    var (now, _) := Del(sots[i], key, 5, Rest(mug(key), 5));
    LookElsewhere(mug, sots, i, now, k);
    if sots[i] == Null {
      NullRoot(mug, key, Rest(mug(key), 5));
      assert sots[i := now] == sots;
    } else {
      VictimIs(mug, sots[i], key, 5, i);
      DelIs(mug, sots[i], key, 5, i, key);
      if Root(mug, k) == i {
        DelIs(mug, sots[i], key, 5, i, k);
      }
    }
  }

  lemma DelHolds(mug: Noun -> Hash, sots: seq<Slot>, contents: map<Noun, Noun>, key: Noun)
    requires Holds(mug, sots, contents)
    ensures var i := Root(mug, key); var v := VictimOf(mug, sots, key);
            var (now, gone) := Del(sots[i], key, 5, Rest(mug(key), 5));
            && Holds(mug, sots[i := now], if v.Some? then contents - {v.value} else contents) && (gone <==> v.Some?)
            && (v.Some? ==> v.value in contents) && (key in contents ==> v == Some(key))
    ensures var i := Root(mug, key); var v := VictimOf(mug, sots, key); forall k ::
      Look(mug, sots[i := Del(sots[i], key, 5, Rest(mug(key), 5)).0], k)
      == if v == Some(k) then None else Look(mug, sots, k)
  {
    hide Rest, Del, VictimOf, Root, Look, WfOrNull;
    var i, v := Root(mug, key), VictimOf(mug, sots, key);
    var (now, gone) := Del(sots[i], key, 5, Rest(mug(key), 5));
    DelLooks(mug, sots, key, key);
    forall k
      ensures Look(mug, sots[i := now], k) == if v == Some(k) then None else Look(mug, sots, k)
    {
      DelLooks(mug, sots, key, k);
    }
  }

  lemma NullRoot(mug: Noun -> Hash, key: Noun, rem: nat)
    ensures Del(Null, key, 5, rem) == (Null, false) && Victim(Null, key, 5, rem) == None
        && Get(mug, Null, key, 5) == None
  {
  }

  /** The root slot under the arm. */
  function ArmRoot(arm: Arm): (i: nat)
    requires arm.mug < HASHES
    ensures i < ROOTS
  {
    assert Shl(64, 5) == HASHES;
    FragLess(arm.mug, 64, 5);
    Frag(arm.mug, 5)
  }

  /** One step of the clock at the root. */
  function StepRoot(slot: Slot, arm: Arm): (Slot, Arm, Trim) {
    if slot == Null then (Null, Arm(Skip(arm.mug, 5), arm.inx), Nothing)
    else TrimSlot(slot, 5, Rest(arm.mug, 5), arm)
  }

  function Left(contents: map<Noun, Noun>, ret: Trim): map<Noun, Noun> {
    if ret.Gone? then contents - {ret.kev.key} else contents
  }

  /** A step takes out a cold stored entry or nothing, and keeps every other mapping. */
  lemma StepHolds(mug: Noun -> Hash, sots: seq<Slot>, contents: map<Noun, Noun>, arm: Arm)
    requires Holds(mug, sots, contents) && arm.mug < HASHES
    ensures var i := ArmRoot(arm); var (now, next, ret) := StepRoot(sots[i], arm);
            && Holds(mug, sots[i := now], Left(contents, ret))
            && (ret.Gone? ==> Look(mug, sots, ret.kev.key) == Some(Line(ret.kev, false)))
            && Warm(mug, sots[i := now], Left(contents, ret)) <= Warm(mug, sots, contents)
  {
    hide Frag, Rest, TrimSlot, Get, Wf, Skip;
    var i := ArmRoot(arm);
    var (now, next, ret) := StepRoot(sots[i], arm);
    if sots[i] == Null {
      assert sots[i := now] == sots;
    } else {
      TrimIs(mug, sots[i], 5, i, arm, Atom(0));
      forall k
        ensures Trimmed(Look(mug, sots[i := now], k), Look(mug, sots, k), ret, k)
      {
        LookElsewhere(mug, sots, i, now, k);
        TrimIs(mug, sots[i], 5, i, arm, k);
        if Root(mug, k) != i {
          CoolerSelf(Look(mug, sots, k), ret, k);
        }
      }
      TrimmedHolds(mug, sots, sots[i := now], contents, ret);
    }
  }

  lemma TrimmedHolds(mug: Noun -> Hash, was: seq<Slot>, now: seq<Slot>, contents: map<Noun, Noun>, ret: Trim)
    requires Holds(mug, was, contents) && Placed(mug, now) && forall k ::
        Trimmed(Look(mug, now, k), Look(mug, was, k), ret, k)
    ensures Holds(mug, now, Left(contents, ret)) && Warm(mug, now, Left(contents, ret)) <= Warm(mug, was, contents)
    ensures ret.Gone? ==> Look(mug, was, ret.kev.key) == Some(Line(ret.kev, false))
  {
    hide Look, WfOrNull;
    if ret.Gone? {
      assert Trimmed(Look(mug, now, ret.kev.key), Look(mug, was, ret.kev.key), ret, ret.kev.key);
    }
    forall k
      ensures k in Left(contents, ret) <==> Look(mug, now, k).Some?
      ensures k in Left(contents, ret) ==> Look(mug, now, k).value.kev == Kev(k, Left(contents, ret)[k])
    {
      assert Trimmed(Look(mug, now, k), Look(mug, was, k), ret, k);
    }
  }

  /** The measure of a step that takes nothing out. */
  ghost predicate Nearer(mug: Noun -> Hash, was: seq<Slot>, now: seq<Slot>, contents: map<Noun, Noun>, arm: Arm,
        next: Arm, t: Noun)
    requires Holds(mug, was, contents) && Holds(mug, now, contents) && arm.mug < HASHES && next.mug < HASHES
  {
    || Warm(mug, now, contents) < Warm(mug, was, contents)
    || (now == was && arm.inx > 0 && next.inx == 0)
    || (now == was && next.inx == arm.inx && Ahead(next.mug, mug(t)) < Ahead(arm.mug, mug(t)))
  }

  lemma StepNearer(mug: Noun -> Hash, sots: seq<Slot>, contents: map<Noun, Noun>, arm: Arm, t: Noun)
    requires Holds(mug, sots, contents) && arm.mug < HASHES && t in contents
    requires !StepRoot(sots[ArmRoot(arm)], arm).2.Gone?
    ensures var i := ArmRoot(arm); var (now, next, ret) := StepRoot(sots[i], arm);
            next.mug < HASHES && Holds(mug, sots[i := now], contents)
                && Nearer(mug, sots, sots[i := now], contents, arm, next, t)
  {
    hide Frag, Rest, TrimSlot, Get, Wf, Skip;
    var i := ArmRoot(arm);
    var (now, next, ret) := StepRoot(sots[i], arm);
    StepHolds(mug, sots, contents, arm);
    assert Look(mug, sots, t).Some?;
    if sots[i] == Null {
      assert sots[i := now] == sots;
      NullGet(mug, t);
      SkipNearer(arm.mug, 5, mug(t));
    } else {
      ArmAny(sots[i], 5, Rest(arm.mug, 5), arm);
      var why := TrimProgress(mug, sots[i], 5, i, arm);
      match why {
        case Cooled(k) =>
          LookElsewhere(mug, sots, i, now, k);
          assert Look(mug, sots, k).Some?;
          assert k in Warm(mug, sots, contents) && k !in Warm(mug, sots[i := now], contents);
        case Wrapped =>
          assert sots[i := now] == sots;
        case Passed(e) =>
          assert sots[i := now] == sots;
          if Root(mug, t) != i {
            PrefixApart(mug(t), arm.mug, e, 5);
          }
          SkipNearer(arm.mug, e, mug(t));
      }
    }
  }

  lemma NullGet(mug: Noun -> Hash, k: Noun)
    ensures Get(mug, Null, k, 5) == None
  {
  }

  /** All that is found in a table. */
  ghost function Found(mug: Noun -> Hash, sots: seq<Slot>): Noun -> Option<Line>
    requires |sots| == ROOTS
  {
    (k: Noun) => Look(mug, sots, k)
  }

  /** Every step of the clock at the root is as `Steps` says. */
  lemma RootSteps(mug: Noun -> Hash, sots: seq<Slot>, arm: Arm) returns (end: End)
    requires Placed(mug, sots) && arm.mug < HASHES
    ensures end.Depth() <= 5
    ensures var i := ArmRoot(arm); var (now, next, ret) := StepRoot(sots[i], arm);
            Steps(mug, Found(mug, sots), Found(mug, sots[i := now]), arm, next, ret, end)
  {
    hide Frag, Rest, TrimSlot, Get, Wf, Skip;
    var i := ArmRoot(arm);
    var (now, next, ret) := StepRoot(sots[i], arm);
    forall k
      ensures Frag(mug(k), 5) == Root(mug, k)
      ensures Look(mug, sots[i := now], k) == if Root(mug, k) == i then Get(mug, now, k, 5) else Look(mug, sots, k)
      ensures Get(mug, Null, k, 5) == None
    {
      LookElsewhere(mug, sots, i, now, k);
      NullGet(mug, k);
    }
    if sots[i] == Null {
      end := Bare(5);
    } else {
      end := TrimSteps(mug, sots[i], 5, i, arm);
      StepsUp(mug, Under(mug, sots[i], 5, i), Under(mug, now, 5, i), Found(mug, sots), Found(mug, sots[i := now]),
              5, arm, next, ret, end);
    }
  }

  /** A point of a sweep: the table and the arm after a step, and what it took out. */
  datatype Point = Point(sots: seq<Slot>, arm: Arm, ret: Trim)

  ghost predicate StepsTo(mug: Noun -> Hash, sots: seq<Slot>, arm: Arm, now: Point) {
    |sots| == ROOTS == |now.sots| && exists end ::
      Steps(mug, Found(mug, sots), Found(mug, now.sots), arm, now.arm, now.ret, end)
  }

  /** A sweep is one step after another, up to the first that ends it. */
  ghost predicate Round(mug: Noun -> Hash, told: bool, trail: seq<Point>) {
    && |trail| > 1
    && (forall m, n :: 0 <= m && n == m + 1 < |trail| ==> StepsTo(mug, trail[m].sots, trail[m].arm, trail[n]))
    && (forall m :: 0 < m < |trail| ==> (EndsRound(trail[m].ret, told) <==> m == |trail| - 1))
  }

  /** Whether a step ends a round of eviction. */
  predicate EndsRound(ret: Trim, told: bool) {
    ret.Gone? || (ret == Miss && !told)
  }

  /** A sweep so far. */
  ghost predicate Sweep(mug: Noun -> Hash, told: bool, trail: seq<Point>, start: Point, end: Point) {
    && |trail| > 1 && trail[0] == start && trail[|trail| - 1] == end
    && (forall m, n :: 0 <= m && n == m + 1 < |trail| ==> StepsTo(mug, trail[m].sots, trail[m].arm, trail[n]))
    && (forall m :: 0 < m < |trail| - 1 ==> !EndsRound(trail[m].ret, told))
  }

  lemma FirstStep(mug: Noun -> Hash, told: bool, start: Point, end: Point)
    requires StepsTo(mug, start.sots, start.arm, end)
    ensures Sweep(mug, told, [start, end], start, end)
  {
    hide StepsTo;
  }

  lemma NextStep(mug: Noun -> Hash, told: bool, trail: seq<Point>, start: Point, mid: Point, end: Point)
        returns (longer: seq<Point>)
    requires Sweep(mug, told, trail, start, mid) && !EndsRound(mid.ret, told) && StepsTo(mug, mid.sots, mid.arm, end)
    ensures Sweep(mug, told, longer, start, end)
  {
    hide StepsTo;
    longer := trail + [end];
  }

  lemma SweepEnds(mug: Noun -> Hash, told: bool, trail: seq<Point>, start: Point, end: Point)
    requires Sweep(mug, told, trail, start, end) && EndsRound(end.ret, told)
    ensures Round(mug, told, trail) && trail[0] == start && trail[|trail| - 1] == end
  {
    hide StepsTo;
  }

  /** The arm stays a hash. */
  lemma {:induction false} ArmAny(slot: Slot, d: nat, rem: nat, arm: Arm)
    requires arm.mug < HASHES
    ensures TrimSlot(slot, d, rem, arm).1.mug < HASHES
    decreases d
  {
    hide Bit, Inx, Frag, Rest, Settle, TrimRow;
    if slot.Node? && d > 0 && Bit(slot.bits, Frag(rem, d - 1)) && Inx(slot.bits, Frag(rem, d - 1)) < |slot.sots| {
      ArmAny(slot.sots[Inx(slot.bits, Frag(rem, d - 1))], d - 1, Rest(rem, d - 1), arm);
    }
  }

  /** The count of entries is one word wide, and wraps. */
  const WIDE := 0x1_0000_0000

  function Up(use: nat): (n: nat)
    ensures n < WIDE
  {
    (use + 1) % WIDE
  }

  function Down(use: nat): nat {
    if use == 0 then WIDE - 1 else use - 1
  }

  /** A word holds a number, modulo its width. */
  predicate Holding(use: nat, n: int) {
    use < WIDE && (n - use) % WIDE == 0
  }

  lemma HoldingUp(use: nat, n: int)
    requires Holding(use, n)
    ensures Holding(Up(use), n + 1)
  {
  }

  lemma HoldingDown(use: nat, n: int)
    requires Holding(use, n)
    ensures Holding(Down(use), n - 1) && (use > 0 ==> Down(use) == use - 1)
  {
  }

  /** A word that holds a number that fits is that number. */
  lemma HoldingIs(use: nat, n: nat)
    requires Holding(use, n) && n < WIDE
    ensures use == n
  {
  }

  class Table {
    const mug: Noun -> Hash
    /** The bound on the number of entries; no bound if zero. */
    const max: nat
    /** Whether a miss is told apart from an eviction. The code's miss is a value
        that its callers take for an evicted entry; what is meant is no eviction. */
    const told: bool
    const sots: array<Slot>
    var use: nat
    var arm: Arm
    /** The map the table stands for, and how many misses have been taken for
        evictions. */
    ghost var contents: map<Noun, Noun>
    ghost var lost: nat

    ghost predicate Valid()
      reads this, sots
    {
      && sots.Length == ROOTS && Holds(mug, sots[..], contents) && arm.mug < HASHES
      && Holding(use, |contents| - lost) && (told ==> lost == 0)
    }

    constructor (mug: Noun -> Hash, max: nat, told: bool)
      ensures Valid() && fresh(sots) && contents == map[] && this.mug == mug && this.max == max && this.told == told
      ensures use == 0 && lost == 0 && arm == Arm(0, 0) && sots.Length == ROOTS && forall i :: 0 <= i < ROOTS ==>
          sots[i] == Null
    {
      this.mug, this.max, this.told := mug, max, told;
      sots := new Slot[ROOTS](_ => Null);
      use, arm, contents, lost := 0, Arm(0, 0), map[], 0;
      new;
      NullTable(mug, sots[..]);
    }

    /** Look a key up; an entry in a root slot is warmed. */
    method Git(key: Noun) returns (val: Option<Noun>)
      requires Valid()
      modifies sots
      ensures Valid() && val == if key in contents then Some(contents[key]) else None
      ensures forall k ::
        Look(mug, sots[..], k) == if k == key && key in contents && old(sots[Root(mug, key)].Leaf?)
          then Some(Line(Kev(key, contents[key]), true)) else old(Look(mug, sots[..], k))
    {
      var i := Root(mug, key);
      var found := Look(mug, sots[..], key);
      if found.None? {
        return None;
      }
      val := Some(found.value.kev.val);
      if sots[i].Leaf? {
        var line := found.value.(warm := true);
        PutHolds(mug, sots[..], contents, line);
        assert contents[key := line.kev.val] == contents;
        ghost var was := sots[..];
        sots[i] := Leaf(line);
        assert sots[..] == was[i := Leaf(line)];
      }
    }

    /** Store a pair, warm. */
    method Store(key: Noun, val: Noun)
      requires Valid()
      modifies this`use, this`contents, sots
      ensures Valid() && contents == old(contents)[key := val] && use == if key in old(contents) then old(use)
          else Up(old(use))
      ensures sots[..] == old(Filled(key, val))
      ensures forall k ::
        Look(mug, sots[..], k) == if k == key then Some(Line(Kev(key, val), true)) else old(Look(mug, sots[..], k))
    {
      hide Holds, Put, Root, Holding, Up;
      var line := Line(Kev(key, val), true);
      var i := Root(mug, key);
      PutHolds(mug, sots[..], contents, line);
      ghost var was := sots[..];
      var (slot, newer) := PutRoot(mug, sots[i], line);
      sots[i] := slot;
      assert sots[..] == was[i := slot];
      StoredSize(contents, key, val);
      if newer {
        HoldingUp(use, |contents| - lost);
        use := Up(use);
      }
      contents := contents[key := val];
    }

    /** Delete. What goes is the entry on the key's path, compared with the key
        only in a bucket: this is deletion from the map exactly if that path ends
        in nothing or in the key itself, as it does if the key is stored. */
    method Del(key: Noun) returns (ghost victim: Option<Noun>)
      requires Valid()
      modifies this`use, this`contents, sots
      ensures Valid() && victim == old(VictimOf(mug, sots[..], key))
      ensures contents == if victim.Some? then old(contents) - {victim.value} else old(contents)
      ensures contents == old(contents) - {key} <==> victim.None? || victim == Some(key)
      ensures key in old(contents) ==> victim == Some(key)
      ensures use == if victim.Some? then Down(old(use)) else old(use)
      ensures forall k ::
        Look(mug, sots[..], k) == if victim == Some(k) then None else old(Look(mug, sots[..], k))
    {
      hide Holds, Hamt.Del, Victim, Root, Look, VictimOf, Holding, Down, Rest, Find, Get;
      var i := Root(mug, key);
      victim := VictimOf(mug, sots[..], key);
      DelHolds(mug, sots[..], contents, key);
      DropOne(contents, victim, key);
      ghost var was := sots[..];
      var (slot, gone) := Hamt.Del(sots[i], key, 5, Rest(mug(key), 5));
      sots[i] := slot;
      assert sots[..] == was[i := slot];
      HoldingDown(use, |contents| - lost);
      if gone {
        use := Down(use);
        contents := contents - {victim.value};
      }
    }

    /** One step of the clock. */
    method TrimRoot(ghost t: Noun) returns (ret: Trim)
      requires Valid() && t in contents
      modifies this`arm, this`contents, this`use, this`lost, sots
      ensures sots.Length == ROOTS && Holds(mug, sots[..], contents) && arm.mug < HASHES && lost == old(lost)
          && use == old(use)
      ensures contents == Left(old(contents), ret) && old(arm).mug < HASHES
      ensures ret == old(StepRoot(sots[..][ArmRoot(arm)], arm)).2
      ensures ret.Gone? ==> ret.kev.key in old(contents) && old(contents)[ret.kev.key] == ret.kev.val
                            && old(Look(mug, sots[..], ret.kev.key)) == Some(Line(ret.kev, false))
      ensures !ret.Gone? ==> old(arm).mug < HASHES && Nearer(mug, old(sots[..]), sots[..], contents, old(arm), arm, t)
      ensures StepsTo(mug, old(sots[..]), old(arm), Point(sots[..], arm, ret))
    {
      hide StepRoot, ArmRoot, Nearer, Look, Steps, Found;
      ghost var end := RootSteps(mug, sots[..], arm);
      var i := ArmRoot(arm);
      var (slot, next, got) := StepRoot(sots[i], arm);
      StepHolds(mug, sots[..], contents, arm);
      if !got.Gone? {
        StepNearer(mug, sots[..], contents, arm, t);
      } else {
        ArmStays(sots[i], arm);
      }
      ghost var was := sots[..];
      sots[i] := slot;
      assert sots[..] == was[i := slot];
      arm, ret := next, got;
      contents := Left(contents, ret);
    }

    predicate Ends(ret: Trim) {
      EndsRound(ret, told)
    }

    /** Count one entry less. */
    method Discount(ret: Trim, ghost was: map<Noun, Noun>)
      requires sots.Length == ROOTS && Holds(mug, sots[..], contents) && arm.mug < HASHES && Ends(ret)
      requires Holding(use, |was| - lost) && use > 0 && (told ==> lost == 0)
      requires contents == Left(was, ret) && (ret.Gone? ==> ret.kev.key in was)
      modifies this`use, this`lost
      ensures Valid() && use == old(use) - 1 && lost == old(lost) + (if ret == Miss then 1 else 0)
    {
      hide *;
      HoldingDown(use, |was| - lost);
      LeftCount(was, ret);
      MissEnds(this);
      use := use - 1;
      if ret == Miss {
        lost := lost + 1;
      }
      TableValid(this);
    }

    /** Evict one entry: sweep until a step ends the round. */
    method Evict(ghost t: Noun) returns (ret: Trim)
      requires Valid() && t in contents && use > 0
      modifies this`arm, this`contents, this`use, this`lost, sots
      ensures Valid() && Ends(ret) && use == old(use) - 1 && lost == old(lost) + (if ret == Miss then 1 else 0)
      ensures contents == Left(old(contents), ret) && ret != Nothing && old(arm).mug < HASHES
      ensures Ends(old(StepRoot(sots[..][ArmRoot(arm)], arm)).2) ==> ret == old(StepRoot(sots[..][ArmRoot(arm)], arm)).2
      ensures ret.Gone? ==> ret.kev.key in old(contents) && old(contents)[ret.kev.key] == ret.kev.val
      ensures exists trail :: Round(mug, told, trail) && trail[0] == Point(old(sots[..]), old(arm), Nothing)
                              && trail[|trail| - 1] == Point(sots[..], arm, ret)
    {
      hide Holds, Look, Nearer, Ahead, StepsTo, Steps, Round, Sweep, Found;
      ghost var was := contents;
      ghost var start := Point(sots[..], arm, Nothing);
      ret := TrimRoot(t);
      ghost var trail := [start, Point(sots[..], arm, ret)];
      FirstStep(mug, told, start, Point(sots[..], arm, ret));
      ghost var first := ret;
      while !Ends(ret)
        invariant Ends(first) ==> ret == first
        invariant Sweep(mug, told, trail, start, Point(sots[..], arm, ret))
        invariant sots.Length == ROOTS && Holds(mug, sots[..], contents) && arm.mug < HASHES && lost == old(lost)
            && use == old(use)
        invariant contents == Left(was, ret)
        invariant ret.Gone? ==> ret.kev.key in was && was[ret.kev.key] == ret.kev.val
        decreases !Ends(ret), Warm(mug, sots[..], contents), arm.inx > 0, Ahead(arm.mug, mug(t))
      {
        ghost var sots0, arm0 := sots[..], arm;
        ghost var ret0 := ret;
        ret := TrimRoot(t);
        trail := NextStep(mug, told, trail, start, Point(sots0, arm0, ret0), Point(sots[..], arm, ret));
        if !ret.Gone? {
          NearerIs(mug, sots0, sots[..], contents, arm0, arm, t);
        }
      }
      SweepEnds(mug, told, trail, start, Point(sots[..], arm, ret));
      Discount(ret, was);
    }

    /** The root slots with a pair stored, warm. */
    ghost function Filled(key: Noun, val: Noun): (now: seq<Slot>)
      reads sots
      requires sots.Length == ROOTS
      ensures |now| == ROOTS
    {
      var i := Root(mug, key);
      sots[..][i := PutRoot(mug, sots[..][i], Line(Kev(key, val), true)).0]
    }

    /** What the first step of the clock comes upon once a pair is stored. */
    ghost function Swept(key: Noun, val: Noun): Trim
      reads this`arm, sots
      requires sots.Length == ROOTS && arm.mug < HASHES
    {
      StepRoot(Filled(key, val)[ArmRoot(arm)], arm).2
    }

    /** Store a pair, and evict one if the table is over its bound: a table whose count
        was within it is within it after, and so are its entries, if misses are told
        apart and the count does not wrap on the way. */
    method PutGet(key: Noun, val: Noun) returns (ret: Trim)
      requires Valid()
      modifies this`arm, this`contents, this`use, this`lost, sots
      ensures Valid() && (max > 0 && old(use) <= max ==> use <= max)
      ensures contents == Left(old(contents)[key := val], ret)
      ensures ret.Gone? ==>
          ret.kev.key in old(contents)[key := val] && old(contents)[key := val][ret.kev.key] == ret.kev.val
      ensures lost == old(lost) + (if ret == Miss then 1 else 0)
      ensures var n := if key in old(contents) then old(use) else Up(old(use));
              if max > 0 && n > max then Ends(ret) && use == n - 1 else ret == Nothing && use == n
      ensures told && 0 < max < 0xFFFF_FFFF && |old(contents)| <= max ==> |contents| <= max
      ensures ret == Nothing ==> sots[..] == old(Filled(key, val)) && arm == old(arm)
      ensures ret != Nothing && Ends(old(Swept(key, val))) ==> ret == old(Swept(key, val))
    {
      hide *;
      UpLeast(use);
      CountIs(this);
      SweptIs(this, key, val);
      Store(key, val);
      ret := Nothing;
      LeftNothing(contents);
      if max > 0 && use > max {
        ret := Evict(key);
        EndsSome(this, ret);
      }
      if old(told && 0 < max < 0xFFFF_FFFF && |contents| <= max) {
        BoundKept(this, old(contents), key, val, ret);
      }
    }

    /** Trim to a number of entries. The count must not have wrapped: a table that
        counts entries it does not have may be swept for ever. */
    method TrimTo(n: nat)
      requires Valid() && (use > n ==> lost <= |contents| < 0x1_0000_0000)
      modifies this`arm, this`contents, this`use, this`lost, sots
      ensures Valid() && use == if old(use) > n then n else old(use)
      ensures forall k :: k in contents ==> k in old(contents) && contents[k] == old(contents)[k]
    {
      hide Holds, Holding;
      if use > n {
        HoldingIs(use, |contents| - lost);
      }
      while use > n
        invariant Valid() && (if old(use) > n then n <= use <= old(use) && use + lost == |contents|
            else use == old(use))
        invariant forall k :: k in contents ==> k in old(contents) && contents[k] == old(contents)[k]
        decreases use
      {
        assert contents != map[];
        ghost var t :| t in contents;
        ghost var was := contents;
        var ret := Evict(t);
        if ret.Gone? {
          DropOne(was, Some(ret.kev.key), ret.kev.key);
        }
      }
    }
  }

  lemma StoredSize(contents: map<Noun, Noun>, key: Noun, val: Noun)
    ensures |contents[key := val]| == |contents| + (if key in contents then 0 else 1)
  {
    assert contents[key := val].Keys == contents.Keys + {key};
  }

  lemma UpLeast(use: nat)
    ensures Up(use) <= use + 1
  {
  }

  lemma SweptIs(t: Table, key: Noun, val: Noun)
    requires t.Valid()
    ensures t.sots.Length == ROOTS && t.arm.mug < HASHES
    ensures t.Swept(key, val) == StepRoot(t.Filled(key, val)[ArmRoot(t.arm)], t.arm).2
  {
  }

  /** A count within a bound that it cannot wrap at is the number of entries. */
  lemma BoundKept(t: Table, was: map<Noun, Noun>, key: Noun, val: Noun, ret: Trim)
    requires t.Valid() && t.contents == Left(was[key := val], ret) && (t.max > 0 && |was| <= t.max ==> t.use <= t.max)
    ensures t.told && 0 < t.max < 0xFFFF_FFFF && |was| <= t.max ==> |t.contents| <= t.max
  {
    hide Holds;
    StoredSize(was, key, val);
    LeftFewer(was[key := val], ret);
    if t.told && 0 < t.max < 0xFFFF_FFFF && |was| <= t.max {
      HoldingIs(t.use, |t.contents|);
    }
  }

  lemma CountIs(t: Table)
    requires t.Valid()
    ensures t.told && |t.contents| < 0x1_0000_0000 ==> t.use == |t.contents|
  {
    hide Holds;
  }

  lemma LeftFewer(contents: map<Noun, Noun>, ret: Trim)
    ensures |Left(contents, ret)| <= |contents|
  {
    if ret.Gone? {
      assert contents.Keys == Left(contents, ret).Keys + ({ret.kev.key} * contents.Keys);
    }
  }

  lemma EndsSome(t: Table, ret: Trim)
    requires t.Ends(ret)
    ensures ret != Nothing
  {
  }

  lemma NearerIs(mug: Noun -> Hash, was: seq<Slot>, now: seq<Slot>, contents: map<Noun, Noun>, arm: Arm, next: Arm,
        t: Noun)
    requires Holds(mug, was, contents) && Holds(mug, now, contents) && arm.mug < HASHES && next.mug < HASHES
    requires Nearer(mug, was, now, contents, arm, next, t)
    ensures Warm(mug, now, contents) < Warm(mug, was, contents)
            || (Warm(mug, now, contents) == Warm(mug, was, contents)
                && ((arm.inx > 0 && next.inx == 0)
                    || (arm.inx == next.inx && Ahead(next.mug, mug(t)) < Ahead(arm.mug, mug(t)))))
  {
    hide Ahead;
  }

  lemma LeftNothing(contents: map<Noun, Noun>)
    ensures Left(contents, Nothing) == contents
  {
  }

  lemma DropKey(contents: map<Noun, Noun>, key: Noun)
    requires key in contents
    ensures |contents - {key}| == |contents| - 1
  {
    assert contents.Keys == (contents - {key}).Keys + {key};
  }

  lemma DropOne(contents: map<Noun, Noun>, v: Option<Noun>, key: Noun)
    requires (v.Some? ==> v.value in contents) && (key in contents ==> v == Some(key))
    ensures var now := if v.Some? then contents - {v.value} else contents;
            && |now| == |contents| - (if v.Some? then 1 else 0)
            && (now == contents - {key} <==> v.None? || v == Some(key))
  {
    if v.Some? {
      DropKey(contents, v.value);
      if v.value != key {
        assert v.value in contents - {key} && v.value !in contents - {v.value};
      }
    } else {
      assert contents == contents - {key};
    }
  }

  lemma ArmStays(slot: Slot, arm: Arm)
    requires arm.mug < HASHES
    ensures StepRoot(slot, arm).1.mug < HASHES
  {
    ArmAny(slot, 5, Rest(arm.mug, 5), arm);
  }

  lemma NullTable(mug: Noun -> Hash, sots: seq<Slot>)
    requires |sots| == ROOTS && forall i :: 0 <= i < ROOTS ==> sots[i] == Null
    ensures Holds(mug, sots, map[])
  {
    forall k
      ensures Look(mug, sots, k) == None
    {
      NullGet(mug, k);
    }
  }

  /** A deletion that goes astray: the only entry of a root slot goes when another
      key of the same root is deleted. */
  lemma DelAstray(mug: Noun -> Hash, had: Line, key: Noun, sots: seq<Slot>)
    requires |sots| == ROOTS && sots[Root(mug, key)] == Leaf(had) && had.kev.key != key
    ensures Look(mug, sots, key) == None && VictimOf(mug, sots, key) == Some(had.kev.key)
    ensures Del(sots[Root(mug, key)], key, 5, Rest(mug(key), 5)) == (Null, true)
  {
    hide Frag, Rest, Root;
  }

  /** A step under an arm at hash zero, where the node has no slot for it. */
  lemma StepMisses(x: Line, y: Line, inx: nat)
    ensures var slot := Node(6, [Leaf(x), Leaf(y)]);
        TrimSlot(slot, 5, 0, Arm(0, inx)) == (slot, Arm(Skip(0, 4), inx), Miss)
  {
    hide Skip;
    assert Frag(0, 4) == 0 && !Bit(6, 0);
  }

  /** Two keys whose hashes part at the second level of the first root, away from
      where the arm starts. */
  function Spread(n: Noun): Hash {
    if n == Atom(1) then 0x10_0000 else 0x20_0000
  }

  lemma SpreadPaths(x: Line, y: Line)
    requires x.kev.key == Atom(1) && y.kev.key == Atom(2)
    ensures Root(Spread, Atom(1)) == 0 == Root(Spread, Atom(2))
    ensures PutRoot(Spread, Null, x).0 == Leaf(x) && PutRoot(Spread, Leaf(x), y).0 == Node(6, [Leaf(x), Leaf(y)])
  {
    assert Frag(0x10_0000, 4) == 1 && Frag(0x20_0000, 4) == 2;
    assert Rest(0x10_0000, 5) == 0x10_0000 && Rest(0x20_0000, 5) == 0x20_0000;
    assert SetBit(SetBit(0, 1), 2) == 6;
  }

  /** A miss that is counted: a table with a bound of one entry, as the code has it,
      takes a second, evicts nothing, and counts one entry less. */
  method MissCounted() returns (t: Table, ret: Trim)
    ensures fresh(t) && fresh(t.sots) && t.Valid() && ret == Miss && t.max == 1 && !t.told
    ensures |t.contents| == 2 && t.use == 1 && t.lost == 1
  {
    hide *;
    TwoEntries();
    var x, y := Line(Kev(Atom(1), Atom(7)), true), Line(Kev(Atom(2), Atom(8)), true);
    t := new Table(Spread, 1, false);
    SpreadPaths(x, y);
    FilledIs(t, Atom(1), Atom(7));
    assert t.sots[..][0] == Null;
    ret := t.PutGet(Atom(1), Atom(7));
    LeftMiss(map[][Atom(1) := Atom(7)]);
    assert t.sots[..][0] == Leaf(x);
    SweptMisses(t, x, y);
    LeftMiss(t.contents[Atom(2) := Atom(8)]);
    MissEnds(t);
    ret := t.PutGet(Atom(2), Atom(8));
  }

  lemma SweptMisses(t: Table, x: Line, y: Line)
    requires t.Valid() && t.sots[..][0] == Leaf(x) && t.arm == Arm(0, 0) && t.mug == Spread && !t.told
    requires x.kev.key == Atom(1) && y == Line(Kev(Atom(2), Atom(8)), true)
    ensures t.sots.Length == ROOTS && t.Swept(Atom(2), Atom(8)) == Miss && t.Ends(Miss)
  {
    hide *;
    FilledIs(t, Atom(2), Atom(8));
    SpreadPaths(x, y);
    ArmZero(Node(6, [Leaf(x), Leaf(y)]));
    StepMisses(x, y, 0);
    MissEnds(t);
    SweptIs(t, Atom(2), Atom(8));
  }

  lemma LeftCount(was: map<Noun, Noun>, ret: Trim)
    requires ret.Gone? ==> ret.kev.key in was
    ensures |Left(was, ret)| == |was| - (if ret.Gone? then 1 else 0)
  {
    if ret.Gone? {
      DropKey(was, ret.kev.key);
    }
  }

  lemma TableValid(t: Table)
    requires t.sots.Length == ROOTS && Holds(t.mug, t.sots[..], t.contents) && t.arm.mug < HASHES
    requires Holding(t.use, |t.contents| - t.lost) && (t.told ==> t.lost == 0)
    ensures t.Valid()
  {
  }

  lemma FilledIs(t: Table, key: Noun, val: Noun)
    requires t.Valid()
    ensures t.sots.Length == ROOTS
    ensures var i := Root(t.mug, key);
            t.Filled(key, val) == t.sots[..][i := PutRoot(t.mug, t.sots[..][i], Line(Kev(key, val), true)).0]
  {
  }

  lemma TwoEntries()
    ensures var one: map<Noun, Noun> := map[][Atom(1) := Atom(7)]; Atom(2) !in one && |one[Atom(2) := Atom(8)]| == 2
    ensures Up(0) == 1 && Up(1) == 2
  {
    StoredSize(map[], Atom(1), Atom(7));
    StoredSize(map[Atom(1) := Atom(7)], Atom(2), Atom(8));
  }

  lemma MissEnds(t: Table)
    ensures t.Ends(Miss) <==> !t.told
    ensures forall ret :: t.Ends(ret) <==> ret.Gone? || (ret == Miss && !t.told)
  {
  }

  lemma LeftMiss(contents: map<Noun, Noun>)
    ensures Left(contents, Miss) == contents == Left(contents, Nothing)
  {
  }

  lemma ArmZero(slot: Slot)
    requires slot != Null
    ensures ArmRoot(Arm(0, 0)) == 0 && StepRoot(slot, Arm(0, 0)) == TrimSlot(slot, 5, 0, Arm(0, 0))
  {
    assert Rest(0, 5) == 0 && Frag(0, 5) == 0;
  }
}
