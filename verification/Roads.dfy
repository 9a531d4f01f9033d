/** Nested roads: each is cut from the open space of the one around it, and grows
    the other way. */
module Roads {
  import opened Nouns
  import Counts
  import Heaps
  import Take

  const PAGE := 4096
  /** A road: its heap runs from `rut` to `hat` and its stack from `mat` to `cap`;
      `ear` is the cap from before a road was opened on top of the stack. Which way
      it grows is read off the cap and the hat. */
  datatype Lane = Lane(rut: nat, hat: nat, cap: nat, mat: nat, ear: nat) {
    predicate North() { cap > hat }

    predicate Wf() {
      if North() then rut <= hat && cap <= mat else mat <= cap < hat <= rut
    }

    function Heap(): int { if North() then hat - rut else rut - hat }

    function Temp(): int { if North() then mat - cap else cap - mat }

    function Open(): int { if North() then cap - hat else hat - cap }

    function Full(): int { if North() then mat - rut else rut - mat }

    function Low(): nat { if North() then rut else mat }

    function High(): nat { if North() then mat else rut }

    predicate InHeap(p: nat) { if North() then rut <= p < hat else hat <= p < rut }

    predicate InStack(p: nat) { if North() then cap <= p < mat else mat <= p < cap }

    predicate InOpen(p: nat) { if North() then hat <= p < cap else cap <= p < hat }

    /** The road as the boxes in memory see it. */
    function Sees(): Heaps.Road { Heaps.Road(North(), rut, cap, mat) }

    function SideOf(p: nat): Heaps.Side { Sees().SideOf(p) }
  }

  /** Words are heap, stack, or open. */
  lemma Measures(r: Lane, p: nat)
    requires r.Wf()
    ensures r.Heap() + r.Temp() + r.Open() == r.Full() && r.Heap() >= 0 && r.Temp() >= 0 && r.Open() > 0
    ensures r.Low() <= p < r.High() <==> r.InHeap(p) || r.InStack(p) || r.InOpen(p)
    ensures !(r.InHeap(p) && r.InStack(p)) && !(r.InHeap(p) && r.InOpen(p)) && !(r.InStack(p) && r.InOpen(p))
    ensures (r.SideOf(p) == Heaps.Junior <==> r.InStack(p))
        && (r.SideOf(p) == Heaps.Normal <==> r.InHeap(p) || r.InOpen(p))
  {
  }

  function AlignUp(p: nat): nat {
    (p + (PAGE - 1)) / PAGE * PAGE
  }

  function AlignDown(p: nat): nat {
    p / PAGE * PAGE
  }

  /** A child lies in its parent's open space, and grows the other way. */
  predicate Inside(child: Lane, parent: Lane) {
    && child.Wf() && parent.Wf() && child.North() != parent.North()
    && (if parent.North() then parent.hat <= child.Low() && child.High() <= parent.cap
        else parent.cap <= child.Low() && child.High() <= parent.hat)
  }

  /** The stack of a parent reaches from its cap back to at least its ear. */
  predicate Eared(parent: Lane) {
    if parent.North() then parent.cap <= parent.ear <= parent.mat else parent.mat <= parent.ear <= parent.cap
  }

  /** The roads that are open, outermost first. */
  ghost predicate Nested(lanes: seq<Lane>) {
    && |lanes| > 0 && (forall i :: 0 <= i < |lanes| ==> lanes[i].Wf())
    && (forall i :: 0 <= i < |lanes| - 1 ==> Inside(lanes[i + 1], lanes[i]) && Eared(lanes[i]))
  }

  lemma Level(lanes: seq<Lane>, i: nat)
    requires Nested(lanes) && i + 1 < |lanes|
    ensures Inside(lanes[i + 1], lanes[i]) && Eared(lanes[i])
  {
  }

  lemma LastLevel(lanes: seq<Lane>)
    requires Nested(lanes) && |lanes| > 1
    ensures Inside(lanes[|lanes| - 1], lanes[|lanes| - 2]) && Eared(lanes[|lanes| - 2])
  {
    Level(lanes, |lanes| - 2);
  }

  /** A road that keeps its bounds and its direction is still inside its parent. */
  lemma NestedLast(lanes: seq<Lane>, r: Lane)
    requires Nested(lanes) && r.Wf()
    requires var p := lanes[|lanes| - 1]; r.North() == p.North() && r.Low() == p.Low() && r.High() == p.High()
    ensures Nested(lanes[|lanes| - 1 := r])
  {
    var now := lanes[|lanes| - 1 := r];
    forall i | 0 <= i < |now| - 1
      ensures Inside(now[i + 1], now[i]) && Eared(now[i])
    {
      assert Inside(lanes[i + 1], lanes[i]) && Eared(lanes[i]);
    }
  }

  lemma NestedPop(lanes: seq<Lane>)
    requires Nested(lanes) && |lanes| > 1
    ensures Nested(lanes[..|lanes| - 1])
  {
    var now := lanes[..|lanes| - 1];
    forall i | 0 <= i < |now| - 1
      ensures Inside(now[i + 1], now[i]) && Eared(now[i])
    {
      assert Inside(lanes[i + 1], lanes[i]) && Eared(lanes[i]);
    }
  }

  /** A road once the road inside it has been left: what was on the child's heap
      is on its stack. */
  function Under(c: Lane, p: Lane): Lane {
    p.(cap := c.hat)
  }

  lemma UnderIs(c: Lane, p: Lane)
    requires Inside(c, p) && Eared(p)
    ensures var r := Under(c, p);
            && r.Wf() && r.North() == p.North() && r.Low() == p.Low() && r.High() == p.High() && Eared(r)
            && (forall q: nat :: c.InHeap(q) ==> r.InStack(q) && r.SideOf(q) == Heaps.Junior)
            && (forall q: nat :: p.InHeap(q) ==> r.InHeap(q) && r.SideOf(q) == Heaps.Normal)
  {
  }

  /** That road once the product is on its heap and its stack is popped. */
  function Loved(c: Lane, p: Lane, words: nat): Lane
    requires p.North() || words <= p.hat
  {
    p.(hat := if p.North() then p.hat + words else p.hat - words, cap := p.ear, ear := 0)
  }

  /** The parent as it was when the road was opened, but for its heap, which is
      longer by `words`; its stack shares no word with the road that is gone. */
  ghost predicate IsLoved(c: Lane, p: Lane, r: Lane, words: nat) {
    && r == p.(hat := r.hat, cap := p.ear, ear := 0) && r.North() == p.North()
    && (if p.North() then r.hat == p.hat + words else r.hat + words == p.hat)
    && forall q: nat :: c.Low() <= q < c.High() ==> !r.InStack(q)
  }

  lemma LovedIs(c: Lane, p: Lane, words: nat)
    requires Inside(c, p) && Eared(p) && words < Under(c, p).Open()
    ensures p.North() || words <= p.hat
    ensures var r := Loved(c, p, words);
            r.Wf() && r.North() == p.North() && r.Low() == p.Low() && r.High() == p.High() && IsLoved(c, p, r, words)
  {
    UnderIs(c, p);
  }

  /** However deep, a road's region is in the open space of every road around it:
      it shares no word with their heaps and stacks. Directions alternate. */
  lemma {:induction false} Disjoint(lanes: seq<Lane>, i: nat, j: nat, p: nat)
    requires Nested(lanes) && i < j < |lanes| && lanes[j].Low() <= p < lanes[j].High()
    ensures lanes[i].InOpen(p) && !lanes[i].InHeap(p) && !lanes[i].InStack(p)
    ensures lanes[j].North() == if (j - i) % 2 == 0 then lanes[i].North() else !lanes[i].North()
    decreases j - i
  {
    Level(lanes, j - 1);
    if i < j - 1 {
      Disjoint(lanes, i, j - 1, p);
    }
  }

  /** A page-aligned region in a road's open space, with `size` words left on its
      stack side and `pad` on its heap side. */
  predicate Room(r: Lane, size: nat, pad: nat, lo: nat, hi: nat) {
    && lo < hi && lo % PAGE == 0 && hi % PAGE == 0
    && if r.North() then r.hat + pad <= lo && hi + size <= r.cap else r.cap + size <= lo && hi + pad <= r.hat
  }

  /** Whole pages compare as their numbers do. */
  lemma PagesOrder(m: int, p: int, n: int)
    ensures m * 4096 <= p < n * 4096 ==> m < n
  {
  }

  lemma RoundUp(p: nat) returns (m: int)
    ensures AlignUp(p) == m * 4096 && (m - 1) * 4096 < p <= m * 4096
  {
    m := (p + (PAGE - 1)) / PAGE;
  }

  lemma RoundDown(p: nat) returns (m: int)
    ensures AlignDown(p) == m * 4096 && m * 4096 <= p < (m + 1) * 4096
  {
    m := p / PAGE;
  }

  /** The aligned bounds are the widest. */
  lemma Widest(p: nat, n: nat)
    ensures AlignUp(p) % PAGE == 0 && AlignDown(p) % PAGE == 0
    ensures (p <= n * PAGE ==> AlignUp(p) <= n * PAGE) && (n * PAGE <= p ==> n * PAGE <= AlignDown(p))
  {
    var up: int := RoundUp(p);
    var down: int := RoundDown(p);
    hide AlignUp, AlignDown;
    PagesOrder(up - 1, n * 4096 - 1, n);
    PagesOrder(n, p, down + 1);
  }

  ghost predicate HasRoom(r: Lane, size: nat, pad: nat) {
    exists lo: nat, hi: nat :: Room(r, size, pad, lo, hi)
  }

  /** Of all such regions, the one from `lo` to `hi` holds the others. */
  ghost predicate WidestRoom(r: Lane, size: nat, pad: nat, lo: nat, hi: nat) {
    Room(r, size, pad, lo, hi) && forall l: nat, h: nat :: Room(r, size, pad, l, h) ==> lo <= l && h <= hi
  }

  lemma RoomIs(r: Lane, size: nat, pad: nat, bot: nat, top: nat)
    requires if r.North() then bot == r.hat + pad && top + size == r.cap else bot == r.cap + size && top + pad == r.hat
    ensures AlignUp(bot) < AlignDown(top) <==> HasRoom(r, size, pad)
    ensures HasRoom(r, size, pad) ==> WidestRoom(r, size, pad, AlignUp(bot), AlignDown(top))
    ensures bot <= AlignUp(bot) && AlignDown(top) <= top
  {
    AlignNear(bot);
    AlignNear(top);
    Widest(bot, 0);
    Widest(top, 0);
    hide AlignUp, AlignDown;
    if AlignUp(bot) < AlignDown(top) {
      assert Room(r, size, pad, AlignUp(bot), AlignDown(top));
    }
    forall lo: nat, hi: nat | Room(r, size, pad, lo, hi)
      ensures AlignUp(bot) <= lo && hi <= AlignDown(top)
    {
      assert lo == lo / PAGE * PAGE && hi == hi / PAGE * PAGE;
      Widest(bot, lo / PAGE);
      Widest(top, hi / PAGE);
    }
  }

  lemma NoRoom(r: Lane, size: nat, pad: nat)
    requires if r.North() then r.hat + size >= r.cap else r.cap + size >= r.hat || r.hat < pad
    ensures !HasRoom(r, size, pad)
  {
  }

  class Stack {
    /** Words pushed for the struct of a new road, with room to align it. */
    const size: nat
    var lanes: seq<Lane>

    ghost predicate Valid()
      reads this
    {
      Nested(lanes)
    }

    constructor (home: Lane, size: nat)
      requires home.Wf()
      ensures Valid() && lanes == [home] && this.size == size
    {
      this.size, lanes := size, [home];
    }

    /** The current road's heap grows; fails where it would meet the stack. */
    method Grow(words: nat) returns (ok: bool)
      requires Valid()
      modifies this
      ensures Valid() && |lanes| == |old(lanes)| && forall i :: 0 <= i < |lanes| - 1 ==> lanes[i] == old(lanes)[i]
      ensures ok <==> words < old(lanes)[|lanes| - 1].Open()
      ensures var r := old(lanes)[|lanes| - 1];
              lanes[|lanes| - 1] == if !ok then r else if r.North() then r.(hat := r.hat + words)
                  else r.(hat := r.hat - words)
    {
      var n := |lanes| - 1;
      var r := lanes[n];
      if r.North() {
        ok := r.hat + words < r.cap;
        lanes := lanes[n := if ok then r.(hat := r.hat + words) else r];
      } else {
        ok := r.cap + words < r.hat;
        lanes := lanes[n := if ok then r.(hat := r.hat - words) else r];
      }
    }

    /** Open a road in the current one, with room for its heap to grow by `pad`
        when the product is copied out; fails where there is no room. */
    method Hate(pad: nat) returns (ok: bool)
      requires Valid()
      modifies this
      ensures Valid() && (!ok ==> lanes == old(lanes))
      ensures ok <==> HasRoom(old(lanes)[|old(lanes)| - 1], size, pad)
      ensures ok ==> |lanes| == |old(lanes)| + 1 && forall i :: 0 <= i < |old(lanes)| - 1 ==> lanes[i] == old(lanes)[i]
      ensures ok ==> var r, p, c := old(lanes)[|old(lanes)| - 1], lanes[|lanes| - 2], lanes[|lanes| - 1];
                && p == r.(cap := p.cap, ear := r.cap) && p.North() == r.North() && p.Temp() == r.Temp() + size
                && c.North() != p.North() && c.hat == c.rut && c.cap == c.mat && c.ear == 0
                && WidestRoom(r, size, pad, c.Low(), c.High())
    {
      hide HasRoom, WidestRoom, AlignUp, AlignDown;
      var n := |lanes| - 1;
      var r := lanes[n];
      if r.North() {
        if r.hat + size >= r.cap {
          NoRoom(r, size, pad);
          return false;
        }
        var p := r.(cap := r.cap - size, ear := r.cap);
        var bot, top := AlignUp(p.hat + pad), AlignDown(p.cap);
        RoomIs(r, size, pad, p.hat + pad, p.cap);
        if bot >= top {
          return false;
        }
        ok := true;
        Open(p, Lane(top, top, bot, bot, 0));
      } else {
        if r.cap + size >= r.hat {
          NoRoom(r, size, pad);
          return false;
        }
        var p := r.(cap := r.cap + size, ear := r.cap);
        if p.hat < pad {
          NoRoom(r, size, pad);
          return false;
        }
        var bot, top := AlignUp(p.cap), AlignDown(p.hat - pad);
        RoomIs(r, size, pad, p.cap, p.hat - pad);
        if bot >= top {
          return false;
        }
        ok := true;
        Open(p, Lane(bot, bot, top, top, 0));
      }
    }

    method Open(p: Lane, c: Lane)
      requires Valid() && Inside(c, p) && Eared(p)
      requires |lanes| > 1 ==> Inside(p, lanes[|lanes| - 2])
      modifies this
      ensures Valid() && lanes == old(lanes)[|old(lanes)| - 1 := p] + [c]
    {
      var n := |lanes| - 1;
      ghost var was := lanes;
      lanes := lanes[n := p] + [c];
      forall i | 0 <= i < |lanes| - 1
        ensures Inside(lanes[i + 1], lanes[i]) && Eared(lanes[i])
      {
        if i < n - 1 {
          assert Inside(was[i + 1], was[i]) && Eared(was[i]);
        }
      }
    }

    /** Leave the current road: its heap is now the top of its parent's stack. */
    method Fall()
      requires Valid() && |lanes| > 1
      modifies this
      ensures Valid() && |lanes| == |old(lanes)| - 1 && forall i :: 0 <= i < |lanes| - 1 ==> lanes[i] == old(lanes)[i]
      ensures var c, p, r := old(lanes)[|lanes|], old(lanes)[|lanes| - 1], lanes[|lanes| - 1];
              && r == p.(cap := c.hat) && r.North() == p.North() && Eared(r)
              && (forall q: nat :: c.InHeap(q) ==> r.SideOf(q) == Heaps.Junior)
              && (forall q: nat :: p.InHeap(q) ==> r.InHeap(q) && r.SideOf(q) == Heaps.Normal)
    {
      hide Nested, Inside, Eared;
      ghost var was := lanes;
      var n := |lanes| - 1;
      Level(lanes, n - 1);
      UnderIs(lanes[n], lanes[n - 1]);
      NestedPop(lanes);
      NestedLast(lanes[..n], Under(lanes[n], lanes[n - 1]));
      lanes := lanes[..n][n - 1 := Under(lanes[n], lanes[n - 1])];
    }

    /** After a fall: the product takes `words` of the parent's heap, and the stack
        is popped back to the ear. */
    method Pop(words: nat, ghost c: Lane, ghost p: Lane) returns (ok: bool)
      requires Valid() && |lanes| > 0 && Inside(c, p) && Eared(p) && lanes[|lanes| - 1] == Under(c, p)
      modifies this
      ensures Valid() && |lanes| == |old(lanes)| && forall i :: 0 <= i < |lanes| - 1 ==> lanes[i] == old(lanes)[i]
      ensures ok <==> words < Under(c, p).Open()
      ensures ok ==> p.North() || words <= p.hat
      ensures lanes[|lanes| - 1] == if ok then Loved(c, p, words) else Under(c, p)
    {
      hide Nested, Inside, Eared;
      var n := |lanes| - 1;
      UnderIs(c, p);
      ok := Grow(words);
      if ok {
        LovedIs(c, p, words);
        NestedLast(lanes, Loved(c, p, words));
        lanes := lanes[n := lanes[n].(cap := lanes[n].ear, ear := 0)];
      }
    }

    /** Return a product from a road: fall, take it, and pop what is left of the
        child, from the fallen cap back to the ear. `mem` is memory as the fallen
        road sees it, `out` as the parent does afterwards. The parent's heap has grown
        over the copies, by as little as will hold them. */
    method Love(mem: Counts.Memory, veb: Heaps.Ref, ghost roots: multiset<nat>, ghost n: Noun)
      returns (pro: Option<Heaps.Ref>, out: Counts.Memory)
      requires Valid() && |lanes| > 1 && mem.road == Under(lanes[|lanes| - 1], lanes[|lanes| - 2]).Sees()
      requires Take.Ready(mem.road, mem.heap, roots) && Heaps.Fits(mem.heap, veb) && Heaps.Denotes(mem.heap, veb, n)
      modifies this, mem`heap
      ensures Valid() && |lanes| == |old(lanes)| - 1 && forall i :: 0 <= i < |lanes| - 1 ==> lanes[i] == old(lanes)[i]
      ensures var u := old(Under(lanes[|lanes| - 1], lanes[|lanes| - 2]));
              pro.None? ==> Counts.Spent(mem.road, mem.heap) || (u.Wf() && Reach(u, mem.heap, |mem.heap|) == u.Open())
      ensures pro.Some? ==>
        var c, p, r := old(lanes)[|lanes|], old(lanes)[|lanes| - 1], lanes[|lanes| - 1];
        && Under(c, p).Wf() && IsLoved(c, p, r, Reach(Under(c, p), mem.heap, |mem.heap|))
        && Take.Taken(mem.road, old(mem.heap), mem.heap) && OnHeap(r, out.heap)
        && out.road == r.Sees() && out.heap == Popped(Under(c, p), r, mem.heap)
        && Heaps.Sound(out.road, out.heap, roots + Heaps.Counted(out.road, pro.value))
        && Heaps.Denotes(out.heap, pro.value, n) && Heaps.RefSide(out.road, pro.value) != Heaps.Junior
      ensures pro.Some? ==> |out.heap| == |mem.heap| && forall q :: 0 <= q < |mem.heap| ==>
          var fallen := Under(old(lanes)[|lanes|], old(lanes)[|lanes| - 1]);
          out.heap[q] == if fallen.InStack(q) && !lanes[|lanes| - 1].InStack(q) then Heaps.Free else mem.heap[q]
    {
      hide Nested, Inside, Eared, IsLoved, Shorter, Loved, Reach, OnHeap;
      hide Take.Took, Take.Taken, Take.Ready, Heaps.Sound, Heaps.Denotes, Counts.Spent;
      var c, p := lanes[|lanes| - 1], lanes[|lanes| - 2];
      LastLevel(lanes);
      UnderIs(c, p);
      Fall();
      out := mem;
      pro := Take.TakeNoun(mem, veb, roots, n);
      if pro.None? {
        return;
      }
      var words := Reach(Under(c, p), mem.heap, |mem.heap|);
      var ok := Pop(words, c, p);
      if !ok {
        return None, mem;
      }
      LovedIs(c, p, words);
      LovedShorter(c, p, words);
      LovedOnHeap(c, p, mem.heap);
      ProductOutside(Under(c, p), lanes[|lanes| - 1], mem.heap, roots, pro.value, n);
      out := new Counts.Memory(lanes[|lanes| - 1].Sees(), Popped(Under(c, p), lanes[|lanes| - 1], mem.heap));
    }
  }

  /** How far past the hat an open address is, counting it. */
  function Past(r: Lane, p: nat): nat
    requires r.InOpen(p)
  {
    if r.North() then p + 1 - r.hat else r.hat - p
  }

  /** How many words a road's heap must grow by to hold the boxes in its open space. */
  function Reach(r: Lane, heap: seq<Heaps.Box>, k: nat): (words: nat)
    requires r.Wf() && k <= |heap|
    ensures words <= r.Open()
  {
    if k == 0 then 0
    else
      var words := Reach(r, heap, k - 1);
      if !heap[k - 1].Free? && r.InOpen(k - 1) && Past(r, k - 1) > words then Past(r, k - 1) else words
  }

  lemma {:induction false} ReachHolds(r: Lane, heap: seq<Heaps.Box>, k: nat, p: nat)
    requires r.Wf() && p < k <= |heap| && !heap[p].Free? && r.InOpen(p)
    ensures Past(r, p) <= Reach(r, heap, k)
  {
    if p < k - 1 {
      ReachHolds(r, heap, k - 1, p);
    }
  }

  /** Growing by less leaves one of them out. */
  lemma {:induction false} ReachLeast(r: Lane, heap: seq<Heaps.Box>, k: nat, words: nat)
    requires r.Wf() && k <= |heap| && forall p :: 0 <= p < k && !heap[p].Free? && r.InOpen(p) ==> Past(r, p) <= words
    ensures Reach(r, heap, k) <= words
  {
    if k > 0 {
      ReachLeast(r, heap, k - 1, words);
    }
  }

  /** Every box that a road sees as its own is on its heap. */
  ghost predicate OnHeap(r: Lane, heap: seq<Heaps.Box>) {
    forall p :: 0 <= p < |heap| && !heap[p].Free? && r.SideOf(p) == Heaps.Normal ==> r.InHeap(p)
  }

  /** Grown over the copies, the parent has every box of its own on its heap. */
  lemma LovedOnHeap(c: Lane, p: Lane, heap: seq<Heaps.Box>)
    requires Inside(c, p) && Eared(p) && Under(c, p).Wf() && Reach(Under(c, p), heap, |heap|) < Under(c, p).Open()
    ensures p.North() || Reach(Under(c, p), heap, |heap|) <= p.hat
    ensures var r := Loved(c, p, Reach(Under(c, p), heap, |heap|)); OnHeap(r, Popped(Under(c, p), r, heap))
  {
    hide Reach;
    var u, words := Under(c, p), Reach(Under(c, p), heap, |heap|);
    UnderIs(c, p);
    LovedIs(c, p, words);
    var r := Loved(c, p, words);
    forall q | 0 <= q < |heap| && !Popped(u, r, heap)[q].Free? && r.SideOf(q) == Heaps.Normal
      ensures r.InHeap(q)
    {
      if u.InOpen(q) {
        ReachHolds(u, heap, |heap|, q);
      }
    }
  }

  /** Nothing that a reference reaches is on a road's stack. */
  predicate OffStack(r: Lane, heap: seq<Heaps.Box>, ref: Heaps.Ref, n: Noun)
    requires Heaps.Denotes(heap, ref, n)
    decreases n
  {
    && (ref.Cat? || !r.InStack(ref.p))
    && (n.Cell? ==> OffStack(r, heap, heap[ref.p].hed, n.h) && OffStack(r, heap, heap[ref.p].tel, n.t))
  }

  /** Popping a stack from `was` to `now`: what was on the part that is popped is
      gone. */
  function Popped(was: Lane, now: Lane, heap: seq<Heaps.Box>): (left: seq<Heaps.Box>)
    ensures |left| == |heap|
    ensures forall p :: 0 <= p < |heap| ==> left[p] == if was.InStack(p) && !now.InStack(p) then Heaps.Free else heap[p]
  {
    seq(|heap|, p requires 0 <= p < |heap| => if was.InStack(p) && !now.InStack(p) then Heaps.Free else heap[p])
  }

  /** The same region and direction, with less on the stack. */
  predicate Shorter(was: Lane, now: Lane) {
    && was.Wf() && now.Wf() && was.North() == now.North() && was.rut == now.rut && was.mat == now.mat
    && (if was.North() then was.cap <= now.cap else now.cap <= was.cap)
  }

  lemma LovedShorter(c: Lane, p: Lane, words: nat)
    requires Inside(c, p) && Eared(p) && words < Under(c, p).Open()
    ensures (p.North() || words <= p.hat) && Shorter(Under(c, p), Loved(c, p, words))
  {
    UnderIs(c, p);
    LovedIs(c, p, words);
  }

  lemma {:induction false} PoppedFrom(was: Lane, now: Lane, heap: seq<Heaps.Box>, p: nat, k: nat)
    requires Shorter(was, now) && k <= |heap|
    ensures Heaps.Incoming(now.Sees(), Popped(was, now, heap), p, k) == Heaps.Incoming(was.Sees(), heap, p, k)
  {
    if k > 0 {
      PoppedFrom(was, now, heap, p, k - 1);
    }
  }

  lemma PoppedSettled(was: Lane, now: Lane, heap: seq<Heaps.Box>, q: nat)
    requires Shorter(was, now) && q < |heap| && Heaps.Settled(was.Sees(), heap, q)
    ensures Heaps.Settled(now.Sees(), Popped(was, now, heap), q)
  {
  }

  /** What is popped takes no count with it: if the counts of the road were exact
      before, they are exact after. */
  lemma PoppedSound(was: Lane, now: Lane, heap: seq<Heaps.Box>, roots: multiset<nat>)
    requires Shorter(was, now) && Heaps.Sound(was.Sees(), heap, roots)
    ensures Heaps.Sound(now.Sees(), Popped(was, now, heap), roots)
  {
    hide Heaps.Incoming, Heaps.Settled;
    forall q | 0 <= q < |heap|
      ensures Heaps.Settled(now.Sees(), Popped(was, now, heap), q)
    {
      PoppedSettled(was, now, heap, q);
    }
    forall p | 0 <= p < |heap|
      ensures Heaps.Exact(now.Sees(), Popped(was, now, heap), roots, p)
    {
      assert Heaps.Exact(was.Sees(), heap, roots, p);
      PoppedFrom(was, now, heap, p, |heap|);
    }
  }

  /** What reaches no junior denotes the same once the stack is popped. */
  lemma {:induction false} PoppedDenotes(was: Lane, now: Lane, heap: seq<Heaps.Box>, ref: Heaps.Ref, n: Noun)
    requires Shorter(was, now) && Heaps.Denotes(heap, ref, n) && Take.NoJunior(was.Sees(), heap, ref, n)
    ensures OffStack(was, heap, ref, n) && Heaps.Denotes(Popped(was, now, heap), ref, n)
    decreases n
  {
    if n.Cell? {
      PoppedDenotes(was, now, heap, heap[ref.p].hed, n.h);
      PoppedDenotes(was, now, heap, heap[ref.p].tel, n.t);
    }
  }

  /** Once a product has been taken, the whole stack above the ear can go: the
      product reaches nothing on it, denotes what it did, and counts stay exact. */
  lemma ProductOutside(was: Lane, now: Lane, heap: seq<Heaps.Box>, roots: multiset<nat>, ref: Heaps.Ref, n: Noun)
    requires Shorter(was, now) && Take.Took(was.Sees(), heap, roots, ref, n)
    ensures Heaps.Denotes(heap, ref, n) && OffStack(was, heap, ref, n)
    ensures var left := Popped(was, now, heap);
            && Heaps.Sound(now.Sees(), left, roots + Heaps.Counted(now.Sees(), ref))
            && Heaps.Denotes(left, ref, n) && Heaps.RefSide(now.Sees(), ref) != Heaps.Junior
  {
    var road, all := was.Sees(), roots + Heaps.Counted(was.Sees(), ref);
    Take.TookFacts(road, heap, roots, ref, n);
    Take.TookNoJunior(road, heap, all, ref, n);
    Take.IsLayered(road, heap, all);
    PoppedDenotes(was, now, heap, ref, n);
    PoppedSound(was, now, heap, all);
    assert Heaps.RefSide(now.Sees(), ref) == Heaps.RefSide(road, ref);
  }

  lemma AlignNear(p: nat)
    ensures p <= AlignUp(p) && AlignDown(p) <= p
  {
  }
}
