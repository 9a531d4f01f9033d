/** Gaining and losing references: counts stay exact, and what is freed is what
    can no longer be reached. */
module Counts {
  import opened Nouns
  import opened Heaps

  const USE_MAX := 0x7fff_ffff

  lemma GainSound(road: Road, heap: seq<Box>, roots: multiset<nat>, p: nat)
    requires Sound(road, heap, roots) && p < |heap| && road.SideOf(p) == Normal && !heap[p].Free?
    ensures Sound(road, heap[p := heap[p].(use := heap[p].use + 1)], roots + multiset{p})
    ensures Grown(heap, heap[p := heap[p].(use := heap[p].use + 1)])
  {
    var box := heap[p].(use := heap[p].use + 1);
    var now := heap[p := box];
    hide Incoming;
    forall q | 0 <= q < |now|
      ensures Settled(road, now, q) && Exact(road, now, roots + multiset{p}, q)
    {
      assert Settled(road, heap, q) && Exact(road, heap, roots, q);
      IncomingUpdate(road, heap, p, box, q, |heap|);
    }
  }

  /** A count above one goes down. */
  lemma LoseSound(road: Road, heap: seq<Box>, roots: multiset<nat>, p: nat)
    requires Sound(road, heap, roots + multiset{p}) && p < |heap| && !heap[p].Free? && heap[p].use > 1
    ensures Sound(road, heap[p := heap[p].(use := heap[p].use - 1)], roots)
    ensures Grown(heap, heap[p := heap[p].(use := heap[p].use - 1)])
  {
    hide Incoming, From;
    var box := heap[p].(use := heap[p].use - 1);
    var now := heap[p := box];
    assert forall r :: r in roots ==> r in roots + multiset{p};
    forall q | 0 <= q < |now|
      ensures Settled(road, now, q) && Exact(road, now, roots, q)
    {
      assert Settled(road, heap, q) && Exact(road, heap, roots + multiset{p}, q);
      IncomingUpdate(road, heap, p, box, q, |heap|);
      FromUse(road, heap, p, box, q);
    }
  }

  lemma FromUse(road: Road, heap: seq<Box>, p: nat, box: Box, q: nat)
    requires p < |heap| && !heap[p].Free? && !box.Free? && box == heap[p].(use := box.use) && box.Pair? == heap[p].Pair?
    ensures From(road, heap[p := box], p, q) == From(road, heap, p, q)
  {
  }

  /** The last reference to a box: no cell refers to it. */
  lemma LastRef(road: Road, heap: seq<Box>, roots: multiset<nat>, p: nat)
    requires Sound(road, heap, roots + multiset{p}) && p < |heap| && road.SideOf(p) == Normal && !heap[p].Free?
        && heap[p].use == 1
    ensures Incoming(road, heap, p, |heap|) == 0 && roots[p] == 0
    ensures forall q :: 0 <= q < |heap| ==> From(road, heap, q, p) == 0
    ensures heap[p].Pair? ==> Settled(road, heap, p) && Settled(road, heap[p := Free], p)
  {
    hide Incoming;
    assert Exact(road, heap, roots + multiset{p}, p);
    forall q | 0 <= q < |heap|
      ensures From(road, heap, q, p) == 0
    {
      IncomingSome(road, heap, p, |heap|, q);
    }
    assert Settled(road, heap, p);
  }

  /** What a box refers to, counted. */
  function Loose(road: Road, box: Box): multiset<nat> {
    if box.Pair? then Counted(road, box.hed) + Counted(road, box.tel) else multiset{}
  }

  lemma LooseFrom(road: Road, heap: seq<Box>, p: nat, q: nat)
    requires p < |heap| && road.SideOf(p) == Normal && road.SideOf(q) == Normal
    ensures Loose(road, heap[p])[q] == From(road, heap, p, q)
  {
  }

  lemma SettledWithout(road: Road, heap: seq<Box>, p: nat, q: nat)
    requires p < |heap| && q < |heap| && Settled(road, heap, q) && From(road, heap, q, p) == 0
    ensures Settled(road, heap[p := Free], q)
  {
  }

  lemma ExactWithout(road: Road, heap: seq<Box>, roots: multiset<nat>, p: nat, q: nat)
    requires p < |heap| && q < |heap| && road.SideOf(p) == Normal && Exact(road, heap, roots + multiset{p}, q)
    ensures Exact(road, heap[p := Free], roots + Loose(road, heap[p]), q)
  {
    hide Incoming;
    if road.SideOf(q) == Normal && q != p {
      IncomingUpdate(road, heap, p, Free, q, |heap|);
      LooseFrom(road, heap, p, q);
    }
  }

  /** When the last reference to a box is lost and it is freed, its own references
      become loose, and counts are exact again. */
  lemma FreeSound(road: Road, heap: seq<Box>, roots: multiset<nat>, p: nat)
    requires Sound(road, heap, roots + multiset{p}) && p < |heap| && road.SideOf(p) == Normal && !heap[p].Free?
        && heap[p].use == 1
    ensures Sound(road, heap[p := Free], roots + Loose(road, heap[p]))
    ensures heap[p].Pair? ==> Fits(heap[p := Free], heap[p].hed) && Fits(heap[p := Free], heap[p].tel)
  {
    hide Incoming, From, Exact, Loose, Settled;
    LastRef(road, heap, roots, p);
    var now, loose := heap[p := Free], Loose(road, heap[p]);
    forall q | 0 <= q < |now|
      ensures Settled(road, now, q) && Exact(road, now, roots + loose, q)
    {
      SettledWithout(road, heap, p, q);
      ExactWithout(road, heap, roots, p, q);
    }
    forall r | r in roots + loose
      ensures r < |now| && road.SideOf(r) == Normal && !now[r].Free?
    {
      if r in roots {
        assert r in roots + multiset{p};
      } else {
        LooseFits(road, heap, p, r);
      }
    }
    if heap[p].Pair? {
      FieldsFit(road, heap, p);
    }
  }

  lemma FieldsFit(road: Road, heap: seq<Box>, p: nat)
    requires p < |heap| && road.SideOf(p) == Normal && heap[p].Pair? && Settled(road, heap, p)
        && From(road, heap, p, p) == 0
    ensures Fits(heap[p := Free], heap[p].hed) && Fits(heap[p := Free], heap[p].tel)
  {
  }

  lemma LooseFits(road: Road, heap: seq<Box>, p: nat, r: nat)
    requires p < |heap| && road.SideOf(p) == Normal && r in Loose(road, heap[p]) && Settled(road, heap, p)
        && From(road, heap, p, p) == 0
    ensures r < |heap| && r != p && road.SideOf(r) == Normal && !heap[r].Free?
  {
  }

  /** The heap without the cells that are being freed. */
  function Without(heap: seq<Box>, dying: set<nat>): (rest: seq<Box>)
    ensures |rest| == |heap| && forall p :: 0 <= p < |heap| ==> rest[p] == if p in dying then Free else heap[p]
  {
    seq(|heap|, p requires 0 <= p < |heap| => if p in dying then Free else heap[p])
  }

  function Allocated(heap: seq<Box>, k: nat): nat
    requires k <= |heap|
  {
    if k == 0 then 0 else Allocated(heap, k - 1) + (if heap[k - 1].Free? then 0 else 1)
  }

  lemma {:induction false} AllocatedFewer(heap: seq<Box>, p: nat, k: nat)
    requires p < |heap| && k <= |heap| && !heap[p].Free?
    ensures Allocated(heap[p := Free], k) == Allocated(heap, k) - (if p < k then 1 else 0)
  {
    if k > 0 {
      AllocatedFewer(heap, p, k - 1);
    }
  }

  lemma {:induction false} AllocatedLess(was: seq<Box>, now: seq<Box>, k: nat)
    requires k <= |was| == |now| && forall p :: 0 <= p < |was| && was[p].Free? ==> now[p].Free?
    ensures Allocated(now, k) <= Allocated(was, k)
  {
    if k > 0 {
      AllocatedLess(was, now, k - 1);
    }
  }

  /** Boxes of the road's heap may be freed; what stays keeps its contents. */
  predicate Shrunk(road: Road, was: seq<Box>, now: seq<Box>) {
    |was| == |now| && forall p :: 0 <= p < |was| ==>
      if road.SideOf(p) == Normal then now[p].Free? || (Kept(was[p], now[p]) && !was[p].Free?) else now[p] == was[p]
  }

  lemma ShrunkTrans(road: Road, a: seq<Box>, b: seq<Box>, c: seq<Box>)
    requires Shrunk(road, a, b) && Shrunk(road, b, c)
    ensures Shrunk(road, a, c)
  {
  }

  lemma ShrunkSelf(road: Road, heap: seq<Box>)
    requires forall p :: 0 <= p < |heap| && heap[p].Free? && road.SideOf(p) == Normal ==> heap[p].Free?
    ensures Shrunk(road, heap, heap)
  {
  }

  lemma UsePositive(road: Road, heap: seq<Box>, roots: multiset<nat>, p: nat)
    requires Sound(road, heap, roots) && p in roots
    ensures p < |heap| && road.SideOf(p) == Normal && !heap[p].Free? && heap[p].use > 0
  {
    assert Exact(road, heap, roots, p);
  }

  lemma NoCount(road: Road, roots: multiset<nat>, box: Box)
    ensures box.Pair? && box.tel.Cat? ==> roots + Counted(road, box.tel) == roots
  {
  }

  lemma CountedIs(road: Road, ref: Ref)
    requires !ref.Cat? && road.SideOf(ref.p) == Normal
    ensures Counted(road, ref) == multiset{ref.p}
  {
  }

  lemma WithoutMore(heap: seq<Box>, dying: set<nat>, p: nat)
    requires p < |heap|
    ensures Without(heap, dying)[p := Free] == Without(heap, dying + {p})
  {
  }

  /** A cell about to be freed: without it, what it refers to is loose. */
  lemma Detach(road: Road, heap: seq<Box>, roots: multiset<nat>, dying: set<nat>, dog: Ref)
    requires Sound(road, Without(heap, dying), roots + Counted(road, dog))
    requires !dog.Cat? && dog.p < |heap| && dog.p !in dying && road.SideOf(dog.p) == Normal && !heap[dog.p].Free?
        && heap[dog.p].use == 1
    ensures var p, box := dog.p, heap[dog.p]; var rest := if box.Pair? then roots + Counted(road, box.tel) else roots;
            && Sound(road, Without(heap, dying + {p}), if box.Pair? && !box.hed.Cat? then rest + Counted(road, box.hed)
                else rest)
            && (box.Pair? ==> Fits(Without(heap, dying + {p}), box.hed) && Fits(Without(heap, dying + {p}), box.tel))
            && Allocated(Without(heap, dying + {p}), |heap|) < Allocated(Without(heap, dying), |heap|)
  {
    hide *;
    var p, box := dog.p, heap[dog.p];
    CountedIs(road, dog);
    FreeSound(road, Without(heap, dying), roots, p);
    WithoutMore(heap, dying, p);
    AllocatedFewer(Without(heap, dying), p, |heap|);
    LooseRest(road, roots, box);
  }

  /** After the head has been lost the cell is freed. */
  lemma Detached(road: Road, was: seq<Box>, heap: seq<Box>, dying: set<nat>, p: nat)
    requires Shrunk(road, was, heap) && p < |was| && p !in dying && heap[p] == was[p] && !was[p].Free?
        && road.SideOf(p) == Normal
    ensures Without(heap[p := Free], dying) == Without(heap, dying + {p})
    ensures Shrunk(road, was, heap[p := Free])
    ensures Allocated(Without(heap[p := Free], dying), |heap|) < Allocated(Without(was, dying), |was|)
  {
    hide Allocated;
    AllocatedFewer(Without(was, dying), p, |was|);
    WithoutMore(was, dying, p);
    AllocatedLess(Without(was, dying + {p}), Without(heap, dying + {p}), |was|);
  }

  /** The tail's box is still there after the head has been lost. */
  lemma TailFits(road: Road, was: seq<Box>, heap: seq<Box>, roots: multiset<nat>, dying: set<nat>, ref: Ref)
    requires Shrunk(road, was, heap) && Fits(Without(was, dying), ref)
    requires Sound(road, Without(heap, dying), roots + Counted(road, ref))
    ensures Fits(Without(heap, dying), ref)
  {
    if RefSide(road, ref) == Normal && !ref.Cat? {
      assert ref.p in roots + Counted(road, ref);
    }
  }

  lemma LooseRest(road: Road, roots: multiset<nat>, box: Box)
    ensures var rest := if box.Pair? then roots + Counted(road, box.tel) else roots;
            roots + Loose(road, box) == if box.Pair? && !box.hed.Cat? then rest + Counted(road, box.hed) else rest
  {
  }

  /** No address of the road is free, or a count in it is full. */
  ghost predicate Spent(road: Road, heap: seq<Box>) {
    || (forall q :: 0 <= q < |heap| && road.SideOf(q) == Normal ==> !heap[q].Free?)
    || exists q :: 0 <= q < |heap| && road.SideOf(q) == Normal && !heap[q].Free? && heap[q].use == USE_MAX
  }

  class Memory {
    const road: Road
    var heap: seq<Box>

    constructor (road: Road, heap: seq<Box>)
      ensures this.road == road && this.heap == heap
    {
      this.road, this.heap := road, heap;
    }

    /** Count one more reference; fails when the count is full. */
    method GainUse(p: nat, ghost roots: multiset<nat>) returns (ok: bool)
      requires Sound(road, heap, roots) && p < |heap| && road.SideOf(p) == Normal && !heap[p].Free?
      modifies this`heap
      ensures ok <==> old(heap)[p].use != 0x7fff_ffff
      ensures !ok ==> heap == old(heap) && Spent(road, heap)
      ensures ok ==> heap == old(heap)[p := old(heap)[p].(use := old(heap)[p].use + 1)]
      ensures ok ==> Sound(road, heap, roots + multiset{p}) && Grown(old(heap), heap)
    {
      if heap[p].use == USE_MAX {
        return false;
      }
      assert Exact(road, heap, roots, p);
      GainSound(road, heap, roots, p);
      heap := heap[p := heap[p].(use := heap[p].use + 1)];
      ok := true;
    }

    /** Count one reference less, unless it is the last. */
    method LoseCount(dog: Ref, ghost roots: multiset<nat>, ghost dying: set<nat>) returns (last: bool)
      requires Sound(road, Without(heap, dying), roots + Counted(road, dog)) && Fits(Without(heap, dying), dog)
      modifies this`heap
      ensures |heap| == |old(heap)| && Shrunk(road, old(heap), heap) && forall d :: d in dying && d < |heap| ==>
          heap[d] == old(heap)[d]
      ensures Allocated(Without(heap, dying), |heap|) <= Allocated(Without(old(heap), dying), |heap|)
      ensures !last ==> Sound(road, Without(heap, dying), roots) && Grown(old(heap), heap)
      ensures last ==>
          heap == old(heap) && !dog.Cat? && dog.p < |heap| && dog.p !in dying && road.SideOf(dog.p) == Normal
                       && !heap[dog.p].Free? && heap[dog.p].use == 1
    {
      hide Sound, Allocated;
      if dog.Cat? || RefSide(road, dog) != Normal {
        assert roots + Counted(road, dog) == roots;
        return false;
      }
      var p := dog.p;
      UsePositive(road, Without(heap, dying), roots + Counted(road, dog), p);
      if heap[p].use > 1 {
        LoseSound(road, Without(heap, dying), roots, p);
        ghost var before := heap;
        heap := heap[p := heap[p].(use := heap[p].use - 1)];
        assert Without(heap, dying) == Without(before, dying)[p := heap[p]];
        AllocatedLess(Without(before, dying), Without(heap, dying), |heap|);
        return false;
      }
      last := true;
    }

    /** Lose one reference. With the last one the box is freed, and the references
        in it are lost in turn: heads by recursion, tails by the loop. `dying`
        cells are on the way to being freed. */
    method LoseUse(dog: Ref, ghost roots: multiset<nat>, ghost dying: set<nat>)
      requires Sound(road, Without(heap, dying), roots + Counted(road, dog)) && Fits(Without(heap, dying), dog)
      modifies this`heap
      ensures |heap| == |old(heap)| && Sound(road, Without(heap, dying), roots) && Shrunk(road, old(heap), heap)
      ensures forall d :: d in dying && d < |heap| ==> heap[d] == old(heap)[d]
      decreases Allocated(Without(heap, dying), |heap|)
    {
      hide *;
      ghost var was := heap;
      ShrunkSelf(road, heap);
      var cur := dog;
      while true
        invariant Sound(road, Without(heap, dying), roots + Counted(road, cur)) && Fits(Without(heap, dying), cur)
        invariant Shrunk(road, was, heap) && |heap| == |was|
        invariant forall d :: d in dying && d < |heap| ==> heap[d] == was[d]
        invariant Allocated(Without(heap, dying), |heap|) <= Allocated(Without(was, dying), |was|)
        decreases Allocated(Without(heap, dying), |heap|)
      {
        ghost var start := heap;
        var last := LoseCount(cur, roots, dying);
        ShrunkTrans(road, was, start, heap);
        if !last {
          return;
        }
        var p := cur.p;
        var box := heap[p];
        Detach(road, heap, roots, dying, cur);
        ghost var rest := if box.Pair? then roots + Counted(road, box.tel) else roots;
        if box.Pair? && !box.hed.Cat? {
          LoseUse(box.hed, rest, dying + {p});
        }
        if box.Pair? {
          TailFits(road, start, heap, roots, dying + {p}, box.tel);
        }
        Detached(road, start, heap, dying, p);
        heap := heap[p := Free];
        ShrunkTrans(road, was, start, heap);
        if !box.Pair? || box.tel.Cat? {
          NoCount(road, roots, box);
          return;
        }
        cur := box.tel;
      }
    }

    /** Lose a root. In an acyclic heap, what is left of the road's heap is exactly
        what the other roots reach. */
    method Lose(dog: Ref, ghost roots: multiset<nat>, ghost rank: seq<nat>, ghost top: nat)
      requires Sound(road, heap, roots + Counted(road, dog)) && Fits(heap, dog) && Ranked(road, heap, rank, top)
      modifies this`heap
      ensures Sound(road, heap, roots) && Shrunk(road, old(heap), heap) && Ranked(road, heap, rank, top)
      ensures |heap| == |old(heap)|
      ensures forall p :: 0 <= p < |heap| && road.SideOf(p) == Normal ==>
                (heap[p].Free? <==> !Alive(road, old(heap), roots, p))
    {
      hide *;
      ghost var was := heap;
      WithoutNone(heap);
      LoseUse(dog, roots, {});
      WithoutNone(heap);
      RankedShrunk(road, was, heap, rank, top);
      LeftIsAlive(road, was, heap, roots, rank, top);
    }
  }

  lemma WithoutNone(heap: seq<Box>)
    ensures Without(heap, {}) == heap
  {
  }

  /** No cycles: a rank that falls along every reference. */
  predicate Ranked(road: Road, heap: seq<Box>, rank: seq<nat>, top: nat) {
    && |rank| == |heap| && (forall p :: 0 <= p < |rank| ==> rank[p] <= top)
    && forall q, p :: 0 <= q < |heap| && 0 <= p < |heap| && From(road, heap, q, p) > 0 ==> rank[p] < rank[q]
  }

  /** `p` is a root, or is referred to from a cell that a shorter path reaches. */
  ghost predicate Reached(road: Road, heap: seq<Box>, roots: multiset<nat>, p: nat, k: nat)
    decreases k
  {
    p in roots
        || (k > 0 && exists q :: 0 <= q < |heap| && From(road, heap, q, p) > 0 && Reached(road, heap, roots, q, k - 1))
  }

  /** In a sound acyclic heap every box that is allocated is reached. */
  lemma {:induction false} LiveReached(road: Road, heap: seq<Box>, roots: multiset<nat>, rank: seq<nat>, top: nat,
        p: nat)
    returns (k: nat)
    requires Sound(road, heap, roots) && Ranked(road, heap, rank, top) && p < |heap| && road.SideOf(p) == Normal
        && !heap[p].Free?
    ensures Reached(road, heap, roots, p, k)
    decreases top - rank[p]
  {
    hide Incoming;
    assert Exact(road, heap, roots, p);
    if p in roots {
      k := 0;
    } else {
      var q := IncomingWitness(road, heap, p, |heap|);
      k := LiveReached(road, heap, roots, rank, top, q);
      k := k + 1;
    }
  }

  lemma FromShrunk(road: Road, was: seq<Box>, heap: seq<Box>, q: nat, p: nat)
    requires Shrunk(road, was, heap) && q < |heap|
    ensures !heap[q].Free? ==> From(road, heap, q, p) == From(road, was, q, p)
    ensures From(road, heap, q, p) <= From(road, was, q, p)
  {
  }

  lemma RankedShrunk(road: Road, was: seq<Box>, heap: seq<Box>, rank: seq<nat>, top: nat)
    requires Shrunk(road, was, heap) && Ranked(road, was, rank, top)
    ensures Ranked(road, heap, rank, top)
  {
    hide From;
    forall q, p | 0 <= q < |heap| && 0 <= p < |heap| && From(road, heap, q, p) > 0
      ensures rank[p] < rank[q]
    {
      FromShrunk(road, was, heap, q, p);
    }
  }

  lemma {:induction false} ReachedBefore(road: Road, was: seq<Box>, heap: seq<Box>, roots: multiset<nat>, p: nat,
        k: nat)
    requires Shrunk(road, was, heap) && Reached(road, heap, roots, p, k)
    ensures Reached(road, was, roots, p, k)
    decreases k
  {
    hide From, Shrunk;
    if p !in roots {
      var q :| 0 <= q < |heap| && From(road, heap, q, p) > 0 && Reached(road, heap, roots, q, k - 1);
      ReachedBefore(road, was, heap, roots, q, k - 1);
      ShrunkLength(road, was, heap);
      FromShrunk(road, was, heap, q, p);
    }
  }

  lemma ShrunkLength(road: Road, was: seq<Box>, heap: seq<Box>)
    requires Shrunk(road, was, heap)
    ensures |was| == |heap|
  {
  }

  lemma KeptFrom(road: Road, heap: seq<Box>, roots: multiset<nat>, q: nat, p: nat)
    requires Sound(road, heap, roots) && q < |heap| && From(road, heap, q, p) > 0
    ensures p < |heap| && !heap[p].Free?
  {
    assert Settled(road, heap, q);
  }

  lemma {:induction false} ReachedKept(road: Road, was: seq<Box>, heap: seq<Box>, roots: multiset<nat>, p: nat, k: nat)
    requires Shrunk(road, was, heap) && Sound(road, heap, roots) && Reached(road, was, roots, p, k)
    ensures p < |heap| && !heap[p].Free?
    decreases k
  {
    hide From, Shrunk;
    if p !in roots {
      ShrunkLength(road, was, heap);
      var q :| 0 <= q < |was| && From(road, was, q, p) > 0 && Reached(road, was, roots, q, k - 1);
      ReachedKept(road, was, heap, roots, q, k - 1);
      FromShrunk(road, was, heap, q, p);
      KeptFrom(road, heap, roots, q, p);
    }
  }

  /** Something outside the road's heap reaches `p`. */
  ghost predicate Alive(road: Road, heap: seq<Box>, roots: multiset<nat>, p: nat) {
    exists k: nat :: Reached(road, heap, roots, p, k)
  }

  lemma LeftIsAlive(road: Road, was: seq<Box>, heap: seq<Box>, roots: multiset<nat>, rank: seq<nat>, top: nat)
    requires Shrunk(road, was, heap) && Sound(road, heap, roots) && Ranked(road, heap, rank, top)
    ensures forall p :: 0 <= p < |heap| && road.SideOf(p) == Normal ==> (heap[p].Free? <==> !Alive(road, was, roots, p))
  {
    hide Sound, Shrunk, Ranked, Reached;
    forall p | 0 <= p < |heap| && road.SideOf(p) == Normal
      ensures heap[p].Free? <==> !Alive(road, was, roots, p)
    {
      if !heap[p].Free? {
        var k := LiveReached(road, heap, roots, rank, top, p);
        ReachedBefore(road, was, heap, roots, p, k);
      }
      forall k: nat | Reached(road, was, roots, p, k)
        ensures !heap[p].Free?
      {
        ReachedKept(road, was, heap, roots, p, k);
      }
    }
  }
}
