/** The noun heap as boxes at addresses: what a reference denotes, which side of
    the current road an address is on, and what an exact reference count is. */
module Heaps {
  import opened Nouns

  datatype Ref = Cat(a: nat) | Pug(p: nat) | Pom(p: nat)

  /** The mug slot holds a hash, or, in an object that has been copied out of a
      dying road, a reference to the copy. */
  datatype Mug = Mug(m: nat) | Fwd(ref: Ref)

  datatype Box = Free | Leaf(use: nat, mug: Mug, val: nat) | Pair(use: nat, mug: Mug, hed: Ref, tel: Ref)

  datatype Side = Senior | Normal | Junior

  /** A road grows its heap from `rut` up and its stack from `mat` down, or the
      other way round. */
  datatype Road = Road(north: bool, rut: nat, cap: nat, mat: nat) {
    function SideOf(p: nat): Side {
      if north then
        if p < rut || p >= mat then Senior else if p >= cap then Junior else Normal
      else
        if p < mat || p >= rut then Senior else if p < cap then Junior else Normal
    }
  }

  function RefSide(road: Road, ref: Ref): Side {
    if ref.Cat? then Senior else road.SideOf(ref.p)
  }

  /** The reference is to an allocated box of the right kind. */
  predicate Fits(heap: seq<Box>, ref: Ref) {
    match ref
    case Cat(_) => true
    case Pug(p) => p < |heap| && heap[p].Leaf?
    case Pom(p) => p < |heap| && heap[p].Pair?
  }

  /** The noun that a reference denotes. */
  predicate Denotes(heap: seq<Box>, ref: Ref, n: Noun)
    decreases n
  {
    match n
    case Atom(a) => ref == Cat(a) || (ref.Pug? && ref.p < |heap| && heap[ref.p].Leaf? && heap[ref.p].val == a)
    case Cell(h, t) =>
      && ref.Pom? && ref.p < |heap| && heap[ref.p].Pair?
      && Denotes(heap, heap[ref.p].hed, h) && Denotes(heap, heap[ref.p].tel, t)
  }

  /** Every hash that a box carries is that of the noun it is. A mug of zero is none,
      and a forwarding reference is no hash. */
  ghost predicate Hashed(hash: Noun -> nat, heap: seq<Box>) {
    forall ref: Ref, n: Noun :: !ref.Cat? && Denotes(heap, ref, n) ==> RightMug(hash, heap[ref.p].mug, n)
  }

  predicate RightMug(hash: Noun -> nat, mug: Mug, n: Noun) {
    mug.Mug? && mug.m != 0 ==> mug.m == hash(n)
  }

  lemma {:induction false} DenotesOne(heap: seq<Box>, ref: Ref, n: Noun, m: Noun)
    requires Denotes(heap, ref, n) && Denotes(heap, ref, m)
    ensures n == m
    decreases n
  {
    if n.Cell? {
      DenotesOne(heap, heap[ref.p].hed, n.h, m.h);
      DenotesOne(heap, heap[ref.p].tel, n.t, m.t);
    }
  }

  /** Contents are kept: only counts and mug slots change, and free boxes fill. */
  predicate Same(was: Box, now: Box) {
    match was
    case Free => true
    case Leaf(_, _, val) => now.Leaf? && now.val == val
    case Pair(_, _, hed, tel) => now.Pair? && now.hed == hed && now.tel == tel
  }

  /** The same, with the same mug. */
  predicate Kept(was: Box, now: Box) {
    Same(was, now) && (!was.Free? && !now.Free? ==> now.mug == was.mug)
  }

  predicate Grown(was: seq<Box>, now: seq<Box>) {
    |was| == |now| && forall p :: 0 <= p < |was| ==> Same(was[p], now[p])
  }

  lemma {:induction false} DenotesGrown(was: seq<Box>, now: seq<Box>, ref: Ref, n: Noun)
    requires Grown(was, now) && Denotes(was, ref, n)
    ensures Denotes(now, ref, n)
    decreases n
  {
    if n.Cell? {
      assert Same(was[ref.p], now[ref.p]);
      DenotesGrown(was, now, was[ref.p].hed, n.h);
      DenotesGrown(was, now, was[ref.p].tel, n.t);
    } else if ref.Pug? {
      assert Same(was[ref.p], now[ref.p]);
    }
  }

  lemma FitsGrown(was: seq<Box>, now: seq<Box>, ref: Ref)
    requires Grown(was, now) && Fits(was, ref)
    ensures Fits(now, ref)
  {
    if !ref.Cat? {
      assert Same(was[ref.p], now[ref.p]);
    }
  }

  lemma GrownTrans(a: seq<Box>, b: seq<Box>, c: seq<Box>)
    requires Grown(a, b) && Grown(b, c)
    ensures Grown(a, c)
  {
    forall p | 0 <= p < |a|
      ensures Same(a[p], c[p])
    {
      assert Same(a[p], b[p]) && Same(b[p], c[p]);
    }
  }

  function Points(ref: Ref, p: nat): nat {
    if !ref.Cat? && ref.p == p then 1 else 0
  }

  /** References to `p` from the box at `q`, if that is a cell of the road's heap. */
  function From(road: Road, heap: seq<Box>, q: nat, p: nat): nat
    requires q < |heap|
  {
    if road.SideOf(q) == Normal && heap[q].Pair? then Points(heap[q].hed, p) + Points(heap[q].tel, p) else 0
  }

  /** References to `p` from the cells of the road's heap below address `k`. */
  function Incoming(road: Road, heap: seq<Box>, p: nat, k: nat): nat
    requires k <= |heap|
  {
    if k == 0 then 0 else Incoming(road, heap, p, k - 1) + From(road, heap, k - 1, p)
  }

  lemma {:induction false} IncomingUpdate(road: Road, heap: seq<Box>, q: nat, box: Box, p: nat, k: nat)
    requires q < |heap| && k <= |heap|
    ensures Incoming(road, heap[q := box], p, k) + (if q < k then From(road, heap, q, p) else 0)
            == Incoming(road, heap, p, k) + (if q < k then From(road, heap[q := box], q, p) else 0)
  {
    if k > 0 {
      IncomingUpdate(road, heap, q, box, p, k - 1);
    }
  }

  lemma {:induction false} IncomingSome(road: Road, heap: seq<Box>, p: nat, k: nat, q: nat)
    requires q < k <= |heap|
    ensures Incoming(road, heap, p, k) >= From(road, heap, q, p)
  {
    if q < k - 1 {
      IncomingSome(road, heap, p, k - 1, q);
    }
  }

  lemma {:induction false} IncomingNone(road: Road, heap: seq<Box>, p: nat, k: nat)
    requires k <= |heap| && forall q :: 0 <= q < k ==> From(road, heap, q, p) == 0
    ensures Incoming(road, heap, p, k) == 0
  {
    if k > 0 {
      IncomingNone(road, heap, p, k - 1);
    }
  }

  lemma {:induction false} IncomingWitness(road: Road, heap: seq<Box>, p: nat, k: nat) returns (q: nat)
    requires k <= |heap| && Incoming(road, heap, p, k) > 0
    ensures q < k && From(road, heap, q, p) > 0
  {
    if From(road, heap, k - 1, p) > 0 {
      q := k - 1;
    } else {
      q := IncomingWitness(road, heap, p, k - 1);
    }
  }

  /** The counted part of a reference: its address if that is on the road's heap. */
  function Counted(road: Road, ref: Ref): multiset<nat> {
    if RefSide(road, ref) == Normal then multiset{ref.p} else multiset{}
  }

  /** A cell of the road's heap refers to allocated boxes, and to no junior. */
  predicate Settled(road: Road, heap: seq<Box>, q: nat)
    requires q < |heap|
  {
    road.SideOf(q) == Normal && heap[q].Pair? ==>
      && Fits(heap, heap[q].hed) && RefSide(road, heap[q].hed) != Junior
      && Fits(heap, heap[q].tel) && RefSide(road, heap[q].tel) != Junior
  }

  /** The use count of a box is the number of references to it: from cells of the
      road's heap and from `roots` outside it. */
  predicate Exact(road: Road, heap: seq<Box>, roots: multiset<nat>, p: nat)
    requires p < |heap|
  {
    road.SideOf(p) == Normal && !heap[p].Free? ==>
      heap[p].use > 0 && heap[p].use == Incoming(road, heap, p, |heap|) + roots[p]
  }

  ghost predicate Sound(road: Road, heap: seq<Box>, roots: multiset<nat>) {
    && (forall q :: 0 <= q < |heap| ==> Settled(road, heap, q))
    && (forall p :: 0 <= p < |heap| ==> Exact(road, heap, roots, p))
    && (forall p :: p in roots ==> p < |heap| && road.SideOf(p) == Normal && !heap[p].Free?)
  }

  /** In a sound heap nothing refers to a free box. */
  lemma FreeUnreferenced(road: Road, heap: seq<Box>, roots: multiset<nat>, p: nat)
    requires Sound(road, heap, roots) && p < |heap| && heap[p].Free?
    ensures Incoming(road, heap, p, |heap|) == 0 && roots[p] == 0
  {
    forall q | 0 <= q < |heap|
      ensures From(road, heap, q, p) == 0
    {
      assert Settled(road, heap, q);
    }
    IncomingNone(road, heap, p, |heap|);
    assert p !in roots;
  }
}
