/** Copying a noun out of a dying road: junior objects are copied onto the road's
    heap, once each, and each leaves a reference to its copy in its mug slot. */
module Take {
  import opened Nouns
  import opened Heaps
  import opened Counts

  /** The reference to a box, tagged by its kind. */
  function Own(heap: seq<Box>, p: nat): Ref
    requires p < |heap|
  {
    if heap[p].Leaf? then Pug(p) else Pom(p)
  }

  ghost predicate Agree(heap: seq<Box>, a: Ref, b: Ref) {
    exists n :: Denotes(heap, a, n) && Denotes(heap, b, n)
  }

  predicate Forwarded(heap: seq<Box>, p: nat)
    requires p < |heap|
  {
    !heap[p].Free? && heap[p].mug.Fwd?
  }

  /** What boxes of each side of the road may refer to: seniors to seniors, juniors
      to anything that is there; a forwarded junior refers to a copy that denotes
      the same noun. */
  ghost predicate Layer(road: Road, heap: seq<Box>, p: nat)
    requires p < |heap|
  {
    && (heap[p].Pair? && road.SideOf(p) == Senior ==>
          Fits(heap, heap[p].hed) && RefSide(road, heap[p].hed) == Senior && Fits(heap, heap[p].tel)
              && RefSide(road, heap[p].tel) == Senior)
    && (heap[p].Pair? && road.SideOf(p) == Junior ==> Fits(heap, heap[p].hed) && Fits(heap, heap[p].tel))
    && (road.SideOf(p) == Junior && Forwarded(heap, p) ==>
          var to := heap[p].mug.ref;
          !to.Cat? && RefSide(road, to) == Normal && Fits(heap, to) && Agree(heap, Own(heap, p), to))
  }

  ghost predicate Layered(road: Road, heap: seq<Box>) {
    && (forall p :: 0 <= p < |heap| ==> Layer(road, heap, p))
    && (forall i, j ::
        0 <= i < j < |heap| && road.SideOf(i) == road.SideOf(j) == Junior && Forwarded(heap, i)
        && Forwarded(heap, j) ==>
          heap[i].mug != heap[j].mug)
  }

  /** `q` is the copy of a junior that has been forwarded since `was`, and has the hash
      that it had. */
  ghost predicate IsCopy(road: Road, was: seq<Box>, now: seq<Box>, q: nat)
    requires q < |was| == |now|
  {
    exists j :: 0 <= j < |was| && road.SideOf(j) == Junior && !Forwarded(was, j) && Forwarded(now, j)
                && (now[j].mug.ref == Pug(q) || now[j].mug.ref == Pom(q)) && Carries(was[j], now[q])
  }

  /** A box has another's hash. */
  predicate Carries(was: Box, now: Box) {
    !was.Free? && !now.Free? && now.mug == was.mug
  }

  /** Hashes stay where they are, but for the juniors that have been forwarded. */
  ghost predicate MugsStay(road: Road, was: seq<Box>, now: seq<Box>)
    requires |was| == |now|
  {
    forall p :: 0 <= p < |was| && !was[p].Free? && !(road.SideOf(p) == Junior && Forwarded(now, p)) ==>
      Carries(was[p], now[p])
  }

  /** What taking does to a heap: contents are kept, forwarding is never undone,
      and every new box is the copy of a junior. */
  ghost predicate Taken(road: Road, was: seq<Box>, now: seq<Box>) {
    && Grown(was, now)
    && (forall p :: 0 <= p < |was| && road.SideOf(p) == Junior && Forwarded(was, p) ==> now[p] == was[p])
    && (forall p :: 0 <= p < |was| && was[p].Free? && !now[p].Free? ==>
        road.SideOf(p) == Normal && IsCopy(road, was, now, p))
    && MugsStay(road, was, now)
  }

  lemma TakenSelf(road: Road, heap: seq<Box>)
    ensures Taken(road, heap, heap)
  {
  }

  lemma TakenTrans(road: Road, a: seq<Box>, b: seq<Box>, c: seq<Box>)
    requires Taken(road, a, b) && Taken(road, b, c)
    ensures Taken(road, a, c)
  {
    GrownTrans(a, b, c);
    forall p | 0 <= p < |a| && a[p].Free? && !c[p].Free?
      ensures IsCopy(road, a, c, p)
    {
      if b[p].Free? {
        var j :| 0 <= j < |b| && road.SideOf(j) == Junior && !Forwarded(b, j) && Forwarded(c, j)
            && (c[j].mug.ref == Pug(p) || c[j].mug.ref == Pom(p)) && Carries(b[j], c[p]);
        assert !Forwarded(a, j) && Carries(a[j], b[j]);
      } else {
        var j :| 0 <= j < |a| && road.SideOf(j) == Junior && !Forwarded(a, j) && Forwarded(b, j)
            && (b[j].mug.ref == Pug(p) || b[j].mug.ref == Pom(p)) && Carries(a[j], b[p]);
        assert c[j] == b[j] && Carries(b[p], c[p]);
      }
    }
  }

  lemma AgreeGrown(was: seq<Box>, now: seq<Box>, a: Ref, b: Ref)
    requires Grown(was, now) && Agree(was, a, b)
    ensures Agree(now, a, b)
  {
    var n :| Denotes(was, a, n) && Denotes(was, b, n);
    DenotesGrown(was, now, a, n);
    DenotesGrown(was, now, b, n);
  }

  /** A box whose kind, fields and mug are kept stays in its layer. */
  lemma LayerGrown(road: Road, was: seq<Box>, now: seq<Box>, p: nat)
    requires Grown(was, now) && p < |was| && Layer(road, was, p)
    requires !was[p].Free? && !now[p].Free? && now[p].mug == was[p].mug
    ensures Layer(road, now, p)
  {
    hide Denotes, Agree, Fits;
    assert Same(was[p], now[p]);
    if was[p].Pair? {
      if Fits(was, was[p].hed) { FitsGrown(was, now, was[p].hed); }
      if Fits(was, was[p].tel) { FitsGrown(was, now, was[p].tel); }
    }
    if road.SideOf(p) == Junior && Forwarded(was, p) {
      FitsGrown(was, now, was[p].mug.ref);
      AgreeGrown(was, now, Own(was, p), was[p].mug.ref);
    }
  }

  lemma GainTaken(road: Road, heap: seq<Box>, p: nat)
    requires p < |heap| && road.SideOf(p) == Normal && !heap[p].Free? && Layered(road, heap)
    ensures var now := heap[p := heap[p].(use := heap[p].use + 1)]; Taken(road, heap, now) && Layered(road, now)
  {
    hide Layer;
    var now := heap[p := heap[p].(use := heap[p].use + 1)];
    forall q | 0 <= q < |now|
      ensures Layer(road, now, q)
    {
      assert Layer(road, heap, q);
      if heap[q].Free? {
        LayerFree(road, now, q);
      } else {
        LayerGrown(road, heap, now, q);
      }
    }
  }

  lemma LayerFree(road: Road, heap: seq<Box>, q: nat)
    requires q < |heap| && heap[q].Free?
    ensures Layer(road, heap, q)
  {
  }

  lemma LayerNormal(road: Road, heap: seq<Box>, q: nat)
    requires q < |heap| && road.SideOf(q) == Normal
    ensures Layer(road, heap, q)
  {
  }

  /** A copy of junior `j` at `q`, with the forwarding reference left behind. */
  function Copied(heap: seq<Box>, j: nat, q: nat, box: Box): seq<Box>
    requires j < |heap| && q < |heap| && j != q && !heap[j].Free? && !box.Free?
  {
    heap[q := box][j := heap[j].(mug := Fwd(if box.Leaf? then Pug(q) else Pom(q)))]
  }

  predicate CanCopy(road: Road, heap: seq<Box>, j: nat, q: nat, box: Box) {
    && j < |heap| && q < |heap| && road.SideOf(j) == Junior && road.SideOf(q) == Normal
    && heap[q].Free? && !heap[j].Free? && !Forwarded(heap, j) && !box.Free? && box.Leaf? == heap[j].Leaf?
    && box.mug == heap[j].mug
  }

  lemma CopyTaken(road: Road, heap: seq<Box>, j: nat, q: nat, box: Box, n: Noun)
    requires CanCopy(road, heap, j, q, box) && Layered(road, heap)
    requires var now := Copied(heap, j, q, box); Denotes(now, Own(now, j), n) && Denotes(now, Own(now, q), n)
    ensures var now := Copied(heap, j, q, box); Taken(road, heap, now) && Layered(road, now)
  {
    hide Layer, Denotes;
    var now := Copied(heap, j, q, box);
    forall i | 0 <= i < |heap| && road.SideOf(i) == Junior && Forwarded(heap, i)
      ensures heap[i].mug.ref != Pug(q) && heap[i].mug.ref != Pom(q)
    {
      assert Layer(road, heap, i);
      NotToFree(road, heap, i, q);
    }
    assert Grown(heap, now);
    assert Forwarded(now, j) && now[j].mug.ref == Own(now, q);
    assert IsCopy(road, heap, now, q);
    forall p | 0 <= p < |now|
      ensures Layer(road, now, p)
    {
      assert Layer(road, heap, p);
      if p == j {
        LayerCopied(road, heap, now, j, q, n);
      } else if p == q {
        LayerNormal(road, now, q);
      } else if heap[p].Free? {
        LayerFree(road, now, p);
      } else {
        LayerGrown(road, heap, now, p);
      }
    }
  }

  lemma NotToFree(road: Road, heap: seq<Box>, i: nat, q: nat)
    requires i < |heap| && q < |heap| && Layer(road, heap, i) && road.SideOf(i) == Junior && Forwarded(heap, i)
        && heap[q].Free?
    ensures heap[i].mug.ref != Pug(q) && heap[i].mug.ref != Pom(q)
  {
    hide Agree;
  }

  lemma LayerCopied(road: Road, was: seq<Box>, now: seq<Box>, j: nat, q: nat, n: Noun)
    requires Grown(was, now) && j < |was| && q < |was| && Layer(road, was, j) && road.SideOf(j) == Junior
        && road.SideOf(q) == Normal
    requires Forwarded(now, j) && now[j].mug.ref == Own(now, q) && !was[j].Free? && !now[q].Free?
    requires Denotes(now, Own(now, j), n) && Denotes(now, Own(now, q), n)
    ensures Layer(road, now, j)
  {
    hide Denotes;
    assert Same(was[j], now[j]);
    if was[j].Pair? {
      FitsGrown(was, now, was[j].hed);
      FitsGrown(was, now, was[j].tel);
    }
    assert Agree(now, Own(now, j), now[j].mug.ref);
  }

  /** The references that a copy takes over go from the roots into the copy, and
      the reference to the copy becomes a root. */
  lemma CopySound(road: Road, heap: seq<Box>, j: nat, q: nat, box: Box, roots: multiset<nat>)
    requires CanCopy(road, heap, j, q, box) && Sound(road, heap, roots + Loose(road, box)) && box.use == 1
    requires box.Pair? ==>
        Fits(heap, box.hed) && RefSide(road, box.hed) != Junior && Fits(heap, box.tel)
        && RefSide(road, box.tel) != Junior
    ensures Sound(road, Copied(heap, j, q, box), roots + multiset{q})
  {
    hide Incoming, From, Fits, Loose;
    var now := Copied(heap, j, q, box);
    var fwd := heap[j].(mug := now[j].mug);
    assert now == heap[q := box][j := fwd];
    FreeUnreferenced(road, heap, roots + Loose(road, box), q);
    forall p | 0 <= p < |now|
      ensures Settled(road, now, p) && Exact(road, now, roots + multiset{q}, p)
    {
      assert Settled(road, heap, p) && Exact(road, heap, roots + Loose(road, box), p);
      SettledCopied(road, heap, now, p, j, q);
      IncomingUpdate(road, heap, q, box, p, |heap|);
      IncomingUpdate(road, heap[q := box], j, fwd, p, |heap|);
      CopyFrom(road, heap, now, j, q, box, p);
    }
    forall r | r in roots + multiset{q}
      ensures r < |now| && road.SideOf(r) == Normal && !now[r].Free?
    {
      assert r in roots ==> r in roots + Loose(road, box);
    }
  }

  lemma SettledCopied(road: Road, was: seq<Box>, now: seq<Box>, p: nat, j: nat, q: nat)
    requires |was| == |now| && Grown(was, now) && p < |was| && j < |was| && q < |was|
    requires Settled(road, was, p) && road.SideOf(j) == Junior && (p != q && p != j ==> now[p] == was[p])
    requires now[q].Pair? ==>
        Fits(was, now[q].hed) && RefSide(road, now[q].hed) != Junior && Fits(was, now[q].tel)
        && RefSide(road, now[q].tel) != Junior
    ensures Settled(road, now, p)
  {
    hide Fits, Grown;
    if road.SideOf(p) == Normal && now[p].Pair? {
      FitsGrown(was, now, now[p].hed);
      FitsGrown(was, now, now[p].tel);
    }
  }

  lemma CopyFrom(road: Road, heap: seq<Box>, now: seq<Box>, j: nat, q: nat, box: Box, p: nat)
    requires CanCopy(road, heap, j, q, box) && now == Copied(heap, j, q, box)
    ensures From(road, heap, q, p) == 0 && From(road, heap[q := box], j, p) == 0 && From(road, now, j, p) == 0
    ensures road.SideOf(p) == Normal ==> From(road, heap[q := box], q, p) == Loose(road, box)[p]
  {
  }

  /** A copy denotes what its original does. */
  lemma CopyDenotes(road: Road, heap: seq<Box>, j: nat, q: nat, box: Box, n: Noun)
    requires CanCopy(road, heap, j, q, box) && Denotes(heap, Own(heap, j), n)
    requires if box.Leaf? then box.val == heap[j].val
             else n.Cell? && Denotes(heap, box.hed, n.h) && Denotes(heap, box.tel, n.t)
    ensures var now := Copied(heap, j, q, box); Denotes(now, Own(now, j), n) && Denotes(now, Own(now, q), n)
  {
    var now := Copied(heap, j, q, box);
    assert Grown(heap, now);
    DenotesGrown(heap, now, Own(heap, j), n);
    if box.Pair? {
      DenotesGrown(heap, now, box.hed, n.h);
      DenotesGrown(heap, now, box.tel, n.t);
    }
  }

  /** What every step of taking is given and keeps. */
  ghost predicate Ready(road: Road, heap: seq<Box>, roots: multiset<nat>) {
    Layered(road, heap) && Sound(road, heap, roots)
  }

  /** A reference that a junior's copy may hold: counted, in place, and denoting
      what is wanted. */
  ghost predicate Took(road: Road, heap: seq<Box>, roots: multiset<nat>, pro: Ref, n: Noun) {
    && Ready(road, heap, roots + Counted(road, pro))
    && Denotes(heap, pro, n) && Fits(heap, pro) && RefSide(road, pro) != Junior
  }

  /** Copy a box onto the road's heap; fails when there is no room. */
  method MakeCopy(m: Memory, j: nat, box: Box, ghost roots: multiset<nat>, ghost n: Noun) returns (pro: Option<Ref>)
    requires Ready(m.road, m.heap, roots + Loose(m.road, box)) && j < |m.heap| && m.road.SideOf(j) == Junior
    requires !m.heap[j].Free? && !Forwarded(m.heap, j) && !box.Free? && box.Leaf? == m.heap[j].Leaf?
    requires box.use == 1 && box.mug == m.heap[j].mug
    requires Denotes(m.heap, Own(m.heap, j), n)
    requires if box.Leaf? then box.val == m.heap[j].val
             else n.Cell? && Denotes(m.heap, box.hed, n.h) && Denotes(m.heap, box.tel, n.t)
                  && Fits(m.heap, box.hed) && RefSide(m.road, box.hed) != Junior
                  && Fits(m.heap, box.tel) && RefSide(m.road, box.tel) != Junior
    modifies m`heap
    ensures pro.Some? ==> Taken(m.road, old(m.heap), m.heap) && Took(m.road, m.heap, roots, pro.value, n)
    ensures pro.Some? ==> |m.heap| == |old(m.heap)| && Same(old(m.heap)[j], m.heap[j]) && Forwarded(m.heap, j)
    ensures pro.None? ==> Spent(m.road, m.heap)
    ensures pro.Some? ==> forall p :: 0 <= p < |m.heap| && p != j && m.road.SideOf(p) == Junior ==>
        m.heap[p] == old(m.heap)[p]
  {
    hide Layered, Sound, Denotes, Taken, Loose;
    if !exists q :: 0 <= q < |m.heap| && m.road.SideOf(q) == Normal && m.heap[q].Free? {
      return None;
    }
    var q: nat :| q < |m.heap| && m.road.SideOf(q) == Normal && m.heap[q].Free?;
    CopyDenotes(m.road, m.heap, j, q, box, n);
    CopyTaken(m.road, m.heap, j, q, box, n);
    CopySound(m.road, m.heap, j, q, box, roots);
    m.heap := Copied(m.heap, j, q, box);
    pro := Some(if box.Leaf? then Pug(q) else Pom(q));
    CountedIs(m.road, pro.value);
  }

  /** Count one more reference to a box of the road's heap. */
  method Share(m: Memory, ref: Ref, ghost roots: multiset<nat>, ghost n: Noun) returns (pro: Option<Ref>)
    requires Ready(m.road, m.heap, roots) && !ref.Cat? && RefSide(m.road, ref) == Normal && Fits(m.heap, ref)
        && Denotes(m.heap, ref, n)
    modifies m`heap
    ensures pro.None? ==> Spent(m.road, m.heap)
    ensures pro.Some? ==> pro.value == ref && Taken(m.road, old(m.heap), m.heap) && Took(m.road, m.heap, roots, ref, n)
    ensures pro.Some? ==> forall p :: 0 <= p < |m.heap| && m.road.SideOf(p) == Junior ==> m.heap[p] == old(m.heap)[p]
  {
    hide Layered, Sound, Denotes, Taken;
    GainTaken(m.road, m.heap, ref.p);
    ghost var was := m.heap;
    var ok := m.GainUse(ref.p, roots);
    if !ok {
      return None;
    }
    CountedIs(m.road, ref);
    DenotesGrown(was, m.heap, ref, n);
    pro := Some(ref);
  }

  /** Whether a reference is to a junior cell that has not been copied. */
  predicate Fresh(road: Road, heap: seq<Box>, ref: Ref) {
    ref.Pom? && ref.p < |heap| && road.SideOf(ref.p) == Junior && heap[ref.p].Pair? && !Forwarded(heap, ref.p)
  }

  /** Take a reference that is not to a fresh junior cell. */
  method TakeRef(m: Memory, veb: Ref, ghost roots: multiset<nat>, ghost n: Noun) returns (pro: Option<Ref>)
    requires Ready(m.road, m.heap, roots) && Fits(m.heap, veb) && Denotes(m.heap, veb, n) && !Fresh(m.road, m.heap, veb)
    modifies m`heap
    ensures pro.None? ==> Spent(m.road, m.heap)
    ensures pro.Some? ==> Taken(m.road, old(m.heap), m.heap) && Took(m.road, m.heap, roots, pro.value, n)
    ensures pro.Some? ==> forall p :: 0 <= p < |m.heap| && m.road.SideOf(p) == Junior && m.heap[p].Pair? ==>
        m.heap[p] == old(m.heap)[p]
  {
    hide Layered, Sound, Denotes, Taken;
    if veb.Cat? || RefSide(m.road, veb) == Senior {
      assert roots + Counted(m.road, veb) == roots;
      TakenSelf(m.road, m.heap);
      return Some(veb);
    }
    if RefSide(m.road, veb) == Normal {
      pro := Share(m, veb, roots, n);
      return;
    }
    if Forwarded(m.heap, veb.p) {
      ForwardedAgrees(m.road, m.heap, veb, n);
      pro := Share(m, m.heap[veb.p].mug.ref, roots, n);
      return;
    }
    var box := m.heap[veb.p];
    assert roots + Loose(m.road, box) == roots;
    pro := MakeCopy(m, veb.p, Leaf(1, box.mug, box.val), roots, n);
  }

  lemma ForwardedAgrees(road: Road, heap: seq<Box>, veb: Ref, n: Noun)
    requires Layered(road, heap) && !veb.Cat? && Fits(heap, veb) && Denotes(heap, veb, n)
    requires road.SideOf(veb.p) == Junior && Forwarded(heap, veb.p)
    ensures var to := heap[veb.p].mug.ref;
        !to.Cat? && RefSide(road, to) == Normal && Fits(heap, to) && Denotes(heap, to, n)
  {
    hide Denotes;
    assert Layer(road, heap, veb.p);
    var m :| Denotes(heap, Own(heap, veb.p), m) && Denotes(heap, heap[veb.p].mug.ref, m);
    DenotesOne(heap, veb, n, m);
  }

  ghost predicate Meant(heap: seq<Box>, ref: Ref) {
    exists n :: Denotes(heap, ref, n)
  }

  ghost function Means(heap: seq<Box>, ref: Ref): Noun
    requires Meant(heap, ref)
  {
    var n :| Denotes(heap, ref, n); n
  }

  lemma MeansIs(heap: seq<Box>, ref: Ref, n: Noun)
    requires Denotes(heap, ref, n)
    ensures Meant(heap, ref) && Means(heap, ref) == n
  {
    DenotesOne(heap, ref, n, Means(heap, ref));
  }

  lemma MeansGrown(was: seq<Box>, now: seq<Box>, ref: Ref)
    requires Grown(was, now) && Meant(was, ref)
    ensures Meant(now, ref) && Means(now, ref) == Means(was, ref)
  {
    DenotesGrown(was, now, ref, Means(was, ref));
    MeansIs(now, ref, Means(was, ref));
  }

  function Size(n: Noun): nat {
    match n
    case Atom(_) => 1
    case Cell(h, t) => 1 + Size(h) + Size(t)
  }

  /** The stack of cells being copied, innermost first. A frame without a head
      waits for its head to be taken; one with a head, for its tail. */
  datatype Pile = Empty | Frame(hed: Option<Ref>, cell: nat, rest: Pile)

  predicate OnPile(pile: Pile, p: nat) {
    pile.Frame? && (pile.cell == p || OnPile(pile.rest, p))
  }

  /** The heads that wait on the pile. */
  function Stash(road: Road, pile: Pile): multiset<nat> {
    match pile
    case Empty => multiset{}
    case Frame(hed, _, rest) => (if hed.Some? then Counted(road, hed.value) else multiset{}) + Stash(road, rest)
  }

  /** The pile is a path of fresh junior cells: with `cur` in the place that is
      waited for, it denotes `top`. */
  ghost predicate Chain(road: Road, heap: seq<Box>, pile: Pile, cur: Noun, top: Noun)
    decreases pile
  {
    match pile
    case Empty => cur == top
    case Frame(hed, cell, rest) =>
      && Fresh(road, heap, Pom(cell)) && Meant(heap, heap[cell].hed) && Meant(heap, heap[cell].tel)
      && (if hed.None? then cur == Means(heap, heap[cell].hed)
          else cur == Means(heap, heap[cell].tel) && Denotes(heap, hed.value, Means(heap, heap[cell].hed))
               && Fits(heap, hed.value) && RefSide(road, hed.value) != Junior)
      && Chain(road, heap, rest, Cell(Means(heap, heap[cell].hed), Means(heap, heap[cell].tel)), top)
  }

  /** What is left to do for the pile. */
  ghost function Work(road: Road, heap: seq<Box>, pile: Pile, cur: Noun, top: Noun): nat
    requires Chain(road, heap, pile, cur, top)
    decreases pile
  {
    match pile
    case Empty => 0
    case Frame(hed, cell, rest) =>
      (if hed.None? then 2 + 2 * Size(Means(heap, heap[cell].tel)) else 1)
      + Work(road, heap, rest, Cell(Means(heap, heap[cell].hed), Means(heap, heap[cell].tel)), top)
  }

  /** Growth that leaves the pile's cells fresh leaves the pile as it is. */
  lemma {:induction false} ChainGrown(road: Road, was: seq<Box>, now: seq<Box>, pile: Pile, cur: Noun, top: Noun)
    requires Chain(road, was, pile, cur, top) && Grown(was, now)
    requires forall p :: 0 <= p < |was| && OnPile(pile, p) ==> now[p] == was[p]
    ensures Chain(road, now, pile, cur, top) && Work(road, now, pile, cur, top) == Work(road, was, pile, cur, top)
    decreases pile
  {
    hide Denotes, Means, Meant;
    if pile.Frame? {
      var box := was[pile.cell];
      assert OnPile(pile, pile.cell);
      MeansGrown(was, now, box.hed);
      MeansGrown(was, now, box.tel);
      if pile.hed.Some? {
        DenotesGrown(was, now, pile.hed.value, Means(was, box.hed));
        FitsGrown(was, now, pile.hed.value);
      }
      assert forall p :: OnPile(pile.rest, p) ==> OnPile(pile, p);
      ChainGrown(road, was, now, pile.rest, Cell(Means(was, box.hed), Means(was, box.tel)), top);
    }
  }

  /** Cells on the pile denote larger nouns than what they wait for. */
  lemma {:induction false} PileLarger(road: Road, heap: seq<Box>, pile: Pile, cur: Noun, top: Noun, p: nat)
    requires Chain(road, heap, pile, cur, top) && OnPile(pile, p)
    ensures Meant(heap, Pom(p)) && Size(Means(heap, Pom(p))) > Size(cur)
    decreases pile
  {
    hide Means, Meant;
    var box := heap[pile.cell];
    var noun := Cell(Means(heap, box.hed), Means(heap, box.tel));
    MeansDenotes(heap, box.hed);
    MeansDenotes(heap, box.tel);
    MeansIs(heap, Pom(pile.cell), noun);
    if p != pile.cell {
      PileLarger(road, heap, pile.rest, noun, top, p);
    }
  }

  lemma MeansDenotes(heap: seq<Box>, ref: Ref)
    requires Meant(heap, ref)
    ensures Denotes(heap, ref, Means(heap, ref))
  {
  }

  /** A reference that is fresh and does not close a cycle is on no pile. */
  lemma TopAlone(road: Road, heap: seq<Box>, pile: Pile, cur: Noun, top: Noun)
    requires pile.Frame? && Chain(road, heap, pile, cur, top)
    ensures var box := heap[pile.cell]; var noun := Cell(Means(heap, box.hed), Means(heap, box.tel));
            && Denotes(heap, Pom(pile.cell), noun) && Chain(road, heap, pile.rest, noun, top)
    ensures !OnPile(pile.rest, pile.cell)
  {
    hide Means, Meant;
    var box := heap[pile.cell];
    var noun := Cell(Means(heap, box.hed), Means(heap, box.tel));
    MeansDenotes(heap, box.hed);
    MeansDenotes(heap, box.tel);
    assert Denotes(heap, Pom(pile.cell), noun);
    if OnPile(pile.rest, pile.cell) {
      PileLarger(road, heap, pile.rest, noun, top, pile.cell);
      MeansIs(heap, Pom(pile.cell), noun);
    }
  }

  lemma PushChain(road: Road, heap: seq<Box>, pile: Pile, veb: Ref, cur: Noun, top: Noun)
    requires Chain(road, heap, pile, cur, top) && Fresh(road, heap, veb) && Denotes(heap, veb, cur)
        && Layered(road, heap)
    ensures cur.Cell? && Denotes(heap, heap[veb.p].hed, cur.h) && Fits(heap, heap[veb.p].hed)
    ensures var pushed := Frame(None, veb.p, pile);
            && Chain(road, heap, pushed, cur.h, top)
            && Work(road, heap, pushed, cur.h, top) + 2 * Size(cur.h) <= Work(road, heap, pile, cur,
                top) + 2 * Size(cur)
  {
    hide Means, Meant;
    assert Layer(road, heap, veb.p);
    MeansIs(heap, heap[veb.p].hed, cur.h);
    MeansIs(heap, heap[veb.p].tel, cur.t);
  }

  lemma {:induction false} PileFresh(road: Road, heap: seq<Box>, pile: Pile, cur: Noun, top: Noun, p: nat)
    requires Chain(road, heap, pile, cur, top) && OnPile(pile, p)
    ensures Fresh(road, heap, Pom(p))
    decreases pile
  {
    hide Means, Meant;
    if p != pile.cell {
      var box := heap[pile.cell];
      PileFresh(road, heap, pile.rest, Cell(Means(heap, box.hed), Means(heap, box.tel)), top, p);
    }
  }

  lemma ChainTaken(road: Road, was: seq<Box>, now: seq<Box>, pile: Pile, cur: Noun, top: Noun)
    requires Chain(road, was, pile, cur, top) && Taken(road, was, now)
    requires forall p :: 0 <= p < |was| && road.SideOf(p) == Junior && now[p].Pair? ==> now[p] == was[p]
    ensures Chain(road, now, pile, cur, top) && Work(road, now, pile, cur, top) == Work(road, was, pile, cur, top)
  {
    hide Chain, OnPile;
    forall p: nat | p < |was| && OnPile(pile, p)
      ensures now[p] == was[p]
    {
      PileFresh(road, was, pile, cur, top, p);
      assert Same(was[p], now[p]);
    }
    ChainGrown(road, was, now, pile, cur, top);
  }

  /** Take a reference, pushing the fresh cells down its heads. */
  method Next(m: Memory, pile0: Pile, veb0: Ref, ghost roots: multiset<nat>, ghost cur0: Noun, ghost top: Noun)
    returns (pro: Option<Ref>, pile: Pile, ghost cur: Noun)
    requires Ready(m.road, m.heap, roots + Stash(m.road, pile0)) && Chain(m.road, m.heap, pile0, cur0, top)
    requires Denotes(m.heap, veb0, cur0) && Fits(m.heap, veb0)
    modifies m`heap
    ensures pro.None? ==> Spent(m.road, m.heap)
    ensures pro.Some? ==>
      && Taken(m.road, old(m.heap), m.heap) && Took(m.road, m.heap, roots + Stash(m.road, pile), pro.value, cur)
      && Chain(m.road, m.heap, pile, cur, top)
      && Work(m.road, m.heap, pile, cur, top) <= old(Work(m.road, m.heap, pile0, cur0, top)) + 2 * Size(cur0)
  {
    hide Ready, Chain, Work, Denotes, Fits, Stash, Taken, Took, Size;
    pile, cur := pile0, cur0;
    var veb := veb0;
    ghost var start := Work(m.road, m.heap, pile, cur, top) + 2 * Size(cur);
    while Fresh(m.road, m.heap, veb)
      invariant Ready(m.road, m.heap, roots + Stash(m.road, pile)) && Chain(m.road, m.heap, pile, cur, top)
      invariant Denotes(m.heap, veb, cur) && Fits(m.heap, veb) && m.heap == old(m.heap)
      invariant Work(m.road, m.heap, pile, cur, top) + 2 * Size(cur) <= start
      decreases cur
    {
      IsLayered(m.road, m.heap, roots + Stash(m.road, pile));
      PushChain(m.road, m.heap, pile, veb, cur, top);
      PushStash(m.road, pile, veb.p);
      pile := Frame(None, veb.p, pile);
      veb := m.heap[veb.p].hed;
      cur := cur.h;
    }
    ghost var was := m.heap;
    pro := TakeRef(m, veb, roots + Stash(m.road, pile), cur);
    if pro.Some? {
      TakenLength(m.road, was, m.heap);
      ChainTaken(m.road, was, m.heap, pile, cur, top);
    }
  }

  lemma IsLayered(road: Road, heap: seq<Box>, roots: multiset<nat>)
    requires Ready(road, heap, roots)
    ensures Layered(road, heap) && Sound(road, heap, roots)
  {
  }

  lemma PushStash(road: Road, pile: Pile, cell: nat)
    ensures Stash(road, Frame(None, cell, pile)) == Stash(road, pile)
  {
  }

  lemma TakenLength(road: Road, was: seq<Box>, now: seq<Box>)
    requires Taken(road, was, now)
    ensures |was| == |now|
  {
  }

  /** A head has been taken: its frame now waits for the tail. */
  lemma HeadTaken(road: Road, heap: seq<Box>, pile: Pile, roots: multiset<nat>, pro: Ref, cur: Noun, top: Noun)
    requires pile.Frame? && pile.hed.None? && Chain(road, heap, pile, cur, top)
    requires Took(road, heap, roots + Stash(road, pile), pro, cur)
    ensures pile.cell < |heap| && heap[pile.cell].Pair? && Meant(heap, heap[pile.cell].tel)
    ensures var tail, next := Means(heap, heap[pile.cell].tel), Frame(Some(pro), pile.cell, pile.rest);
            && Ready(road, heap, roots + Stash(road, next)) && Chain(road, heap, next, tail, top)
            && Denotes(heap, heap[pile.cell].tel, tail) && Fits(heap, heap[pile.cell].tel)
            && Work(road, heap, next, tail, top) + 2 * Size(tail) < Work(road, heap, pile, cur, top)
  {
    hide Denotes, Fits, Layered, Sound;
    IsLayered(road, heap, roots + Stash(road, pile) + Counted(road, pro));
    TookFacts(road, heap, roots + Stash(road, pile), pro, cur);
    FreshFields(road, heap, pile.cell);
    var tail, next := Means(heap, heap[pile.cell].tel), Frame(Some(pro), pile.cell, pile.rest);
    assert roots + Stash(road, next) == roots + Stash(road, pile) + Counted(road, pro);
  }

  lemma TookFacts(road: Road, heap: seq<Box>, roots: multiset<nat>, pro: Ref, n: Noun)
    requires Took(road, heap, roots, pro, n)
    ensures Ready(road, heap, roots + Counted(road, pro))
    ensures Denotes(heap, pro, n) && Fits(heap, pro) && RefSide(road, pro) != Junior
  {
  }

  lemma FreshFields(road: Road, heap: seq<Box>, p: nat)
    requires Layered(road, heap) && Fresh(road, heap, Pom(p))
    ensures Fits(heap, heap[p].hed) && Fits(heap, heap[p].tel)
  {
    assert Layer(road, heap, p);
  }

  /** A tail has been taken: the cell can be copied. */
  method FinishCell(m: Memory, pile: Pile, tail: Ref, ghost roots: multiset<nat>, ghost cur: Noun, ghost top: Noun)
    returns (pro: Option<Ref>, ghost noun: Noun)
    requires pile.Frame? && pile.hed.Some? && Chain(m.road, m.heap, pile, cur, top)
    requires Took(m.road, m.heap, roots + Stash(m.road, pile), tail, cur)
    modifies m`heap
    ensures pro.None? ==> Spent(m.road, m.heap)
    ensures pro.Some? ==>
      && Taken(m.road, old(m.heap), m.heap) && Took(m.road, m.heap, roots + Stash(m.road, pile.rest), pro.value, noun)
      && Chain(m.road, m.heap, pile.rest, noun, top)
      && Work(m.road, m.heap, pile.rest, noun, top) < old(Work(m.road, m.heap, pile, cur, top))
  {
    ghost var was := m.heap;
    var prior := m.heap[pile.cell];
    noun := Cell(Means(was, prior.hed), Means(was, prior.tel));
    var box := Pair(1, prior.mug, pile.hed.value, tail);
    hide Denotes, Fits, Taken, Means, Meant, Layered, Sound;
    TopAlone(m.road, was, pile, cur, top);
    TookFacts(m.road, was, roots + Stash(m.road, pile), tail, cur);
    assert roots + Stash(m.road, pile.rest) + Loose(m.road, box) == roots + Stash(m.road, pile) + Counted(m.road, tail);
    pro := MakeCopy(m, pile.cell, box, roots + Stash(m.road, pile.rest), noun);
    if pro.Some? {
      TakenLength(m.road, was, m.heap);
      RestTaken(m.road, was, m.heap, pile, noun, top);
    }
  }

  lemma RestTaken(road: Road, was: seq<Box>, now: seq<Box>, pile: Pile, noun: Noun, top: Noun)
    requires pile.Frame? && Chain(road, was, pile.rest, noun, top) && Taken(road, was, now)
        && !OnPile(pile.rest, pile.cell)
    requires forall p :: 0 <= p < |now| && p != pile.cell && road.SideOf(p) == Junior ==> now[p] == was[p]
    ensures Chain(road, now, pile.rest, noun, top)
        && Work(road, now, pile.rest, noun, top) == Work(road, was, pile.rest, noun, top)
  {
    hide Chain, OnPile, Work;
    forall p: nat | p < |was| && OnPile(pile.rest, p)
      ensures now[p] == was[p]
    {
      PileFresh(road, was, pile.rest, noun, top, p);
    }
    ChainGrown(road, was, now, pile.rest, noun, top);
  }

  /** Take a noun. Unless memory or a count runs out, the result denotes the same
      noun, is no junior, and is counted; every new box is the one copy of a
      junior. */
  method TakeNoun(m: Memory, veb: Ref, ghost roots: multiset<nat>, ghost n: Noun) returns (pro: Option<Ref>)
    requires Ready(m.road, m.heap, roots) && Fits(m.heap, veb) && Denotes(m.heap, veb, n)
    modifies m`heap
    ensures pro.None? ==> Spent(m.road, m.heap)
    ensures pro.Some? ==> Taken(m.road, old(m.heap), m.heap) && Took(m.road, m.heap, roots, pro.value, n)
    ensures pro.Some? ==> forall hash: Noun -> nat :: Hashed(hash, old(m.heap)) ==> Hashed(hash, m.heap)
  {
    hide *;
    ghost var h0 := m.heap;
    EmptyPile(m.road, m.heap, roots, n);
    var pile;
    ghost var cur;
    pro, pile, cur := Next(m, Empty, veb, roots, n, n);
    while pro.Some? && pile.Frame?
      invariant pro.None? ==> Spent(m.road, m.heap)
      invariant pro.Some? ==>
        && Taken(m.road, old(m.heap), m.heap) && Took(m.road, m.heap, roots + Stash(m.road, pile), pro.value, cur)
        && Chain(m.road, m.heap, pile, cur, n)
      decreases if pro.Some? then 1 + Work(m.road, m.heap, pile, cur, n) else 0
    {
      ghost var was := m.heap;
      if pile.hed.None? {
        HeadTaken(m.road, m.heap, pile, roots, pro.value, cur, n);
        var cell := pile.cell;
        pile := Frame(Some(pro.value), cell, pile.rest);
        pro, pile, cur := Next(m, pile, m.heap[cell].tel, roots, Means(m.heap, m.heap[cell].tel), n);
      } else {
        pro, cur := FinishCell(m, pile, pro.value, roots, cur, n);
        pile := pile.rest;
      }
      if pro.Some? {
        TakenTrans(m.road, old(m.heap), was, m.heap);
      }
    }
    if pro.Some? {
      PileDone(m.road, m.heap, roots, pile, cur, n);
      TookFacts(m.road, m.heap, roots, pro.value, n);
      IsLayered(m.road, m.heap, roots + Counted(m.road, pro.value));
      forall hash: Noun -> nat | Hashed(hash, h0)
        ensures Hashed(hash, m.heap)
      {
        TakenHashes(m.road, h0, m.heap, roots, hash);
      }
    }
  }

  lemma EmptyPile(road: Road, heap: seq<Box>, roots: multiset<nat>, n: Noun)
    ensures roots + Stash(road, Empty) == roots && Chain(road, heap, Empty, n, n)
  {
  }

  lemma PileDone(road: Road, heap: seq<Box>, roots: multiset<nat>, pile: Pile, cur: Noun, n: Noun)
    requires pile.Empty? && Chain(road, heap, pile, cur, n)
    ensures cur == n && roots + Stash(road, pile) == roots
  {
  }

  /** No reference to a junior anywhere in what a reference denotes. */
  predicate NoJunior(road: Road, heap: seq<Box>, ref: Ref, n: Noun)
    requires Denotes(heap, ref, n)
    decreases n
  {
    RefSide(road, ref) != Junior
    && (n.Cell? ==> NoJunior(road, heap, heap[ref.p].hed, n.h) && NoJunior(road, heap, heap[ref.p].tel, n.t))
  }

  /** What has been taken reaches no junior. */
  lemma {:induction false} TookNoJunior(road: Road, heap: seq<Box>, roots: multiset<nat>, ref: Ref, n: Noun)
    requires Ready(road, heap, roots) && Denotes(heap, ref, n) && RefSide(road, ref) != Junior
    ensures NoJunior(road, heap, ref, n)
    decreases n
  {
    if n.Cell? {
      assert Layer(road, heap, ref.p) && Settled(road, heap, ref.p);
      TookNoJunior(road, heap, roots, heap[ref.p].hed, n.h);
      TookNoJunior(road, heap, roots, heap[ref.p].tel, n.t);
    }
  }

  predicate CopiedTo(road: Road, heap: seq<Box>, j: nat, q: nat)
    requires j < |heap| && q < |heap|
  {
    road.SideOf(j) == Junior && Forwarded(heap, j) && heap[j].mug.ref == Own(heap, q)
  }

  /** One copy each: a new box is the copy of one junior only, with the hash which
      that junior had, and a junior has one copy. */
  lemma OneCopy(road: Road, was: seq<Box>, now: seq<Box>, roots: multiset<nat>, q: nat)
    requires Taken(road, was, now) && Ready(road, now, roots) && q < |was| && was[q].Free? && !now[q].Free?
    ensures exists j ::
        0 <= j < |now| && !Forwarded(was, j) && CopiedTo(road, now, j, q) && !was[j].Free? && now[q].mug == was[j].mug
    ensures forall i, j ::
        0 <= i < |now| && 0 <= j < |now| && CopiedTo(road, now, i, q) && CopiedTo(road, now, j, q) ==> i == j
  {
    hide Sound, Denotes, Agree;
    assert IsCopy(road, was, now, q);
    var j :| 0 <= j < |was| && road.SideOf(j) == Junior && !Forwarded(was, j) && Forwarded(now, j)
             && (now[j].mug.ref == Pug(q) || now[j].mug.ref == Pom(q)) && Carries(was[j], now[q]);
    assert Layer(road, now, j);
  }

  lemma WholeFields(road: Road, heap: seq<Box>, roots: multiset<nat>, q: nat)
    requires Ready(road, heap, roots) && q < |heap| && heap[q].Pair?
    ensures Fits(heap, heap[q].hed) && Fits(heap, heap[q].tel)
  {
    hide Fits, Exact, Agree;
    assert Layer(road, heap, q);
    assert Settled(road, heap, q);
  }

  /** What a box that was there denotes after taking it denoted before. */
  lemma {:induction false} TakenBack(road: Road, was: seq<Box>, now: seq<Box>, roots: multiset<nat>, ref: Ref, n: Noun)
    requires Ready(road, was, roots) && Grown(was, now) && Fits(was, ref) && Denotes(now, ref, n)
    ensures Denotes(was, ref, n)
    decreases n
  {
    hide Ready;
    if !ref.Cat? {
      assert Same(was[ref.p], now[ref.p]);
    }
    if n.Cell? {
      WholeFields(road, was, roots, ref.p);
      TakenBack(road, was, now, roots, was[ref.p].hed, n.h);
      TakenBack(road, was, now, roots, was[ref.p].tel, n.t);
    }
  }

  /** Taking keeps hashes right: a copy has the hash of its junior, and is the same
      noun. */
  lemma TakenHashes(road: Road, was: seq<Box>, now: seq<Box>, roots: multiset<nat>, hash: Noun -> nat)
    requires Ready(road, was, roots) && Taken(road, was, now) && Layered(road, now) && Hashed(hash, was)
    ensures Hashed(hash, now)
  {
    hide Ready, Layered, Taken, IsCopy;
    TakenParts(road, was, now);
    forall ref: Ref, n: Noun | !ref.Cat? && Denotes(now, ref, n)
      ensures RightMug(hash, now[ref.p].mug, n)
    {
      DenotesThere(now, ref, n);
      var q := ref.p;
      if was[q].Free? {
        var j := CopyOf(road, was, now, q, n);
        TakenBack(road, was, now, roots, Own(was, j), n);
        assert RightMug(hash, was[j].mug, n);
      } else {
        assert Same(was[q], now[q]);
        TakenBack(road, was, now, roots, ref, n);
        assert RightMug(hash, was[q].mug, n);
      }
    }
  }

  lemma TakenParts(road: Road, was: seq<Box>, now: seq<Box>)
    requires Taken(road, was, now)
    ensures Grown(was, now) && MugsStay(road, was, now)
  {
  }

  lemma DenotesThere(heap: seq<Box>, ref: Ref, n: Noun)
    requires Denotes(heap, ref, n) && !ref.Cat?
    ensures ref.p < |heap| && (if heap[ref.p].Leaf? then ref == Pug(ref.p) else heap[ref.p].Pair? && ref == Pom(ref.p))
  {
  }

  /** The junior that a new box is the copy of, which is the same noun. */
  lemma CopyOf(road: Road, was: seq<Box>, now: seq<Box>, q: nat, n: Noun) returns (j: nat)
    requires Taken(road, was, now) && Layered(road, now) && q < |was| == |now| && was[q].Free? && !now[q].Free?
    requires Denotes(now, Own(now, q), n)
    ensures j < |was| && !was[j].Free? && now[q].mug == was[j].mug && Fits(was, Own(was, j))
    ensures Denotes(now, Own(was, j), n)
  {
    hide Denotes;
    j :| 0 <= j < |was| && road.SideOf(j) == Junior && !Forwarded(was, j) && Forwarded(now, j)
        && (now[j].mug.ref == Pug(q) || now[j].mug.ref == Pom(q)) && Carries(was[j], now[q]);
    assert Layer(road, now, j);
    assert Same(was[j], now[j]);
    assert Fits(now, now[j].mug.ref);
    var m :| Denotes(now, Own(now, j), m) && Denotes(now, now[j].mug.ref, m);
    DenotesOne(now, Own(now, q), n, m);
  }
}
