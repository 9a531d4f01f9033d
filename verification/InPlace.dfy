/** Editing a noun at an axis: cells that nothing else refers to are changed in
    place, along a prefix of the path; from the first shared cell on, they are
    copied. The slot that is being led to holds zero until it is written. */
module InPlace {
  import opened Nouns
  import opened Bits
  import opened Heaps
  import opened Counts
  import opened Take
  import opened EditPath

  function SideRef(box: Box, tail: bool): Ref
    requires box.Pair?
  {
    if tail then box.tel else box.hed
  }

  function WithSide(box: Box, tail: bool, ref: Ref, mug: Mug): (r: Box)
    requires box.Pair?
    ensures r.Pair? && r.use == box.use
    ensures forall b :: SideRef(r, b) == if b == tail then ref else SideRef(box, b)
  {
    if tail then Pair(box.use, mug, box.hed, ref) else Pair(box.use, mug, ref, box.tel)
  }

  /** No juniors, and senior cells refer to seniors. */
  ghost predicate Calm(road: Road, heap: seq<Box>) {
    forall q :: 0 <= q < |heap| ==>
      && (road.SideOf(q) == Junior ==> heap[q].Free?)
      && (road.SideOf(q) == Senior && heap[q].Pair? ==>
            Fits(heap, heap[q].hed) && RefSide(road, heap[q].hed) == Senior && Fits(heap, heap[q].tel)
                && RefSide(road, heap[q].tel) == Senior)
  }

  /** A field changes: what it held becomes loose, what it now holds was. */
  lemma SwapField(road: Road, heap: seq<Box>, roots: multiset<nat>, q: nat, tail: bool, ref: Ref, mug: Mug)
    requires q < |heap| && heap[q].Pair? && road.SideOf(q) == Normal && Sound(road, heap, roots + Counted(road, ref))
    requires Fits(heap, ref) && RefSide(road, ref) != Junior
    ensures Sound(road, heap[q := WithSide(heap[q], tail, ref, mug)], roots + Counted(road, SideRef(heap[q], tail)))
  {
    hide Incoming, Fits, From, Counted, SideRef, Settled;
    var box := WithSide(heap[q], tail, ref, mug);
    var now, was := heap[q := box], SideRef(heap[q], tail);
    assert Settled(road, heap, q);
    FieldThere(road, heap, q, tail);
    FieldThere(road, heap, q, !tail);
    forall p | 0 <= p < |now|
      ensures Settled(road, now, p) && Exact(road, now, roots + Counted(road, was), p)
    {
      assert Settled(road, heap, p) && Exact(road, heap, roots + Counted(road, ref), p);
      SettledSwap(road, heap, q, box, tail, p);
      IncomingUpdate(road, heap, q, box, p, |heap|);
      FromSwap(road, heap, q, tail, ref, mug, p);
    }
    forall r | r in roots + Counted(road, was)
      ensures r < |now| && road.SideOf(r) == Normal && !now[r].Free?
    {
      if r in roots {
        assert r in roots + Counted(road, ref);
      } else {
        CountedOne(road, was, r);
      }
    }
  }

  lemma CountedOne(road: Road, ref: Ref, r: nat)
    requires r in Counted(road, ref)
    ensures !ref.Cat? && r == ref.p && road.SideOf(r) == Normal
  {
  }

  lemma FromSwap(road: Road, heap: seq<Box>, q: nat, tail: bool, ref: Ref, mug: Mug, p: nat)
    requires q < |heap| && heap[q].Pair? && road.SideOf(q) == Normal
    ensures road.SideOf(p) == Normal ==>
      From(road, heap[q := WithSide(heap[q], tail, ref, mug)], q, p) + Counted(road, SideRef(heap[q], tail))[p]
      == From(road, heap, q, p) + Counted(road, ref)[p]
  {
  }

  lemma FieldThere(road: Road, heap: seq<Box>, q: nat, tail: bool)
    requires q < |heap| && heap[q].Pair? && road.SideOf(q) == Normal && Settled(road, heap, q)
    ensures var prior := SideRef(heap[q], tail);
        Fits(heap, prior) && RefSide(road, prior) != Junior
        && (!prior.Cat? ==> prior.p < |heap| && !heap[prior.p].Free?)
  {
  }

  lemma SettledSwap(road: Road, heap: seq<Box>, q: nat, box: Box, tail: bool, p: nat)
    requires q < |heap| && heap[q].Pair? && box.Pair? && p < |heap| && Settled(road, heap, p)
    requires Fits(heap, SideRef(box, tail)) && RefSide(road, SideRef(box, tail)) != Junior
    requires Fits(heap, SideRef(box, !tail)) && RefSide(road, SideRef(box, !tail)) != Junior
    ensures Settled(road, heap[q := box], p)
  {
    FitsAny(heap, q, box);
  }

  lemma FitsAny(heap: seq<Box>, q: nat, box: Box)
    requires q < |heap| && heap[q].Pair? && box.Pair?
    ensures forall ref :: Fits(heap[q := box], ref) == Fits(heap, ref)
  {
  }

  predicate Avoids(t: set<nat>, ref: Ref) {
    ref.Cat? || ref.p !in t
  }

  /** Only cells of `t` refer to cells of `t`. */
  ghost predicate Closed(heap: seq<Box>, t: set<nat>) {
    forall q :: 0 <= q < |heap| && q !in t && heap[q].Pair? ==> Avoids(t, heap[q].hed) && Avoids(t, heap[q].tel)
  }

  /** Outside `t` nothing has changed. */
  predicate Alike(was: seq<Box>, now: seq<Box>, t: set<nat>) {
    |was| == |now| && forall q :: 0 <= q < |was| && q !in t ==> Same(was[q], now[q])
  }

  /** A reference that stays outside `t` denotes what it did. */
  lemma {:induction false} DenotesAlike(was: seq<Box>, now: seq<Box>, t: set<nat>, ref: Ref, n: Noun)
    requires Denotes(was, ref, n) && Closed(was, t) && Alike(was, now, t) && Avoids(t, ref)
    ensures Denotes(now, ref, n)
    decreases n
  {
    if n.Cell? {
      DenotesAlike(was, now, t, was[ref.p].hed, n.h);
      DenotesAlike(was, now, t, was[ref.p].tel, n.t);
    }
  }

  /** The cells from the slot that is led to, up to the result. */
  datatype Trail = Top | Step(p: nat, tail: bool, up: Trail)

  ghost function Cells(trail: Trail): set<nat> {
    match trail
    case Top => {}
    case Step(p, _, up) => {p} + Cells(up)
  }

  /** The trail's slot holds `held`, and every cell of it but the result is held
      by the next one up; what hangs off the trail stays off it. */
  ghost predicate Threaded(road: Road, heap: seq<Box>, trail: Trail, held: Ref, pro: Ref, t: set<nat>)
    decreases trail
  {
    match trail
    case Top => pro == held
    case Step(p, tail, up) =>
      && p < |heap| && heap[p].Pair? && road.SideOf(p) == Normal && p in t && p !in Cells(up)
      && SideRef(heap[p], tail) == held
      && Meant(heap, SideRef(heap[p], !tail)) && Avoids(t, SideRef(heap[p], !tail))
      && Threaded(road, heap, up, Pom(p), pro, t)
  }

  /** The noun the result denotes when the slot denotes `x`. */
  ghost function Fill(road: Road, heap: seq<Box>, trail: Trail, held: Ref, pro: Ref, t: set<nat>, x: Noun): Noun
    requires Threaded(road, heap, trail, held, pro, t)
    decreases trail
  {
    match trail
    case Top => x
    case Step(p, tail, up) =>
      var sib := Means(heap, SideRef(heap[p], !tail));
      Fill(road, heap, up, Pom(p), pro, t, if tail then Cell(sib, x) else Cell(x, sib))
  }

  lemma {:induction false} FillDenotes(road: Road, heap: seq<Box>, trail: Trail, held: Ref, pro: Ref, t: set<nat>,
        x: Noun)
    requires Threaded(road, heap, trail, held, pro, t) && Denotes(heap, held, x)
    ensures Denotes(heap, pro, Fill(road, heap, trail, held, pro, t, x))
    decreases trail
  {
    hide Means, Meant;
    if trail.Step? {
      var ref := SideRef(heap[trail.p], !trail.tail);
      MeansDenotes(heap, ref);
      var sib := Means(heap, ref);
      FillDenotes(road, heap, trail.up, Pom(trail.p), pro, t, if trail.tail then Cell(sib, x) else Cell(x, sib));
    }
  }

  /** The trail as it is after other cells have changed, or it has been led on. */
  lemma {:induction false} ThreadedKept(road: Road, was: seq<Box>, now: seq<Box>, trail: Trail, held: Ref, pro: Ref,
        t: set<nat>, u: set<nat>)
    requires Threaded(road, was, trail, held, pro, t) && |was| == |now| && t <= u
    requires forall q :: q in Cells(trail) && q < |was| ==>
        now[q].Pair? && was[q].Pair? && (now[q].hed == was[q].hed && now[q].tel == was[q].tel)
    requires forall q, b :: q in Cells(trail) && q < |was| && was[q].Pair? && Avoids(t, SideRef(was[q], b)) ==>
        Avoids(u, SideRef(was[q], b))
    requires forall ref, n :: Avoids(u, ref) && Denotes(was, ref, n) ==> Denotes(now, ref, n)
    ensures Threaded(road, now, trail, held, pro, u)
    ensures forall x :: Fill(road, now, trail, held, pro, u, x) == Fill(road, was, trail, held, pro, t, x)
    decreases trail
  {
    hide Means, Meant, Denotes;
    if trail.Step? {
      var p := trail.p;
      var ref := SideRef(was[p], !trail.tail);
      assert p in Cells(trail) && Avoids(t, ref);
      assert SideRef(now[p], !trail.tail) == ref;
      MeansDenotes(was, ref);
      MeansIs(now, ref, Means(was, ref));
      ThreadedKept(road, was, now, trail.up, Pom(p), pro, t, u);
    }
  }

  /** What holds between turns: counts are exact, the trail leads from the result
      to the slot, and nothing outside refers to a cell of the trail. */
  ghost predicate Mid(road: Road, heap: seq<Box>, trail: Trail, pro: Ref, big: Ref, som: Ref, roots: multiset<nat>,
        t: set<nat>) {
    && Sound(road, heap, roots + Counted(road, pro) + Counted(road, big) + Counted(road, som))
    && Calm(road, heap) && Closed(heap, t) && t == Cells(trail) && Threaded(road, heap, trail, Cat(0), pro, t)
    && Fits(heap, big) && Avoids(t, big) && RefSide(road, big) != Junior
    && Fits(heap, som) && Avoids(t, som) && RefSide(road, som) != Junior
    && forall r :: r in roots ==> r !in t
  }

  /** References that others hold denote what they did. */
  ghost predicate Framed(was: seq<Box>, now: seq<Box>, t: set<nat>) {
    forall ref, n :: Avoids(t, ref) && Denotes(was, ref, n) ==> Denotes(now, ref, n)
  }

  lemma FramedAlike(was: seq<Box>, now: seq<Box>, t: set<nat>)
    requires Closed(was, t) && Alike(was, now, t)
    ensures Framed(was, now, t)
  {
    hide Closed, Alike, Denotes;
    forall ref, n | Avoids(t, ref) && Denotes(was, ref, n)
      ensures Denotes(now, ref, n)
    {
      DenotesAlike(was, now, t, ref, n);
    }
  }

  /** The slot that is led to, filled. */
  function PutOut(heap: seq<Box>, trail: Trail, ref: Ref): seq<Box>
    requires trail.Step? ==> trail.p < |heap| && heap[trail.p].Pair?
  {
    if trail.Top? then heap else heap[trail.p := WithSide(heap[trail.p], trail.tail, ref, heap[trail.p].mug)]
  }

  predicate SameFields(was: seq<Box>, now: seq<Box>, q: nat)
    requires q < |was| && q < |now|
  {
    was[q].Pair? && now[q].Pair? && now[q].hed == was[q].hed && now[q].tel == was[q].tel
  }

  /** A cell is put into the slot, with a slot of its own: the trail is longer. */
  lemma LedOn(road: Road, was: seq<Box>, now: seq<Box>, trail: Trail, pro: Ref, end: Ref, p: nat, tail: bool,
        t: set<nat>)
    requires Threaded(road, was, trail, Cat(0), pro, t) && t == Cells(trail) && |now| == |was| && p < |was| && p !in t
    requires now[p].Pair? && road.SideOf(p) == Normal && SideRef(now[p], tail) == Cat(0)
    requires Meant(now, SideRef(now[p], !tail)) && Avoids(t + {p}, SideRef(now[p], !tail))
    requires if trail.Top? then end == Pom(p)
             else end == pro && now[trail.p].Pair? && SideRef(now[trail.p], trail.tail) == Pom(p)
                  && SideRef(now[trail.p], !trail.tail) == SideRef(was[trail.p], !trail.tail)
    requires forall q :: q in t && q < |was| ==> was[q].Pair? ==> Avoids({p}, was[q].hed) && Avoids({p}, was[q].tel)
    requires forall q :: q in t && q < |was| && (trail.Step? ==> q != trail.p) ==> was[q].Pair? ==>
        SameFields(was, now, q)
    requires Framed(was, now, t + {p})
    ensures Threaded(road, now, Step(p, tail, trail), Cat(0), end, t + {p})
    ensures var sib := Means(now, SideRef(now[p], !tail));
            forall x :: Fill(road, now, Step(p, tail, trail), Cat(0), end, t + {p}, x)
                        == Fill(road, was, trail, Cat(0), pro, t, if tail then Cell(sib, x) else Cell(x, sib))
  {
    hide Means, Meant, Denotes;
    var u := t + {p};
    if trail.Step? {
      var q, up := trail.p, trail.up;
      CellsThere(road, was, up, Pom(q), pro, t);
      ThreadedKept(road, was, now, up, Pom(q), pro, t, u);
      var ref := SideRef(was[q], !trail.tail);
      MeansDenotes(was, ref);
      MeansIs(now, ref, Means(was, ref));
    }
  }

  /** Cells of a trail are cells. */
  lemma {:induction false} CellsThere(road: Road, heap: seq<Box>, trail: Trail, held: Ref, pro: Ref, t: set<nat>)
    requires Threaded(road, heap, trail, held, pro, t)
    ensures forall q :: q in Cells(trail) ==> q < |heap| && heap[q].Pair? && road.SideOf(q) == Normal && q in t
    decreases trail
  {
    hide Means, Meant;
    if trail.Step? {
      CellsThere(road, heap, trail.up, Pom(trail.p), pro, t);
    }
  }

  /** A cell that may be changed: of the road's heap, with one reference. */
  predicate Mutable(road: Road, heap: seq<Box>, ref: Ref) {
    ref.Pom? && ref.p < |heap| && heap[ref.p].Pair? && road.SideOf(ref.p) == Normal && heap[ref.p].use == 1
  }

  /** The one reference to a mutable cell is the one in hand. */
  lemma MutableAlone(road: Road, heap: seq<Box>, trail: Trail, pro: Ref, big: Ref, som: Ref, roots: multiset<nat>,
        t: set<nat>)
    requires Mid(road, heap, trail, pro, big, som, roots, t) && Mutable(road, heap, big)
    ensures forall q :: 0 <= q < |heap| && heap[q].Pair? ==>
        Avoids({big.p}, heap[q].hed) && Avoids({big.p}, heap[q].tel)
    ensures big.p !in roots && Avoids({big.p}, som) && Settled(road, heap, big.p)
  {
    hide Incoming, Threaded, Closed;
    var p := big.p;
    var others := roots + Counted(road, pro) + Counted(road, som);
    CountedIs(road, big);
    assert roots + Counted(road, pro) + Counted(road, big) + Counted(road, som) == others + multiset{p};
    LastRef(road, heap, others, p);
    assert others[p] == 0;
    forall q | 0 <= q < |heap| && heap[q].Pair?
      ensures Avoids({p}, heap[q].hed) && Avoids({p}, heap[q].tel)
    {
      if road.SideOf(q) == Normal {
        assert From(road, heap, q, p) == 0;
      }
    }
  }

  /** The heap after a mutable cell has been put in the slot and its own slot opened. */
  function Opened(heap: seq<Box>, trail: Trail, p: nat, tail: bool): seq<Box>
    requires p < |heap| && heap[p].Pair? && (trail.Step? ==> trail.p < |heap| && heap[trail.p].Pair?)
  {
    var mid := PutOut(heap, trail, Pom(p));
    mid[p := WithSide(mid[p], tail, Cat(0), Mug(0))]
  }

  lemma PutOutSound(road: Road, heap: seq<Box>, trail: Trail, pro: Ref, ref: Ref, rest: multiset<nat>, t: set<nat>)
    requires Threaded(road, heap, trail, Cat(0), pro, t)
        && Sound(road, heap, rest + Counted(road, pro) + Counted(road, ref))
    requires Fits(heap, ref) && RefSide(road, ref) != Junior
    ensures trail.Step? ==> trail.p < |heap| && heap[trail.p].Pair?
    ensures Sound(road, PutOut(heap, trail, ref), rest + Counted(road, if trail.Top? then ref else pro))
    ensures |PutOut(heap, trail, ref)| == |heap| && forall q :: Fits(PutOut(heap, trail, ref), q) == Fits(heap, q)
  {
    hide Sound, Fits, Means, Meant, SideRef, WithSide;
    if trail.Top? {
      assert rest + Counted(road, pro) + Counted(road, ref) == rest + Counted(road, ref);
    } else {
      assert rest + Counted(road, pro) + Counted(road, Cat(0)) == rest + Counted(road, pro);
      SwapField(road, heap, rest + Counted(road, pro), trail.p, trail.tail, ref, heap[trail.p].mug);
      FitsAny(heap, trail.p, WithSide(heap[trail.p], trail.tail, ref, heap[trail.p].mug));
    }
  }

  lemma OpenSound(road: Road, heap: seq<Box>, trail: Trail, pro: Ref, big: Ref, som: Ref, roots: multiset<nat>,
        t: set<nat>, tail: bool)
    requires Mid(road, heap, trail, pro, big, som, roots, t) && Mutable(road, heap, big)
    ensures trail.Step? ==> trail.p < |heap| && heap[trail.p].Pair? && trail.p != big.p
    ensures var now, end, c := Opened(heap, trail, big.p, tail), if trail.Top? then big else pro,
        SideRef(heap[big.p], tail);
            && Sound(road, now, roots + Counted(road, end) + Counted(road, c) + Counted(road, som))
            && |now| == |heap| && (forall q :: Fits(now, q) == Fits(heap, q)) && Fits(now, c)
                && RefSide(road, c) != Junior
  {
    hide Sound, Fits, Means, Meant, WithSide, Calm, Closed;
    var p := big.p;
    var rest := roots + Counted(road, som);
    assert roots + Counted(road, pro) + Counted(road, big) + Counted(road, som) == rest + Counted(road,
        pro) + Counted(road, big);
    PutOutSound(road, heap, trail, pro, big, rest, t);
    var mid, end, c := PutOut(heap, trail, big), if trail.Top? then big else pro, SideRef(heap[p], tail);
    assert rest + Counted(road, end) + Counted(road, Cat(0)) == rest + Counted(road, end);
    CatFits(road, mid);
    SwapField(road, mid, rest + Counted(road, end), p, tail, Cat(0), Mug(0));
    FitsAny(mid, p, WithSide(mid[p], tail, Cat(0), Mug(0)));
    assert rest + Counted(road, end) + Counted(road, c) == roots + Counted(road, end) + Counted(road,
        c) + Counted(road, som);
    SoundSettled(road, mid, rest + Counted(road, end), p);
    FieldThere(road, mid, p, tail);
  }

  lemma CatFits(road: Road, heap: seq<Box>)
    ensures Fits(heap, Cat(0)) && RefSide(road, Cat(0)) != Junior
  {
  }

  lemma SoundSettled(road: Road, heap: seq<Box>, roots: multiset<nat>, p: nat)
    requires Sound(road, heap, roots) && p < |heap|
    ensures Settled(road, heap, p)
  {
  }

  /** A turn at a mutable cell: the slot is opened, and the trail goes on through
      it. */
  lemma MutableOpens(road: Road, heap: seq<Box>, trail: Trail, pro: Ref, big: Ref, som: Ref, roots: multiset<nat>,
        t: set<nat>, tail: bool, cur: Noun)
    requires Mid(road, heap, trail, pro, big, som, roots, t) && Mutable(road, heap, big) && Denotes(heap, big, cur)
    ensures big.p < |heap| && heap[big.p].Pair? && cur.Cell?
    ensures trail.Step? ==> trail.p < |heap| && heap[trail.p].Pair? && trail.p != big.p
    ensures var now, end, u, c := Opened(heap, trail, big.p, tail), if trail.Top? then big else pro, t + {big.p},
        SideRef(heap[big.p], tail);
            && |now| == |heap| && Framed(heap, now, u) && Calm(road, now) && Closed(now, u) && Avoids(u, c)
            && Threaded(road, now, Step(big.p, tail, trail), Cat(0), end, u)
            && Denotes(now, c, if tail then cur.t else cur.h)
            && Meant(now, SideRef(heap[big.p], !tail))
                && Means(now, SideRef(heap[big.p], !tail)) == (if tail then cur.h else cur.t)
            && forall x :: Fill(road, now, Step(big.p, tail, trail), Cat(0), end, u, x)
                           == Fill(road, heap, trail, Cat(0), pro, t, if tail then Cell(cur.h, x) else Cell(x, cur.t))
  {
    var p, u := big.p, t + {big.p};
    hide Sound, Means, Meant, Fits, Threaded, Fill, Opened, Closed, Calm, Denotes, Mutable, Mid, Counted;
    MidFacts(road, heap, trail, pro, big, som, roots, t);
    MutableAlone(road, heap, trail, pro, big, som, roots, t);
    OpenSound(road, heap, trail, pro, big, som, roots, t, tail);
    CellsThere(road, heap, trail, Cat(0), pro, t);
    TrailTop(trail, t);
    DenotesField(heap, big, cur);
    var now, end := Opened(heap, trail, p, tail), if trail.Top? then big else pro;
    var c, sib := SideRef(heap[p], tail), SideRef(heap[p], !tail);
    OpenShape(heap, trail, p, tail, t);
    FramedAlike(heap, now, u);
    MutableNormal(road, heap, big);
    OpenCalm(road, heap, now, u);
    MeansIs(now, sib, if tail then cur.h else cur.t);
    LedOn(road, heap, now, trail, pro, end, p, tail, t);
  }

  lemma MutableMid(road: Road, heap: seq<Box>, trail: Trail, pro: Ref, big: Ref, som: Ref, roots: multiset<nat>,
        t: set<nat>, tail: bool, cur: Noun)
    requires Mid(road, heap, trail, pro, big, som, roots, t) && Mutable(road, heap, big) && Denotes(heap, big, cur)
    ensures trail.Step? ==> trail.p < |heap| && heap[trail.p].Pair? && trail.p != big.p
    ensures var now, end, u, c := Opened(heap, trail, big.p, tail), if trail.Top? then big else pro, t + {big.p},
        SideRef(heap[big.p], tail);
            && Mid(road, now, Step(big.p, tail, trail), end, c, som, roots, u) && Framed(heap, now, u)
            && cur.Cell? && Denotes(now, c, if tail then cur.t else cur.h)
            && Meant(now, SideRef(heap[big.p], !tail))
                && Means(now, SideRef(heap[big.p], !tail)) == (if tail then cur.h else cur.t)
            && forall x :: Fill(road, now, Step(big.p, tail, trail), Cat(0), end, u, x)
                           == Fill(road, heap, trail, Cat(0), pro, t, if tail then Cell(cur.h, x) else Cell(x, cur.t))
  {
    MutableOpens(road, heap, trail, pro, big, som, roots, t, tail, cur);
    OpenSound(road, heap, trail, pro, big, som, roots, t, tail);
    MutableAlone(road, heap, trail, pro, big, som, roots, t);
    hide Sound, Means, Meant, Fits, Threaded, Fill, Opened, Closed, Calm, Denotes, Mutable, Framed, Counted;
  }

  lemma TrailTop(trail: Trail, t: set<nat>)
    requires t == Cells(trail)
    ensures trail.Step? ==> trail.p in t
  {
  }

  lemma MutableNormal(road: Road, heap: seq<Box>, big: Ref)
    requires Mutable(road, heap, big)
    ensures road.SideOf(big.p) == Normal
  {
  }

  /** What opening a cell leaves of the heap. */
  lemma OpenShape(heap: seq<Box>, trail: Trail, p: nat, tail: bool, t: set<nat>)
    requires p < |heap| && heap[p].Pair? && p !in t && Closed(heap, t)
    requires trail.Step? ==> trail.p < |heap| && heap[trail.p].Pair? && trail.p in t
    requires forall q :: 0 <= q < |heap| && heap[q].Pair? ==> Avoids({p}, heap[q].hed) && Avoids({p}, heap[q].tel)
    ensures var now, u := Opened(heap, trail, p, tail), t + {p};
            && |now| == |heap| && Closed(heap, u) && Closed(now, u) && Alike(heap, now, u)
            && Avoids(u, heap[p].hed) && Avoids(u, heap[p].tel)
            && now[p].Pair? && SideRef(now[p], tail) == Cat(0) && SideRef(now[p], !tail) == SideRef(heap[p], !tail)
            && (trail.Step? ==> now[trail.p].Pair? && SideRef(now[trail.p], trail.tail) == Pom(p)
                                && SideRef(now[trail.p], !trail.tail) == SideRef(heap[trail.p], !trail.tail))
            && (forall q :: 0 <= q < |heap| && q != p && (trail.Step? ==> q != trail.p) ==> now[q] == heap[q])
            && (forall q :: 0 <= q < |heap| && q !in u ==> now[q] == heap[q])
  {
  }

  lemma OpenCalm(road: Road, was: seq<Box>, now: seq<Box>, u: set<nat>)
    requires Calm(road, was) && |was| == |now|
    requires forall q :: 0 <= q < |was| && q !in u ==> now[q] == was[q]
    requires forall q :: q in u && q < |was| ==> road.SideOf(q) == Normal
    requires forall ref :: Fits(now, ref) == Fits(was, ref)
    ensures Calm(road, now)
  {
    hide Fits;
  }

  /** Only counts have gone up, on the road's heap. */
  predicate Gained(road: Road, was: seq<Box>, now: seq<Box>) {
    |was| == |now| && forall q :: 0 <= q < |was| ==>
      && Kept(was[q], now[q]) && (was[q].Free? <==> now[q].Free?) && (road.SideOf(q) != Normal ==> now[q] == was[q])
      && (!was[q].Free? ==> now[q].use >= was[q].use)
  }

  /** Count one more reference, if it is counted at all. */
  method Keep(m: Memory, ref: Ref, ghost roots: multiset<nat>) returns (ok: bool)
    requires Sound(m.road, m.heap, roots) && Fits(m.heap, ref) && RefSide(m.road, ref) != Junior
    modifies m`heap
    ensures !ok ==> Spent(m.road, m.heap)
    ensures ok ==> Sound(m.road, m.heap, roots + Counted(m.road, ref)) && Gained(m.road, old(m.heap), m.heap)
    ensures ok ==> forall r :: Fits(m.heap, r) == Fits(old(m.heap), r)
  {
    hide Sound;
    if RefSide(m.road, ref) != Normal || ref.Cat? {
      assert roots + Counted(m.road, ref) == roots;
      return true;
    }
    CountedIs(m.road, ref);
    ok := m.GainUse(ref.p, roots);
  }

  /** A new cell, both of whose slots are open. */
  method NewCell(m: Memory, ghost roots: multiset<nat>) returns (cell: Option<nat>)
    requires Sound(m.road, m.heap, roots)
    modifies m`heap
    ensures cell.None? ==> Spent(m.road, m.heap)
    ensures cell.Some? ==>
      && cell.value < |old(m.heap)| && m.road.SideOf(cell.value) == Normal && old(m.heap)[cell.value].Free?
      && m.heap == old(m.heap)[cell.value := Pair(1, Mug(0), Cat(0), Cat(0))]
      && Sound(m.road, m.heap, roots + multiset{cell.value})
  {
    if !exists q :: 0 <= q < |m.heap| && m.road.SideOf(q) == Normal && m.heap[q].Free? {
      return None;
    }
    var q: nat :| q < |m.heap| && m.road.SideOf(q) == Normal && m.heap[q].Free?;
    NewSound(m.road, m.heap, roots, q);
    m.heap := m.heap[q := Pair(1, Mug(0), Cat(0), Cat(0))];
    cell := Some(q);
  }

  lemma NewSound(road: Road, heap: seq<Box>, roots: multiset<nat>, q: nat)
    requires Sound(road, heap, roots) && q < |heap| && road.SideOf(q) == Normal && heap[q].Free?
    ensures Sound(road, heap[q := Pair(1, Mug(0), Cat(0), Cat(0))], roots + multiset{q})
  {
    hide Incoming, From;
    var box := Pair(1, Mug(0), Cat(0), Cat(0));
    var now := heap[q := box];
    FreeUnreferenced(road, heap, roots, q);
    forall p | 0 <= p < |now|
      ensures Settled(road, now, p) && Exact(road, now, roots + multiset{q}, p)
    {
      assert Settled(road, heap, p) && Exact(road, heap, roots, p);
      IncomingUpdate(road, heap, q, box, p, |heap|);
      NewFrom(road, heap, q, p);
    }
    assert forall r :: r in roots + multiset{q} ==> r in roots || r == q;
  }

  lemma NewFrom(road: Road, heap: seq<Box>, q: nat, p: nat)
    requires q < |heap| && heap[q].Free?
    ensures From(road, heap, q, p) == 0 && From(road, heap[q := Pair(1, Mug(0), Cat(0), Cat(0))], q, p) == 0
  {
  }

  /** Nothing refers to a free box. */
  lemma FreeAlone(road: Road, heap: seq<Box>, roots: multiset<nat>, q: nat)
    requires Sound(road, heap, roots) && Calm(road, heap) && q < |heap| && heap[q].Free? && road.SideOf(q) == Normal
    ensures forall p :: 0 <= p < |heap| && heap[p].Pair? ==> Avoids({q}, heap[p].hed) && Avoids({q}, heap[p].tel)
    ensures forall ref :: Fits(heap, ref) ==> Avoids({q}, ref)
    ensures q !in roots
  {
    forall p | 0 <= p < |heap| && heap[p].Pair?
      ensures Avoids({q}, heap[p].hed) && Avoids({q}, heap[p].tel)
    {
      assert Settled(road, heap, p);
    }
  }

  /** What the two fields of a cell in hand are. */
  lemma FieldFacts(road: Road, heap: seq<Box>, roots: multiset<nat>, t: set<nat>, big: Ref, cur: Noun, tail: bool)
    requires Sound(road, heap, roots) && Calm(road, heap) && Closed(heap, t) && big.Pom? && Fits(heap, big)
        && Avoids(t, big) && Denotes(heap, big, cur)
    ensures var ref := SideRef(heap[big.p], tail);
            && Fits(heap, ref) && Avoids(t, ref) && RefSide(road, ref) != Junior && cur.Cell?
                && Denotes(heap, ref, if tail then cur.t else cur.h)
  {
    hide Exact, Fits, Denotes;
    DenotesField(heap, big, cur);
    assert Settled(road, heap, big.p);
    NoJuniorBox(road, heap, big);
  }

  lemma DenotesField(heap: seq<Box>, big: Ref, cur: Noun)
    requires big.Pom? && Denotes(heap, big, cur)
    ensures cur.Cell? && big.p < |heap| && heap[big.p].Pair? && Denotes(heap, heap[big.p].hed, cur.h)
        && Denotes(heap, heap[big.p].tel, cur.t)
  {
  }

  lemma NoJuniorBox(road: Road, heap: seq<Box>, big: Ref)
    requires Calm(road, heap) && big.Pom? && Fits(heap, big)
    ensures road.SideOf(big.p) != Junior
  {
  }

  lemma ThreadedGrown(road: Road, was: seq<Box>, now: seq<Box>, trail: Trail, held: Ref, pro: Ref, t: set<nat>)
    requires Threaded(road, was, trail, held, pro, t) && Grown(was, now)
    ensures Threaded(road, now, trail, held, pro, t)
  {
    hide Threaded, Means, Denotes;
    CellsThere(road, was, trail, held, pro, t);
    forall q | q in Cells(trail)
      ensures now[q].Pair? && now[q].hed == was[q].hed && now[q].tel == was[q].tel
    {
      assert Same(was[q], now[q]);
    }
    forall ref, n | Avoids(t, ref) && Denotes(was, ref, n)
      ensures Denotes(now, ref, n)
    {
      DenotesGrown(was, now, ref, n);
    }
    ThreadedKept(road, was, now, trail, held, pro, t, t);
  }

  /** Write the slot that is led to. */
  method SetOut(m: Memory, ghost trail: Trail, out: Option<(nat, bool)>, pro: Ref, ref: Ref, ghost rest: multiset<nat>,
        ghost t: set<nat>)
    returns (end: Ref)
    requires Threaded(m.road, m.heap, trail, Cat(0), pro, t)
        && Sound(m.road, m.heap, rest + Counted(m.road, pro) + Counted(m.road, ref))
    requires Fits(m.heap, ref) && RefSide(m.road, ref) != Junior
    requires out == if trail.Top? then None else Some((trail.p, trail.tail))
    modifies m`heap
    ensures trail.Step? ==> trail.p < |old(m.heap)| && old(m.heap)[trail.p].Pair?
    ensures m.heap == PutOut(old(m.heap), trail, ref) && end == (if trail.Top? then ref else pro)
    ensures Sound(m.road, m.heap, rest + Counted(m.road, end)) && |m.heap| == |old(m.heap)|
    ensures forall r :: Fits(m.heap, r) == Fits(old(m.heap), r)
  {
    hide Sound, Means, Meant, Fits;
    PutOutSound(m.road, m.heap, trail, pro, ref, rest, t);
    match out
    case None =>
      end := ref;
    case Some(at) =>
      m.heap := m.heap[at.0 := WithSide(m.heap[at.0], at.1, ref, m.heap[at.0].mug)];
      end := pro;
  }

  /** The copy of a cell, with its own slot open, put in the slot. */
  function Shared(heap: seq<Box>, trail: Trail, p: nat, cell: nat, tail: bool): seq<Box>
    requires p < |heap| && heap[p].Pair? && cell < |heap| && (trail.Step? ==> trail.p < |heap| && heap[trail.p].Pair?)
  {
    PutOut(heap[cell := WithSide(Pair(1, Mug(0), Cat(0), Cat(0)), !tail, SideRef(heap[p], !tail), Mug(0))], trail,
        Pom(cell))
  }

  method CopyCell(m: Memory, ghost trail: Trail, out: Option<(nat, bool)>, pro: Ref, big: Ref, ghost som: Ref,
        ghost roots: multiset<nat>, ghost t: set<nat>, tail: bool, ghost cur: Noun)
    returns (ok: bool, cell: nat, end: Ref)
    requires Mid(m.road, m.heap, trail, pro, big, som, roots, t) && big.Pom? && Denotes(m.heap, big, cur)
    requires out == if trail.Top? then None else Some((trail.p, trail.tail))
    modifies m`heap
    ensures big.p < |old(m.heap)| && old(m.heap)[big.p].Pair?
        && (trail.Step? ==> trail.p < |old(m.heap)| && old(m.heap)[trail.p].Pair?)
    ensures !ok ==> Spent(m.road, m.heap)
    ensures ok ==> cell < |old(m.heap)| && m.road.SideOf(cell) == Normal && old(m.heap)[cell].Free?
    ensures ok ==> end == if trail.Top? then Pom(cell) else pro
    ensures ok ==> Gained(m.road, Shared(old(m.heap), trail, big.p, cell, tail), m.heap)
    ensures ok ==> Sound(m.road, m.heap, roots + Counted(m.road, som) + Counted(m.road, end)
                                         + Counted(m.road, SideRef(old(m.heap)[big.p], tail)) + Counted(m.road, big))
  {
    hide *;
    ghost var h0, road := m.heap, m.road;
    ghost var rest := roots + Counted(road, som) + Counted(road, big);
    ghost var r0 := roots + Counted(road, pro) + Counted(road, big) + Counted(road, som);
    ok, cell, end := false, 0, pro;
    MidFacts(road, h0, trail, pro, big, som, roots, t);
    FieldFacts(road, h0, r0, t, big, cur, tail);
    FieldFacts(road, h0, r0, t, big, cur, !tail);
    TrailThere(road, h0, trail, pro, t);
    DenotesField(h0, big, cur);
    var c, sib := SideRef(m.heap[big.p], tail), SideRef(m.heap[big.p], !tail);
    var got := NewCell(m, r0);
    if got.None? {
      return;
    }
    cell := got.value;
    ghost var h1 := m.heap;
    NewGrown(h0, cell);
    ThreadedGrown(road, h0, h1, trail, Cat(0), pro, t);
    NewFits(h0, h1, cell);
    CountedIs(road, Pom(cell));
    CellSide(road, cell);
    assert r0 + multiset{cell} == rest + Counted(road, pro) + Counted(road, Pom(cell));
    end := SetOut(m, trail, out, pro, Pom(cell), rest, t);
    ghost var h2 := m.heap;
    NewOut(h1, trail, cell);
    ghost var h4;
    ok, h4 := ShareFields(m, cell, tail, c, sib, rest + Counted(road, end));
    if ok {
      SharedGained(road, h0, trail, big.p, cell, tail, h4);
      assert rest + Counted(road, end) + Counted(road, c)
             == roots + Counted(road, som) + Counted(road, end) + Counted(road, c) + Counted(road, big);
    }
  }

  /** Gain both of a cell's fields: one goes into the copy, one stays in hand. */
  method ShareFields(m: Memory, cell: nat, tail: bool, c: Ref, sib: Ref, ghost roots: multiset<nat>)
        returns (ok: bool, ghost h4: seq<Box>)
    requires Sound(m.road, m.heap, roots) && Fits(m.heap, c) && RefSide(m.road, c) != Junior && Fits(m.heap, sib)
        && RefSide(m.road, sib) != Junior
    requires cell < |m.heap| && m.heap[cell] == Pair(1, Mug(0), Cat(0), Cat(0)) && m.road.SideOf(cell) == Normal
    modifies m`heap
    ensures !ok ==> Spent(m.road, m.heap)
    ensures ok ==> |h4| == |old(m.heap)| && Gained(m.road, old(m.heap), h4) && h4[cell].Pair?
                   && m.heap == h4[cell := WithSide(h4[cell], !tail, sib, Mug(0))]
                       && Sound(m.road, m.heap, roots + Counted(m.road, c))
  {
    hide Sound, Fits;
    ghost var h2 := m.heap;
    h4 := m.heap;
    ok := Keep(m, c, roots);
    if !ok {
      return;
    }
    ghost var h3 := m.heap;
    ok := Keep(m, sib, roots + Counted(m.road, c));
    if !ok {
      return;
    }
    h4 := m.heap;
    assert Same(h2[cell], h3[cell]) && Same(h3[cell], h4[cell]);
    GainedTrans(m.road, h2, h3, h4);
    SwapField(m.road, h4, roots + Counted(m.road, c), cell, !tail, sib, Mug(0));
    m.heap := m.heap[cell := WithSide(m.heap[cell], !tail, sib, Mug(0))];
    assert roots + Counted(m.road, c) + Counted(m.road, Cat(0)) == roots + Counted(m.road, c);
  }

  lemma GainedTrans(road: Road, a: seq<Box>, b: seq<Box>, c: seq<Box>)
    requires Gained(road, a, b) && Gained(road, b, c)
    ensures Gained(road, a, c)
  {
    forall q | 0 <= q < |a|
      ensures Same(a[q], c[q])
    {
      assert Same(a[q], b[q]) && Same(b[q], c[q]);
    }
  }

  lemma MidFacts(road: Road, heap: seq<Box>, trail: Trail, pro: Ref, big: Ref, som: Ref, roots: multiset<nat>,
        t: set<nat>)
    requires Mid(road, heap, trail, pro, big, som, roots, t)
    ensures Sound(road, heap, roots + Counted(road, pro) + Counted(road, big) + Counted(road, som)) && Calm(road, heap)
        && Closed(heap, t)
    ensures Threaded(road, heap, trail, Cat(0), pro, t) && t == Cells(trail) && Fits(heap, big) && Avoids(t, big)
  {
  }

  lemma CellSide(road: Road, cell: nat)
    requires road.SideOf(cell) == Normal
    ensures RefSide(road, Pom(cell)) != Junior
  {
  }

  lemma NewGrown(heap: seq<Box>, cell: nat)
    requires cell < |heap| && heap[cell].Free?
    ensures Grown(heap, heap[cell := Pair(1, Mug(0), Cat(0), Cat(0))])
  {
  }

  /** A new cell is not the slot it is put in. */
  lemma NewOut(heap: seq<Box>, trail: Trail, cell: nat)
    requires cell < |heap| && heap[cell].Pair?
        && (trail.Step? ==> trail.p < |heap| && heap[trail.p].Pair? && trail.p != cell)
    ensures PutOut(heap, trail, Pom(cell))[cell] == heap[cell]
  {
  }

  lemma TrailThere(road: Road, heap: seq<Box>, trail: Trail, pro: Ref, t: set<nat>)
    requires Threaded(road, heap, trail, Cat(0), pro, t)
    ensures trail.Step? ==> trail.p < |heap| && heap[trail.p].Pair?
  {
  }

  lemma NewFits(was: seq<Box>, now: seq<Box>, cell: nat)
    requires Grown(was, now) && cell < |now| && now[cell].Pair?
    ensures Fits(now, Pom(cell)) && forall ref :: Fits(was, ref) ==> Fits(now, ref)
  {
    forall ref | Fits(was, ref)
      ensures Fits(now, ref)
    {
      FitsGrown(was, now, ref);
    }
  }

  lemma SharedGained(road: Road, h0: seq<Box>, trail: Trail, p: nat, cell: nat, tail: bool, h4: seq<Box>)
    requires p < |h0| && h0[p].Pair? && cell < |h0| && h0[cell].Free? && road.SideOf(cell) == Normal
        && (trail.Step? ==> trail.p < |h0| && h0[trail.p].Pair?)
    requires Gained(road, PutOut(h0[cell := Pair(1, Mug(0), Cat(0), Cat(0))], trail, Pom(cell)), h4)
    ensures h4[cell].Pair?
    ensures Gained(road, Shared(h0, trail, p, cell, tail),
        h4[cell := WithSide(h4[cell], !tail, SideRef(h0[p], !tail), Mug(0))])
  {
    var h2 := PutOut(h0[cell := Pair(1, Mug(0), Cat(0), Cat(0))], trail, Pom(cell));
    assert Same(h2[cell], h4[cell]);
  }

  /** Contents as in `base`, and boxes off the road's heap too. */
  predicate Settles(road: Road, base: seq<Box>, now: seq<Box>) {
    |base| == |now| && forall q :: 0 <= q < |base| ==>
      Kept(base[q], now[q]) && (base[q].Free? <==> now[q].Free?) && (road.SideOf(q) != Normal ==> now[q] == base[q])
  }

  lemma CalmKept(road: Road, was: seq<Box>, now: seq<Box>)
    requires Calm(road, was) && |was| == |now| && forall q :: 0 <= q < |was| && road.SideOf(q) != Normal ==>
        now[q] == was[q]
    ensures Calm(road, now)
  {
  }

  /** What sharing leaves of each box. */
  lemma SharedBox(road: Road, h0: seq<Box>, trail: Trail, p: nat, cell: nat, tail: bool, now: seq<Box>, q: nat)
    requires p < |h0| && h0[p].Pair? && cell < |h0| && h0[cell].Free? && road.SideOf(cell) == Normal && q < |h0|
    requires trail.Step? ==> trail.p < |h0| && h0[trail.p].Pair? && road.SideOf(trail.p) == Normal
    requires Settles(road, Shared(h0, trail, p, cell, tail), now)
    ensures |now| == |h0|
    ensures q == cell ==>
        now[q].Pair? && SideRef(now[q], tail) == Cat(0) && SideRef(now[q], !tail) == SideRef(h0[p], !tail)
        && now[q].mug == Mug(0)
    ensures trail.Step? && q == trail.p ==> now[q].Pair? && SideRef(now[q], trail.tail) == Pom(cell)
                                            && SideRef(now[q], !trail.tail) == SideRef(h0[q], !trail.tail)
                                            && (q != cell ==> now[q].mug == h0[q].mug)
    ensures q != cell && (trail.Step? ==> q != trail.p) ==> Kept(h0[q], now[q]) && (h0[q].Free? <==> now[q].Free?)
    ensures q != cell ==> (h0[q].Leaf? <==> now[q].Leaf?) && (h0[q].Pair? <==> now[q].Pair?)
    ensures road.SideOf(q) != Normal ==> now[q] == h0[q]
  {
    assert Kept(Shared(h0, trail, p, cell, tail)[q], now[q]);
  }

  /** What a turn does to memory: at a cell with no other reference, open its slot and
      lead to it; at any other, lead to a copy of it with the slot open. */
  ghost predicate OpenedTo(was: seq<Box>, now: seq<Box>, trail: Trail, p: nat, tail: bool) {
    && p < |was| && was[p].Pair? && (trail.Step? ==> trail.p < |was| && was[trail.p].Pair?)
    && now == Opened(was, trail, p, tail)
  }

  ghost predicate SharedTo(road: Road, was: seq<Box>, now: seq<Box>, trail: Trail, p: nat, cell: nat, tail: bool) {
    && p < |was| && was[p].Pair?
        && (trail.Step? ==> trail.p < |was| && was[trail.p].Pair? && road.SideOf(trail.p) == Normal)
    && cell < |was| && was[cell].Free? && road.SideOf(cell) == Normal
    && Settles(road, Shared(was, trail, p, cell, tail), now)
  }

  ghost predicate TurnedTo(road: Road, was: seq<Box>, now: seq<Box>, trail: Trail, big: Ref, p: nat, tail: bool) {
    big.Pom? && if Mutable(road, was, big) then p == big.p && OpenedTo(was, now, trail, p, tail)
                else SharedTo(road, was, now, trail, big.p, p, tail)
  }

  /** A turn at a cell that is not mutable. */
  lemma CopyMid(road: Road, h0: seq<Box>, trail: Trail, pro: Ref, big: Ref, som: Ref, roots: multiset<nat>,
        t: set<nat>, tail: bool, cur: Noun, cell: nat, end: Ref, now: seq<Box>)
    requires Mid(road, h0, trail, pro, big, som, roots, t) && big.Pom? && Denotes(h0, big, cur)
    requires big.p < |h0| && h0[big.p].Pair? && cell < |h0| && h0[cell].Free? && road.SideOf(cell) == Normal
    requires trail.Step? ==> trail.p < |h0| && h0[trail.p].Pair?
    requires end == if trail.Top? then Pom(cell) else pro
    requires Settles(road, Shared(h0, trail, big.p, cell, tail), now)
    requires Sound(road, now, roots + Counted(road, end) + Counted(road, SideRef(h0[big.p], tail)) + Counted(road, som))
    ensures var u, c := t + {cell}, SideRef(h0[big.p], tail);
            && Mid(road, now, Step(cell, tail, trail), end, c, som, roots, u) && Framed(h0, now, u)
            && cur.Cell? && Denotes(now, c, if tail then cur.t else cur.h)
            && forall x :: Fill(road, now, Step(cell, tail, trail), Cat(0), end, u, x)
                           == Fill(road, h0, trail, Cat(0), pro, t, if tail then Cell(cur.h, x) else Cell(x, cur.t))
  {
    hide Sound, Means, Meant, Fits, Threaded, Fill, Denotes, Shared, Calm, Settles, SideRef;
    var r0 := roots + Counted(road, pro) + Counted(road, big) + Counted(road, som);
    var u := t + {cell};
    var c, sib := SideRef(h0[big.p], tail), SideRef(h0[big.p], !tail);
    FieldFacts(road, h0, r0, t, big, cur, tail);
    FieldFacts(road, h0, r0, t, big, cur, !tail);
    FreeAlone(road, h0, r0, cell);
    CellsThere(road, h0, trail, Cat(0), pro, t);
    CellNew(h0, t, trail, cell);
    CopyAlike(road, h0, trail, big.p, cell, tail, now, t);
    FramedAlike(h0, now, u);
    CalmKept(road, h0, now);
    FitsShared(h0, now, cell, c);
    FitsShared(h0, now, cell, som);
    MeansIs(now, sib, if tail then cur.h else cur.t);
    SharedBox(road, h0, trail, big.p, cell, tail, now, cell);
    if trail.Step? {
      SharedBox(road, h0, trail, big.p, cell, tail, now, trail.p);
    }
    CopySame(road, h0, trail, big.p, cell, tail, now, t);
    LedOn(road, h0, now, trail, pro, end, cell, tail, t);
  }

  lemma CellNew(heap: seq<Box>, t: set<nat>, trail: Trail, cell: nat)
    requires cell < |heap| && heap[cell].Free? && t == Cells(trail) && forall q :: q in Cells(trail) ==>
        q < |heap| && heap[q].Pair?
    ensures cell !in t && (trail.Step? ==> trail.p in t)
  {
  }

  lemma FitsShared(was: seq<Box>, now: seq<Box>, cell: nat, ref: Ref)
    requires |was| == |now| && Fits(was, ref) && cell < |was| && was[cell].Free?
    requires forall q :: 0 <= q < |was| && q != cell ==>
        (was[q].Leaf? <==> now[q].Leaf?) && (was[q].Pair? <==> now[q].Pair?)
    ensures Fits(now, ref)
  {
  }

  lemma CopyAlike(road: Road, h0: seq<Box>, trail: Trail, p: nat, cell: nat, tail: bool, now: seq<Box>, t: set<nat>)
    requires p < |h0| && h0[p].Pair? && cell < |h0| && h0[cell].Free? && road.SideOf(cell) == Normal
    requires trail.Step? ==> trail.p < |h0| && h0[trail.p].Pair? && road.SideOf(trail.p) == Normal && trail.p in t
    requires Settles(road, Shared(h0, trail, p, cell, tail), now) && Closed(h0, t)
    requires forall q :: 0 <= q < |h0| && h0[q].Pair? ==> Avoids({cell}, h0[q].hed) && Avoids({cell}, h0[q].tel)
    ensures |now| == |h0| && Closed(h0, t + {cell}) && Closed(now, t + {cell}) && Alike(h0, now, t + {cell})
    ensures forall q :: 0 <= q < |h0| && road.SideOf(q) != Normal ==> now[q] == h0[q]
    ensures forall q :: 0 <= q < |h0| && q != cell ==>
        (h0[q].Leaf? <==> now[q].Leaf?) && (h0[q].Pair? <==> now[q].Pair?)
  {
    hide Shared, Settles;
    SharedBox(road, h0, trail, p, cell, tail, now, cell);
    forall q | 0 <= q < |h0|
      ensures q !in t + {cell} ==> Same(h0[q], now[q]) && (h0[q].Free? <==> now[q].Free?)
      ensures road.SideOf(q) != Normal ==> now[q] == h0[q]
      ensures q != cell ==> (h0[q].Leaf? <==> now[q].Leaf?) && (h0[q].Pair? <==> now[q].Pair?)
    {
      SharedBox(road, h0, trail, p, cell, tail, now, q);
    }
  }

  lemma CopySame(road: Road, h0: seq<Box>, trail: Trail, p: nat, cell: nat, tail: bool, now: seq<Box>, t: set<nat>)
    requires p < |h0| && h0[p].Pair? && cell < |h0| && h0[cell].Free? && road.SideOf(cell) == Normal
    requires trail.Step? ==> trail.p < |h0| && h0[trail.p].Pair? && road.SideOf(trail.p) == Normal
    requires Settles(road, Shared(h0, trail, p, cell, tail), now) && cell !in t
    ensures |now| == |h0|
    ensures forall q :: q in t && q < |h0| && (trail.Step? ==> q != trail.p) ==> h0[q].Pair? ==> SameFields(h0, now, q)
  {
    hide Shared, Settles;
    SharedBox(road, h0, trail, p, cell, tail, now, cell);
    forall q | q in t && q < |h0| && (trail.Step? ==> q != trail.p) && h0[q].Pair?
      ensures SameFields(h0, now, q)
    {
      SharedBox(road, h0, trail, p, cell, tail, now, q);
    }
  }

  /** A mutable cell in hand is in no field. After a copy the next cell is still in
      a field of the original, so it is copied too: the cells changed in place are
      a prefix of the path. */
  lemma MutableInNoField(road: Road, heap: seq<Box>, roots: multiset<nat>, c: Ref, p: nat, tail: bool)
    requires Sound(road, heap, roots + Counted(road, c)) && Calm(road, heap) && Mutable(road, heap, c)
    requires p < |heap| && heap[p].Pair?
    ensures SideRef(heap[p], tail) != c
  {
    CountedIs(road, c);
    LastRef(road, heap, roots, c.p);
    assert From(road, heap, p, c.p) == 0;
  }

  /** What is still there denotes what it did. */
  lemma {:induction false} DenotesShrunk(road: Road, was: seq<Box>, now: seq<Box>, roots: multiset<nat>, ref: Ref,
        n: Noun)
    requires Shrunk(road, was, now) && Sound(road, now, roots) && Calm(road, now) && Fits(now, ref)
        && Denotes(was, ref, n)
    ensures Denotes(now, ref, n)
    decreases n
  {
    hide Exact;
    if n.Cell? {
      assert Settled(road, now, ref.p);
      DenotesShrunk(road, was, now, roots, was[ref.p].hed, n.h);
      DenotesShrunk(road, was, now, roots, was[ref.p].tel, n.t);
    }
  }

  lemma ShrunkCalm(road: Road, was: seq<Box>, now: seq<Box>)
    requires Shrunk(road, was, now) && Calm(road, was)
    ensures Calm(road, now)
  {
  }

  /** A reference that is held is to a box that is still there. */
  lemma HeldFits(road: Road, was: seq<Box>, now: seq<Box>, roots: multiset<nat>, ref: Ref)
    requires Shrunk(road, was, now) && Sound(road, now, roots) && Fits(was, ref)
    requires RefSide(road, ref) == Normal ==> ref.Cat? || ref.p in roots
    ensures Fits(now, ref)
  {
  }

  /** The trail is still there when what it led to has been lost. */
  lemma {:induction false} ThreadedShrunk(road: Road, was: seq<Box>, now: seq<Box>, roots: multiset<nat>, trail: Trail,
        held: Ref, pro: Ref, t: set<nat>)
    requires Threaded(road, was, trail, held, pro, t) && Shrunk(road, was, now) && Sound(road, now, roots)
        && Calm(road, now) && Fits(now, pro)
    ensures Threaded(road, now, trail, held, pro, t) && Fits(now, held)
    ensures forall x :: Fill(road, now, trail, held, pro, t, x) == Fill(road, was, trail, held, pro, t, x)
    decreases trail
  {
    hide Means, Meant, Denotes, Exact;
    if trail.Step? {
      var p := trail.p;
      ThreadedShrunk(road, was, now, roots, trail.up, Pom(p), pro, t);
      assert Settled(road, now, p) && Same(was[p], now[p]);
      var ref := SideRef(was[p], !trail.tail);
      MeansDenotes(was, ref);
      DenotesShrunk(road, was, now, roots, ref, Means(was, ref));
      MeansIs(now, ref, Means(was, ref));
    }
  }

  /** The slot is written: the trail leads to what was put there. */
  lemma ThreadedPut(road: Road, heap: seq<Box>, trail: Trail, pro: Ref, t: set<nat>, ref: Ref)
    requires Threaded(road, heap, trail, Cat(0), pro, t) && t == Cells(trail) && Closed(heap, t)
    ensures trail.Step? ==> trail.p < |heap| && heap[trail.p].Pair?
    ensures var now, end := PutOut(heap, trail, ref), if trail.Top? then ref else pro;
            && Alike(heap, now, t) && Threaded(road, now, trail, ref, end, t)
            && forall x :: Fill(road, now, trail, ref, end, t, x) == Fill(road, heap, trail, Cat(0), pro, t, x)
  {
    hide Means, Meant, Denotes, Closed;
    if trail.Step? {
      var now := PutOut(heap, trail, ref);
      assert Alike(heap, now, t);
      FramedAlike(heap, now, t);
      var sib := SideRef(heap[trail.p], !trail.tail);
      MeansDenotes(heap, sib);
      MeansIs(now, sib, Means(heap, sib));
      CellsThere(road, heap, trail.up, Pom(trail.p), pro, t);
      ThreadedKept(road, heap, now, trail.up, Pom(trail.p), pro, t, t);
    }
  }

  /** What others hold: a root, or a reference off the road's heap. */
  predicate Held(road: Road, roots: multiset<nat>, ref: Ref) {
    RefSide(road, ref) == Normal && !ref.Cat? ==> ref.p in roots
  }

  ghost predicate Unmoved(road: Road, roots: multiset<nat>, was: seq<Box>, now: seq<Box>) {
    forall ref, n :: Held(road, roots, ref) && Denotes(was, ref, n) ==> Denotes(now, ref, n)
  }

  lemma UnmovedFramed(road: Road, roots: multiset<nat>, h0: seq<Box>, was: seq<Box>, now: seq<Box>, t: set<nat>)
    requires Unmoved(road, roots, h0, was) && Framed(was, now, t)
    requires forall q :: q in t ==> road.SideOf(q) == Normal && q !in roots
    ensures Unmoved(road, roots, h0, now)
  {
    hide Denotes;
    forall ref, n | Held(road, roots, ref) && Denotes(h0, ref, n)
      ensures Denotes(now, ref, n)
    {
      assert Denotes(was, ref, n);
      assert Avoids(t, ref);
    }
  }

  /** What finishing does: boxes are freed, the slot at the end of the trail is
      written, and nothing else. */
  ghost predicate FinishedTo(road: Road, was: seq<Box>, now: seq<Box>, trail: Trail, som: Ref, end: Ref, t: set<nat>) {
    Threaded(road, now, trail, som, end, t) && exists mid :: FreedThen(road, was, mid, now, trail, som)
  }

  ghost predicate FreedThen(road: Road, was: seq<Box>, mid: seq<Box>, now: seq<Box>, trail: Trail, som: Ref) {
    Shrunk(road, was, mid) && (trail.Step? ==> trail.p < |mid| && mid[trail.p].Pair?) && now == PutOut(mid, trail, som)
  }

  /** The last turn: what was at the axis is lost, and the new noun put there. */
  method Finish(m: Memory, ghost trail: Trail, out: Option<(nat, bool)>, pro: Ref, big: Ref, som: Ref,
        ghost roots: multiset<nat>, ghost t: set<nat>, ghost s: Noun, ghost h0: seq<Box>)
    returns (end: Ref)
    requires Mid(m.road, m.heap, trail, pro, big, som, roots, t) && Denotes(m.heap, som, s)
        && Unmoved(m.road, roots, h0, m.heap)
    requires out == if trail.Top? then None else Some((trail.p, trail.tail))
    modifies m`heap
    ensures FinishedTo(m.road, old(m.heap), m.heap, trail, som, end, t) && Closed(m.heap, t)
    ensures Sound(m.road, m.heap, roots + Counted(m.road, end)) && Unmoved(m.road, roots, h0, m.heap)
    ensures old(Threaded(m.road, m.heap, trail, Cat(0), pro, t))
        && Denotes(m.heap, end, old(Fill(m.road, m.heap, trail, Cat(0), pro, t, s)))
  {
    hide Sound, Fits, Calm, Closed, Fill, Denotes, Threaded, Shrunk, Unmoved, Means, Meant;
    ghost var road, h1 := m.road, m.heap;
    ghost var rest := roots + Counted(road, pro) + Counted(road, som);
    assert roots + Counted(road, pro) + Counted(road, big) + Counted(road, som) == rest + Counted(road, big);
    WithoutNone(m.heap);
    m.LoseUse(big, rest, {});
    WithoutNone(m.heap);
    ghost var h2 := m.heap;
    ShrunkCalm(road, h1, h2);
    ProFits(road, h1, trail, pro, t);
    HeldFits(road, h1, h2, rest, pro);
    HeldFits(road, h1, h2, rest, som);
    ThreadedShrunk(road, h1, h2, rest, trail, Cat(0), pro, t);
    DenotesShrunk(road, h1, h2, rest, som, s);
    UnmovedShrunk(road, roots, rest, h0, h1, h2);
    ShrunkClosed(road, h1, h2, t);
    end := SetOut(m, trail, out, pro, som, roots, t);
    ThreadedPut(road, h2, trail, pro, t, som);
    FramedAlike(h2, m.heap, t);
    CellsThere(road, h2, trail, Cat(0), pro, t);
    ClosedAlike(h2, m.heap, t);
    UnmovedFramed(road, roots, h0, h2, m.heap, t);
    FillDenotes(road, m.heap, trail, som, end, t, s);
    assert FreedThen(road, h1, h2, m.heap, trail, som);
  }

  lemma ProFits(road: Road, heap: seq<Box>, trail: Trail, pro: Ref, t: set<nat>)
    requires Threaded(road, heap, trail, Cat(0), pro, t)
    ensures Fits(heap, pro)
  {
    ProFitsHeld(road, heap, trail, Cat(0), pro, t);
  }

  lemma {:induction false} ProFitsHeld(road: Road, heap: seq<Box>, trail: Trail, held: Ref, pro: Ref, t: set<nat>)
    requires Threaded(road, heap, trail, held, pro, t) && Fits(heap, held)
    ensures Fits(heap, pro)
    decreases trail
  {
    hide Means, Meant;
    if trail.Step? {
      ProFitsHeld(road, heap, trail.up, Pom(trail.p), pro, t);
    }
  }

  lemma ShrunkClosed(road: Road, was: seq<Box>, now: seq<Box>, t: set<nat>)
    requires Shrunk(road, was, now) && Closed(was, t)
    ensures Closed(now, t)
  {
  }

  lemma ClosedAlike(was: seq<Box>, now: seq<Box>, t: set<nat>)
    requires Closed(was, t) && |was| == |now| && forall q :: 0 <= q < |was| && q !in t ==> now[q] == was[q]
    ensures Closed(now, t)
  {
  }

  lemma UnmovedShrunk(road: Road, roots: multiset<nat>, rest: multiset<nat>, h0: seq<Box>, was: seq<Box>, now: seq<Box>)
    requires Unmoved(road, roots, h0, was) && Shrunk(road, was, now) && Sound(road, now, rest) && Calm(road, now)
        && roots <= rest
    ensures Unmoved(road, roots, h0, now)
  {
    hide Sound, Calm, Shrunk;
    forall ref, n | Held(road, roots, ref) && Denotes(h0, ref, n)
      ensures Denotes(now, ref, n)
    {
      assert Denotes(was, ref, n);
      DenotesFits(was, ref, n);
      HeldFits(road, was, now, rest, ref);
      DenotesShrunk(road, was, now, rest, ref, n);
    }
  }

  lemma DenotesFits(heap: seq<Box>, ref: Ref, n: Noun)
    requires Denotes(heap, ref, n)
    ensures Fits(heap, ref)
  {
  }

  /** How an edit ends: the axis leads nowhere, there is no room or a count is
      full, or the result. */
  datatype Edited = Exit | Fail | Made(ref: Ref)

  predicate IsMutable(road: Road, heap: seq<Box>, ref: Ref)
    requires Fits(heap, ref)
  {
    ref.Pom? && RefSide(road, ref) == Normal && heap[ref.p].use == 1
  }

  /** A turn in place. */
  method TurnInPlace(m: Memory, ghost trail: Trail, out: Option<(nat, bool)>, pro: Ref, big: Ref, ghost som: Ref,
        ghost roots: multiset<nat>, ghost t: set<nat>, tail: bool, ghost cur: Noun)
    returns (end: Ref, next: Ref)
    requires Mid(m.road, m.heap, trail, pro, big, som, roots, t) && Mutable(m.road, m.heap, big)
        && Denotes(m.heap, big, cur)
    requires out == if trail.Top? then None else Some((trail.p, trail.tail))
    modifies m`heap
    ensures OpenedTo(old(m.heap), m.heap, trail, big.p, tail) && next == SideRef(old(m.heap)[big.p], tail)
    ensures |m.heap| == |old(m.heap)| && m.heap[big.p].Pair? && m.heap[big.p].mug == Mug(0)
    ensures forall q :: 0 <= q < |m.heap| && q != big.p && (out.Some? ==> q != out.value.0) ==>
              m.heap[q] == old(m.heap)[q]
    ensures var u := t + {big.p};
            && Mid(m.road, m.heap, Step(big.p, tail, trail), end, next, som, roots, u) && Framed(old(m.heap), m.heap, u)
            && cur.Cell? && Denotes(m.heap, next, if tail then cur.t else cur.h)
            && old(Threaded(m.road, m.heap, trail, Cat(0), pro, t))
            && forall x :: Fill(m.road, m.heap, Step(big.p, tail, trail), Cat(0), end, u, x)
                           == old(Fill(m.road, m.heap, trail, Cat(0), pro, t, if tail then Cell(cur.h, x)
                               else Cell(x, cur.t)))
  {
    ghost var h0 := m.heap;
    MutableMid(m.road, m.heap, trail, pro, big, som, roots, t, tail, cur);
    hide Mid, Framed, Fill, Threaded, Denotes;
    match out {
      case None =>
        end := big;
      case Some(at) =>
        m.heap := m.heap[at.0 := WithSide(m.heap[at.0], at.1, big, m.heap[at.0].mug)];
        end := pro;
    }
    next := SideRef(m.heap[big.p], tail);
    m.heap := m.heap[big.p := WithSide(m.heap[big.p], tail, Cat(0), Mug(0))];
    assert m.heap == Opened(h0, trail, big.p, tail);
  }

  /** A turn by copying. */
  method TurnByCopy(m: Memory, ghost trail: Trail, out: Option<(nat, bool)>, pro: Ref, big: Ref, ghost som: Ref,
        ghost roots: multiset<nat>, ghost t: set<nat>, tail: bool, ghost cur: Noun)
    returns (ok: bool, cell: nat, end: Ref, next: Ref)
    requires Mid(m.road, m.heap, trail, pro, big, som, roots, t) && big.Pom? && !Mutable(m.road, m.heap, big)
        && Denotes(m.heap, big, cur)
    requires out == if trail.Top? then None else Some((trail.p, trail.tail))
    modifies m`heap
    ensures !ok ==> Spent(m.road, m.heap)
    ensures ok ==> SharedTo(m.road, old(m.heap), m.heap, trail, big.p, cell, tail)
    ensures ok ==> next == SideRef(old(m.heap)[big.p], tail)
    ensures ok ==> var u := t + {cell};
            && cell < |old(m.heap)| && old(m.heap)[cell].Free?
            && Mid(m.road, m.heap, Step(cell, tail, trail), end, next, som, roots, u) && Framed(old(m.heap), m.heap, u)
            && cur.Cell? && Denotes(m.heap, next, if tail then cur.t else cur.h)
            && old(Threaded(m.road, m.heap, trail, Cat(0), pro, t))
            && forall x :: Fill(m.road, m.heap, Step(cell, tail, trail), Cat(0), end, u, x)
                           == old(Fill(m.road, m.heap, trail, Cat(0), pro, t, if tail then Cell(cur.h, x)
                               else Cell(x, cur.t)))
  {
    hide Mid, Framed, Fill, Threaded, Denotes, Sound, Shared, Gained, Shrunk;
    ghost var h0, road := m.heap, m.road;
    MidThere(road, h0, trail, pro, big, som, roots, t);
    DenotesField(h0, big, cur);
    next := SideRef(m.heap[big.p], tail);
    ok, cell, end := CopyCell(m, trail, out, pro, big, som, roots, t, tail, cur);
    if !ok {
      return;
    }
    ghost var h1 := m.heap;
    ghost var rest := roots + Counted(road, som) + Counted(road, end) + Counted(road, next);
    WithoutNone(m.heap);
    SharedUse(road, h0, trail, pro, big, som, roots, t, tail, cell, h1);
    var last := m.LoseCount(big, rest, {});
    WithoutNone(m.heap);
    SharedSettles(road, Shared(h0, trail, big.p, cell, tail), h1, m.heap);
    assert rest == roots + Counted(road, end) + Counted(road, next) + Counted(road, som);
    CopyMid(road, h0, trail, pro, big, som, roots, t, tail, cur, cell, end, m.heap);
  }

  lemma MidThere(road: Road, heap: seq<Box>, trail: Trail, pro: Ref, big: Ref, som: Ref, roots: multiset<nat>,
        t: set<nat>)
    requires Mid(road, heap, trail, pro, big, som, roots, t)
    ensures Threaded(road, heap, trail, Cat(0), pro, t) && Fits(heap, big)
    ensures trail.Step? ==> trail.p < |heap| && heap[trail.p].Pair?
  {
  }

  /** After the copy the original is still there, with more than one reference if
      it is on the road's heap. */
  lemma SharedUse(road: Road, h0: seq<Box>, trail: Trail, pro: Ref, big: Ref, som: Ref, roots: multiset<nat>,
        t: set<nat>, tail: bool, cell: nat, h1: seq<Box>)
    requires Mid(road, h0, trail, pro, big, som, roots, t) && big.Pom? && !Mutable(road, h0, big) && cell < |h0|
        && h0[cell].Free?
    requires big.p < |h0| && h0[big.p].Pair? && (trail.Step? ==> trail.p < |h0| && h0[trail.p].Pair?)
    requires Gained(road, Shared(h0, trail, big.p, cell, tail), h1)
    ensures Fits(h1, big) && (road.SideOf(big.p) == Normal ==> h1[big.p].use > 1)
  {
    hide Sound, Calm, Closed, Threaded;
    var base := Shared(h0, trail, big.p, cell, tail);
    assert Same(base[big.p], h1[big.p]);
    if road.SideOf(big.p) == Normal {
      CountedIs(road, big);
      assert big.p in roots + Counted(road, pro) + Counted(road, big) + Counted(road, som);
      UsePositive(road, h0, roots + Counted(road, pro) + Counted(road, big) + Counted(road, som), big.p);
    }
  }

  lemma SharedSettles(road: Road, base: seq<Box>, mid: seq<Box>, now: seq<Box>)
    requires Gained(road, base, mid) && Shrunk(road, mid, now) && Grown(mid, now)
    ensures Settles(road, base, now)
  {
    forall q | 0 <= q < |base|
      ensures Kept(base[q], now[q]) && (base[q].Free? <==> now[q].Free?)
    {
      assert Kept(base[q], mid[q]) && Kept(mid[q], now[q]);
    }
  }

  /** The whole edit is the rest of the edit, filled into the trail. */
  ghost predicate Aims(road: Road, heap: seq<Box>, trail: Trail, pro: Ref, t: set<nat>, part: Option<Noun>,
        total: Option<Noun>)
    requires Threaded(road, heap, trail, Cat(0), pro, t)
  {
    total == match part { case None => None case Some(e) => Some(Fill(road, heap, trail, Cat(0), pro, t, e)) }
  }

  lemma MidStart(road: Road, heap: seq<Box>, big: Ref, som: Ref, roots: multiset<nat>, s: Noun, n: Noun,
        total: Option<Noun>)
    requires Sound(road, heap, roots + Counted(road, big) + Counted(road, som)) && Calm(road, heap)
    requires Fits(heap, big) && RefSide(road, big) != Junior && Fits(heap, som) && RefSide(road, som) != Junior
    ensures Mid(road, heap, Top, Cat(0), big, som, roots, {}) && Threaded(road, heap, Top, Cat(0), Cat(0), {})
    ensures Aims(road, heap, Top, Cat(0), {}, total, total)
    ensures Unmoved(road, roots, heap, heap)
  {
    hide Sound;
    assert roots + Counted(road, Cat(0)) + Counted(road, big) + Counted(road, som) == roots + Counted(road,
        big) + Counted(road, som);
  }

  lemma NotCell(heap: seq<Box>, big: Ref, cur: Noun, axe: nat, k: nat, s: Noun)
    requires !big.Pom? && Denotes(heap, big, cur) && k > 0
    ensures EditFrom(axe, k, s, cur) == None
  {
  }

  lemma AimsNone(road: Road, heap: seq<Box>, trail: Trail, pro: Ref, t: set<nat>, part: Option<Noun>,
        total: Option<Noun>)
    requires Threaded(road, heap, trail, Cat(0), pro, t) && Aims(road, heap, trail, pro, t, part, total) && part.None?
    ensures total.None?
  {
  }

  lemma AimsDone(road: Road, heap: seq<Box>, trail: Trail, pro: Ref, t: set<nat>, axe: nat, s: Noun, cur: Noun,
        total: Option<Noun>)
    requires Threaded(road, heap, trail, Cat(0), pro, t)
        && Aims(road, heap, trail, pro, t, EditFrom(axe, 0, s, cur), total)
    ensures total == Some(Fill(road, heap, trail, Cat(0), pro, t, s))
  {
  }

  lemma AimsOn(road: Road, was: seq<Box>, now: seq<Box>, trail0: Trail, trail: Trail, pro0: Ref, pro: Ref,
        t0: set<nat>, t: set<nat>, axe: nat, k: nat, s: Noun, cur: Noun, total: Option<Noun>, tail: bool)
    requires Threaded(road, was, trail0, Cat(0), pro0, t0) && Threaded(road, now, trail, Cat(0), pro, t) && cur.Cell?
        && k > 0
    requires Aims(road, was, trail0, pro0, t0, EditFrom(axe, k, s, cur), total) && tail == Bit(axe, k - 1)
    requires forall x :: Fill(road, now, trail, Cat(0), pro, t, x)
                         == Fill(road, was, trail0, Cat(0), pro0, t0, if tail then Cell(cur.h, x) else Cell(x, cur.t))
    ensures Aims(road, now, trail, pro, t, EditFrom(axe, k - 1, s, if tail then cur.t else cur.h), total)
  {
    hide Fill, Threaded, Bit;
  }

  lemma MutableIs(road: Road, heap: seq<Box>, big: Ref)
    requires Fits(heap, big) && big.Pom?
    ensures IsMutable(road, heap, big) == Mutable(road, heap, big)
  {
  }

  lemma MidAvoids(road: Road, heap: seq<Box>, trail: Trail, pro: Ref, big: Ref, som: Ref, roots: multiset<nat>,
        t: set<nat>)
    requires Mid(road, heap, trail, pro, big, som, roots, t)
    ensures Avoids(t, som) && forall q :: q in t ==> road.SideOf(q) == Normal && q !in roots
  {
    hide Threaded, Sound, Calm, Closed;
    CellsThere(road, heap, trail, Cat(0), pro, t);
  }

  lemma FramedOne(was: seq<Box>, now: seq<Box>, t: set<nat>, ref: Ref, n: Noun)
    requires Framed(was, now, t) && Avoids(t, ref) && Denotes(was, ref, n)
    ensures Denotes(now, ref, n)
  {
  }
}
