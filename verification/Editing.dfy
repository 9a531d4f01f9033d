/** The whole edit, and which cells it writes: those of the path, from the top, as
    long as nothing else refers to them; every cell from the first shared one on is a
    new one. */
module Editing {
  import opened Nouns
  import opened Bits
  import opened Heaps
  import opened Counts
  import opened EditPath
  import opened InPlace

  /* ---- where the walk has been ---- */

  /** The reference that a path of cells leads to from `start`. */
  ghost function RefAt(heap: seq<Box>, start: Ref, path: Trail): Ref {
    match path
    case Top => start
    case Step(q, tail, _) => SideOf(heap, Pom(q), tail)
  }

  function SideOf(heap: seq<Box>, ref: Ref, tail: bool): Ref {
    if ref.Pom? && ref.p < |heap| && heap[ref.p].Pair? then SideRef(heap[ref.p], tail) else Cat(0)
  }

  /** The last cell of the trail is a copy. */
  predicate Copying(trail: Trail, path: Trail) {
    trail.Step? && path.Step? && trail.p != path.p
  }

  /** `path` is the path through `was` from `start`, and `trail` the cells that now
      stand in it, off the path alike. Down to some cell they are the cells of the
      path, each with no other reference; the next is shared, and from there on they
      are new. */
  ghost predicate Tracks(road: Road, was: seq<Box>, now: seq<Box>, trail: Trail, path: Trail, start: Ref)
    decreases trail
  {
    match trail
    case Top => path.Top?
    case Step(p, tail, up) =>
      && path.Step? && path.tail == tail && RefAt(was, start, path.up) == Pom(path.p)
      && path.p < |was| && was[path.p].Pair? && p < |was| && p < |now| && now[p].Pair? && p !in Cells(up)
      && SideRef(now[p], !tail) == SideRef(was[path.p], !tail)
      && (if p == path.p then road.SideOf(p) == Normal && was[p].use == 1 && !Copying(up, path.up)
          else was[p].Free?
               && (Copying(up, path.up) || !(road.SideOf(path.p) == Normal && was[path.p].use == 1)))
      && Tracks(road, was, now, up, path.up, start)
  }

  /** The turns of the trail are those of the axis, down to its low `k` bits. */
  predicate Turned(axe: nat, k: nat, trail: Trail)
    decreases trail
  {
    match trail
    case Top => k == Turns(axe)
    case Step(_, tail, up) => tail == Bit(axe, k) && Turned(axe, k + 1, up)
  }

  /** Boxes that are not on the trail were there, and are as they were but for their
      counts, or are free. */
  ghost predicate Spared(was: seq<Box>, now: seq<Box>, trail: Trail) {
    |was| == |now| && forall q :: 0 <= q < |was| && q !in Cells(trail) ==>
        now[q].Free? || (!was[q].Free? && Kept(was[q], now[q]))
  }

  /** Cells of the trail carry no hash. */
  ghost predicate Unhashed(heap: seq<Box>, trail: Trail) {
    forall q :: q in Cells(trail) ==> q < |heap| && heap[q].Pair? && heap[q].mug == Mug(0)
  }

  /** An edit at an axis: the result is `som` threaded through the trail, the trail
      follows the path of the axis, and nothing off the trail is written. */
  ghost predicate PrefixEdit(road: Road, was: seq<Box>, now: seq<Box>, start: Ref, axe: nat, som: Ref, end: Ref) {
    exists trail, path :: EditAlong(road, was, now, start, axe, som, end, trail, path)
  }

  ghost predicate EditAlong(road: Road, was: seq<Box>, now: seq<Box>, start: Ref, axe: nat, som: Ref, end: Ref,
        trail: Trail, path: Trail) {
    && Threaded(road, now, trail, som, end, Cells(trail)) && Turned(axe, 0, trail)
    && Tracks(road, was, now, trail, path, start) && Spared(was, now, trail)
    && Unhashed(now, trail) && Closed(now, Cells(trail))
  }

  /* ---- one turn ---- */

  /** Every field of every cell is the reference of a box that is there. */
  ghost predicate Whole(heap: seq<Box>) {
    forall q :: 0 <= q < |heap| && heap[q].Pair? ==> Fits(heap, heap[q].hed) && Fits(heap, heap[q].tel)
  }

  lemma WholeIs(road: Road, heap: seq<Box>, roots: multiset<nat>)
    requires Sound(road, heap, roots) && Calm(road, heap)
    ensures Whole(heap)
  {
    forall q | 0 <= q < |heap| && heap[q].Pair?
      ensures Fits(heap, heap[q].hed) && Fits(heap, heap[q].tel)
    {
      assert Settled(road, heap, q);
    }
  }

  /** The state of the walk: `big` is the reference that the path has come to. While
      nothing has been copied, memory off the trail is as it was; after that boxes are
      there still, and the cell that was copied last refers to `big`. */
  ghost predicate Follows(road: Road, was: seq<Box>, now: seq<Box>, trail: Trail, path: Trail, start: Ref, big: Ref) {
    && |was| == |now| && Whole(was) && Tracks(road, was, now, trail, path, start)
    && big == RefAt(was, start, path) && Fits(was, big)
    && (forall q :: 0 <= q < |was| && q !in Cells(trail) ==>
          Kept(was[q], now[q]) && (was[q].Free? <==> now[q].Free?))
    && Unhashed(now, trail)
    && (!Copying(trail, path) ==> forall q :: 0 <= q < |was| && q !in Cells(trail) ==> now[q] == was[q])
    && (Copying(trail, path) ==> path.p !in Cells(trail))
  }

  lemma FollowsStart(road: Road, heap: seq<Box>, start: Ref, axe: nat)
    requires Whole(heap) && Fits(heap, start)
    ensures Follows(road, heap, heap, Top, Top, start, start) && Turned(axe, Turns(axe), Top)
  {
  }

  lemma TurnedOn(axe: nat, k: nat, trail: Trail, p: nat, tail: bool)
    requires Turned(axe, k, trail) && k > 0 && tail == Bit(axe, k - 1)
    ensures Turned(axe, k - 1, Step(p, tail, trail))
  {
  }

  /** The cell that is come to may be written if and only if nothing has been copied
      yet and it had no other reference to begin with. */
  lemma MayWrite(road: Road, was: seq<Box>, now: seq<Box>, trail: Trail, path: Trail, start: Ref, big: Ref, pro: Ref,
        som: Ref, roots: multiset<nat>, t: set<nat>)
    requires Follows(road, was, now, trail, path, start, big) && Mid(road, now, trail, pro, big, som, roots, t)
    ensures Mutable(road, now, big) <==> !Copying(trail, path) && Mutable(road, was, big)
  {
    hide Sound, Closed, Threaded, Whole;
    if Copying(trail, path) && Mutable(road, now, big) {
      var rest := roots + Counted(road, pro) + Counted(road, som);
      assert roots + Counted(road, pro) + Counted(road, big) + Counted(road, som) == rest + Counted(road, big);
      assert Same(was[path.p], now[path.p]);
      MutableInNoField(road, now, rest, big, path.p, path.tail);
    }
  }

  /** A cell's box keeps its fields off the path. */
  ghost predicate OffPath(was: seq<Box>, now: seq<Box>, trail: Trail)
    decreases trail
  {
    match trail
    case Top => true
    case Step(p, tail, up) =>
      && p < |was| && p < |now| && was[p].Pair? && now[p].Pair? && SideRef(now[p], !tail) == SideRef(was[p], !tail)
      && OffPath(was, now, up)
  }

  lemma {:induction false} TracksKept(road: Road, was: seq<Box>, mid: seq<Box>, now: seq<Box>, trail: Trail,
        path: Trail, start: Ref)
    requires Tracks(road, was, mid, trail, path, start) && OffPath(mid, now, trail)
    ensures Tracks(road, was, now, trail, path, start)
    decreases trail
  {
    if trail.Step? {
      TracksKept(road, was, mid, now, trail.up, path.up, start);
    }
  }

  lemma {:induction false} OffPathIs(was: seq<Box>, now: seq<Box>, trail: Trail)
    requires |was| == |now| && forall q :: q in Cells(trail) ==> q < |was| && was[q].Pair? && SameFields(was, now, q)
    ensures OffPath(was, now, trail)
    decreases trail
  {
    if trail.Step? {
      assert Cells(trail) == {trail.p} + Cells(trail.up);
      OffPathIs(was, now, trail.up);
    }
  }

  lemma {:induction false} TrackCells(road: Road, was: seq<Box>, now: seq<Box>, trail: Trail, path: Trail, start: Ref)
    requires Tracks(road, was, now, trail, path, start)
    ensures forall q :: q in Cells(trail) ==> q < |was| && q < |now| && now[q].Pair?
    ensures !Copying(trail, path) ==> forall q :: q in Cells(trail) ==> !was[q].Free?
    decreases trail
  {
    if trail.Step? {
      TrackCells(road, was, now, trail.up, path.up, start);
    }
  }

  /** A turn in place keeps track. */
  lemma FollowsOpened(road: Road, h0: seq<Box>, was: seq<Box>, now: seq<Box>, trail: Trail, path: Trail, start: Ref,
        big: Ref, tail: bool)
    requires Follows(road, h0, was, trail, path, start, big) && !Copying(trail, path) && Mutable(road, h0, big)
    requires big.p !in Cells(trail) && OpenedTo(was, now, trail, big.p, tail)
    ensures Follows(road, h0, now, Step(big.p, tail, trail), Step(big.p, tail, path), start, SideOf(was, big, tail))
  {
    hide Whole;
    TrackCells(road, h0, was, trail, path, start);
    assert was[big.p] == h0[big.p];
    OpenedOff(was, now, trail, big.p, tail, h0, road, path, start);
    TracksKept(road, h0, was, now, trail, path, start);
    WholeAt(h0, big.p, tail);
  }

  lemma WholeAt(heap: seq<Box>, q: nat, tail: bool)
    requires Whole(heap) && q < |heap| && heap[q].Pair?
    ensures Fits(heap, SideRef(heap[q], tail))
  {
  }

  lemma OpenedOff(was: seq<Box>, now: seq<Box>, trail: Trail, p: nat, tail: bool, h0: seq<Box>, road: Road,
        path: Trail, start: Ref)
    requires Tracks(road, h0, was, trail, path, start) && OpenedTo(was, now, trail, p, tail) && p !in Cells(trail)
    ensures OffPath(was, now, trail)
  {
    TrackCells(road, h0, was, trail, path, start);
    if trail.Step? {
      forall q | q in Cells(trail.up)
        ensures q < |was| && was[q].Pair? && SameFields(was, now, q)
      {
        assert q != trail.p && q != p && q in Cells(trail);
      }
      OffPathIs(was, now, trail.up);
    }
  }

  /** A turn by copying keeps track. */
  lemma FollowsShared(road: Road, h0: seq<Box>, was: seq<Box>, now: seq<Box>, trail: Trail, path: Trail, start: Ref,
        big: Ref, cell: nat, tail: bool)
    requires Follows(road, h0, was, trail, path, start, big) && (Copying(trail, path) || !Mutable(road, h0, big))
    requires big.Pom? && big.p !in Cells(trail) && SharedTo(road, was, now, trail, big.p, cell, tail)
    ensures Follows(road, h0, now, Step(cell, tail, trail), Step(big.p, tail, path), start, SideOf(was, big, tail))
  {
    hide Whole, Shared, Settles, Unhashed;
    TrackCells(road, h0, was, trail, path, start);
    assert Same(h0[big.p], was[big.p]) && cell !in Cells(trail) && h0[cell].Free?;
    SharedBox(road, was, trail, big.p, cell, tail, now, cell);
    SharedOff(was, now, trail, big.p, cell, tail, h0, road, path, start);
    TracksKept(road, h0, was, now, trail, path, start);
    WholeAt(h0, big.p, tail);
    SharedSpared(road, h0, was, now, trail, big.p, cell, tail);
  }

  /** What a turn by copying leaves of the boxes off the trail, and on it. */
  lemma SharedSpared(road: Road, h0: seq<Box>, was: seq<Box>, now: seq<Box>, trail: Trail, p: nat, cell: nat,
        tail: bool)
    requires SharedTo(road, was, now, trail, p, cell, tail) && |h0| == |was| && Unhashed(was, trail)
    requires forall q :: 0 <= q < |h0| && q !in Cells(trail) ==>
               Kept(h0[q], was[q]) && (h0[q].Free? <==> was[q].Free?)
    ensures |now| == |h0| && Unhashed(now, Step(cell, tail, trail))
    ensures forall q :: 0 <= q < |h0| && q !in Cells(Step(cell, tail, trail)) ==>
              Kept(h0[q], now[q]) && (h0[q].Free? <==> now[q].Free?)
  {
    hide Shared, Settles;
    SharedBox(road, was, trail, p, cell, tail, now, cell);
    forall q | 0 <= q < |h0| && q !in Cells(Step(cell, tail, trail))
      ensures Kept(h0[q], now[q]) && (h0[q].Free? <==> now[q].Free?)
    {
      SharedBox(road, was, trail, p, cell, tail, now, q);
    }
    forall q | q in Cells(Step(cell, tail, trail))
      ensures q < |now| && now[q].Pair? && now[q].mug == Mug(0)
    {
      SharedBox(road, was, trail, p, cell, tail, now, q);
    }
  }

  lemma SharedOff(was: seq<Box>, now: seq<Box>, trail: Trail, p: nat, cell: nat, tail: bool, h0: seq<Box>, road: Road,
        path: Trail, start: Ref)
    requires Tracks(road, h0, was, trail, path, start) && SharedTo(road, was, now, trail, p, cell, tail)
        && cell !in Cells(trail)
    ensures OffPath(was, now, trail)
  {
    hide Shared, Settles;
    TrackCells(road, h0, was, trail, path, start);
    SharedBox(road, was, trail, p, cell, tail, now, p);
    if trail.Step? {
      SharedBox(road, was, trail, p, cell, tail, now, trail.p);
      forall q | q in Cells(trail.up)
        ensures q < |was| && was[q].Pair? && SameFields(was, now, q)
      {
        assert q != trail.p && q in Cells(trail);
        SharedBox(road, was, trail, p, cell, tail, now, q);
      }
      OffPathIs(was, now, trail.up);
    }
  }

  lemma FollowsOn(road: Road, h0: seq<Box>, was: seq<Box>, now: seq<Box>, trail: Trail, path: Trail, start: Ref,
        big: Ref, next: Ref, p: nat, tail: bool, pro: Ref, som: Ref, roots: multiset<nat>, t: set<nat>)
    requires Follows(road, h0, was, trail, path, start, big) && Mid(road, was, trail, pro, big, som, roots, t)
        && big.Pom?
    requires TurnedTo(road, was, now, trail, big, p, tail) && next == SideOf(was, big, tail)
    ensures Follows(road, h0, now, Step(p, tail, trail), Step(big.p, tail, path), start, next)
  {
    MayWrite(road, h0, was, trail, path, start, big, pro, som, roots, t);
    hide Follows, OpenedTo, SharedTo, Tracks;
    MidFacts(road, was, trail, pro, big, som, roots, t);
    if Mutable(road, was, big) {
      FollowsOpened(road, h0, was, now, trail, path, start, big, tail);
    } else {
      FollowsShared(road, h0, was, now, trail, path, start, big, p, tail);
    }
  }

  lemma SideIs(heap: seq<Box>, big: Ref, tail: bool)
    requires big.Pom? && Fits(heap, big)
    ensures big.p < |heap| && heap[big.p].Pair? && SideOf(heap, big, tail) == SideRef(heap[big.p], tail)
  {
  }

  lemma TurnedIs(road: Road, was: seq<Box>, now: seq<Box>, trail: Trail, big: Ref, p: nat, tail: bool)
    requires big.Pom?
    requires if Mutable(road, was, big) then p == big.p && OpenedTo(was, now, trail, p, tail)
             else SharedTo(road, was, now, trail, big.p, p, tail)
    ensures TurnedTo(road, was, now, trail, big, p, tail)
  {
  }

  lemma MidCells(road: Road, heap: seq<Box>, trail: Trail, pro: Ref, big: Ref, som: Ref, roots: multiset<nat>,
        t: set<nat>)
    requires Mid(road, heap, trail, pro, big, som, roots, t)
    ensures t == Cells(trail)
  {
  }

  /** Freeing and writing the last slot leave the trail and what is off it. */
  lemma FollowsEnd(road: Road, h0: seq<Box>, was: seq<Box>, now: seq<Box>, trail: Trail, path: Trail, start: Ref,
        big: Ref, som: Ref, end: Ref, t: set<nat>, axe: nat)
    requires Follows(road, h0, was, trail, path, start, big) && Turned(axe, 0, trail) && t == Cells(trail)
    requires FinishedTo(road, was, now, trail, som, end, t) && Closed(now, t)
    ensures PrefixEdit(road, h0, now, start, axe, som, end)
  {
    hide Whole, Unhashed, Spared;
    CellsThere(road, now, trail, som, end, t);
    TrackCells(road, h0, was, trail, path, start);
    var mid: seq<Box> :| FreedThen(road, was, mid, now, trail, som);
    forall q | q in Cells(trail)
      ensures mid[q].Pair? && SameFields(was, mid, q)
    {
      ShrunkAt(road, was, mid, q);
    }
    OffPathIs(was, mid, trail);
    TracksKept(road, h0, was, mid, trail, path, start);
    PutOff(road, h0, mid, now, trail, path, start, som);
    TracksKept(road, h0, mid, now, trail, path, start);
    EndSpared(road, h0, was, mid, now, trail, som);
    assert EditAlong(road, h0, now, start, axe, som, end, trail, path);
  }

  lemma EndSpared(road: Road, h0: seq<Box>, was: seq<Box>, mid: seq<Box>, now: seq<Box>, trail: Trail, som: Ref)
    requires FreedThen(road, was, mid, now, trail, som) && |h0| == |was| && Unhashed(was, trail)
    requires forall q :: q in Cells(trail) ==> q < |mid| && mid[q].Pair?
    requires forall q :: 0 <= q < |h0| && q !in Cells(trail) ==>
               Kept(h0[q], was[q]) && (h0[q].Free? <==> was[q].Free?)
    ensures Spared(h0, now, trail) && Unhashed(now, trail)
  {
    forall q | 0 <= q < |h0| && q !in Cells(trail)
      ensures now[q].Free? || (!h0[q].Free? && Kept(h0[q], now[q]))
    {
      ShrunkAt(road, was, mid, q);
    }
    forall q | q in Cells(trail)
      ensures now[q].Pair? && now[q].mug == Mug(0)
    {
      ShrunkAt(road, was, mid, q);
    }
  }

  /** What is denoted by way of boxes off the trail was denoted before. */
  lemma {:induction false} SparedDenotes(was: seq<Box>, now: seq<Box>, trail: Trail, ref: Ref, n: Noun)
    requires Spared(was, now, trail) && Closed(now, Cells(trail)) && Denotes(now, ref, n)
    requires Avoids(Cells(trail), ref)
    ensures Denotes(was, ref, n)
    decreases n
  {
    if n.Cell? {
      SparedDenotes(was, now, trail, now[ref.p].hed, n.h);
      SparedDenotes(was, now, trail, now[ref.p].tel, n.t);
    }
  }

  /** An edit leaves no cell with the hash of what it was: if every hash that a box
      carried was right, every one that a box carries is. */
  lemma EditHashes(road: Road, was: seq<Box>, now: seq<Box>, start: Ref, axe: nat, som: Ref, end: Ref,
        hash: Noun -> nat)
    requires PrefixEdit(road, was, now, start, axe, som, end) && Hashed(hash, was)
    ensures Hashed(hash, now)
  {
    var trail, path :| EditAlong(road, was, now, start, axe, som, end, trail, path);
    hide EditAlong, Tracks, Threaded, Turned, Closed;
    forall ref: Ref, n: Noun | !ref.Cat? && Denotes(now, ref, n)
      ensures RightMug(hash, now[ref.p].mug, n)
    {
      AlongParts(road, was, now, start, axe, som, end, trail, path);
      if ref.p !in Cells(trail) {
        SparedDenotes(was, now, trail, ref, n);
        assert RightMug(hash, was[ref.p].mug, n);
      }
    }
  }

  lemma AlongParts(road: Road, was: seq<Box>, now: seq<Box>, start: Ref, axe: nat, som: Ref, end: Ref, trail: Trail,
        path: Trail)
    requires EditAlong(road, was, now, start, axe, som, end, trail, path)
    ensures Spared(was, now, trail) && Unhashed(now, trail) && Closed(now, Cells(trail))
  {
  }

  /** A box that an edit has made or written carries no hash; any other has the fields
      and the hash that it had. */
  lemma EditMugs(road: Road, was: seq<Box>, now: seq<Box>, start: Ref, axe: nat, som: Ref, end: Ref, q: nat)
    requires PrefixEdit(road, was, now, start, axe, som, end) && q < |now| && !now[q].Free? && now[q].mug != Mug(0)
    ensures q < |was| && !was[q].Free? && Same(was[q], now[q]) && now[q].mug == was[q].mug
  {
    var trail, path :| EditAlong(road, was, now, start, axe, som, end, trail, path);
    AlongParts(road, was, now, start, axe, som, end, trail, path);
    assert q !in Cells(trail);
  }

  lemma ShrunkAt(road: Road, was: seq<Box>, now: seq<Box>, q: nat)
    requires Shrunk(road, was, now) && q < |was|
    ensures |now| == |was| && (now[q].Free? || (Kept(was[q], now[q]) && !was[q].Free?))
  {
  }

  lemma PutOff(road: Road, h0: seq<Box>, was: seq<Box>, now: seq<Box>, trail: Trail, path: Trail, start: Ref, ref: Ref)
    requires Tracks(road, h0, was, trail, path, start) && (trail.Step? ==> trail.p < |was| && was[trail.p].Pair?)
    requires now == PutOut(was, trail, ref)
    ensures OffPath(was, now, trail)
  {
    TrackCells(road, h0, was, trail, path, start);
    if trail.Step? {
      forall q | q in Cells(trail.up)
        ensures q < |was| && was[q].Pair? && SameFields(was, now, q)
      {
        assert q != trail.p && q in Cells(trail);
      }
      OffPathIs(was, now, trail.up);
    }
  }

  /** One turn, in place or by copying. */
  method Turn(m: Memory, ghost trail: Trail, out: Option<(nat, bool)>, pro: Ref, big: Ref, ghost som: Ref,
        ghost roots: multiset<nat>, ghost t: set<nat>, tail: bool, ghost cur: Noun, ghost axe: nat, ghost k: nat,
        ghost s: Noun, ghost total: Option<Noun>, ghost h0: seq<Box>)
    returns (ok: bool, p: nat, end: Ref, next: Ref)
    requires Mid(m.road, m.heap, trail, pro, big, som, roots, t) && big.Pom? && Denotes(m.heap, big, cur)
        && Denotes(m.heap, som, s)
    requires Threaded(m.road, m.heap, trail, Cat(0), pro, t)
        && Aims(m.road, m.heap, trail, pro, t, EditFrom(axe, k, s, cur), total)
    requires k > 0 && tail == Bit(axe, k - 1)
    requires Unmoved(m.road, roots, h0, m.heap)
    requires out == if trail.Top? then None else Some((trail.p, trail.tail))
    modifies m`heap
    ensures !ok ==> Spent(m.road, m.heap)
    ensures ok ==> TurnedTo(m.road, old(m.heap), m.heap, trail, big, p, tail) && next == SideOf(old(m.heap), big, tail)
    ensures ok ==> var on, u := Step(p, tail, trail), t + {p};
            && Mid(m.road, m.heap, on, end, next, som, roots, u) && Unmoved(m.road, roots, h0, m.heap)
            && cur.Cell? && Denotes(m.heap, next, if tail then cur.t else cur.h) && Denotes(m.heap, som, s)
                && Fits(m.heap, next)
            && Threaded(m.road, m.heap, on, Cat(0), end, u)
            && Aims(m.road, m.heap, on, end, u, EditFrom(axe, k - 1, s, if tail then cur.t else cur.h), total)
  {
    hide *;
    ghost var h := m.heap;
    MidThere(m.road, m.heap, trail, pro, big, som, roots, t);
    MutableIs(m.road, m.heap, big);
    SideIs(h, big, tail);
    if IsMutable(m.road, m.heap, big) {
      ok, p := true, big.p;
      end, next := TurnInPlace(m, trail, out, pro, big, som, roots, t, tail, cur);
    } else {
      ok, p, end, next := TurnByCopy(m, trail, out, pro, big, som, roots, t, tail, cur);
      if !ok {
        return;
      }
    }
    TurnedIs(m.road, h, m.heap, trail, big, p, tail);
    ghost var on, u := Step(p, tail, trail), t + {p};
    MidThere(m.road, m.heap, on, end, next, som, roots, u);
    AimsOn(m.road, h, m.heap, trail, on, pro, end, t, u, axe, k, s, cur, total, tail);
    MidAvoids(m.road, m.heap, on, end, next, som, roots, u);
    FramedOne(h, m.heap, u, som, s);
    UnmovedFramed(m.road, roots, h0, h, m.heap, u);
  }

  /** Edit a noun at an axis. When it is made, the result denotes the tree with the
      subtree at the axis replaced, counts are exact, and what others hold denotes
      what it did; cells are written in place exactly along the uniquely owned
      prefix of the path. It exits only if the rules have no such tree. */
  method EditNoun(m: Memory, big0: Ref, axe: nat, som: Ref, ghost roots: multiset<nat>, ghost n: Noun, ghost s: Noun)
        returns (res: Edited)
    requires Sound(m.road, m.heap, roots + Counted(m.road, big0) + Counted(m.road, som)) && Calm(m.road, m.heap)
    requires Fits(m.heap, big0) && RefSide(m.road, big0) != Junior && Denotes(m.heap, big0, n)
    requires Fits(m.heap, som) && RefSide(m.road, som) != Junior && Denotes(m.heap, som, s)
    modifies m`heap
    ensures res.Made? ==> Edit(axe, s, n).Some? && Denotes(m.heap, res.ref, Edit(axe, s, n).value)
    ensures res.Made? ==>
        Sound(m.road, m.heap, roots + Counted(m.road, res.ref)) && Unmoved(m.road, roots, old(m.heap), m.heap)
    ensures res.Fail? ==> Spent(m.road, m.heap)
    ensures res.Made? ==> PrefixEdit(m.road, old(m.heap), m.heap, big0, axe, som, res.ref)
    ensures res.Made? ==> forall q :: 0 <= q < |m.heap| && !m.heap[q].Free? && m.heap[q].mug != Mug(0) ==>
              q < |old(m.heap)| && !old(m.heap)[q].Free?
              && Same(old(m.heap)[q], m.heap[q]) && m.heap[q].mug == old(m.heap)[q].mug
    ensures res.Made? ==> forall hash: Noun -> nat :: Hashed(hash, old(m.heap)) ==> Hashed(hash, m.heap)
    ensures res.Exit? ==> Edit(axe, s, n).None?
  {
    hide *;
    if axe == 0 {
      EditZero(s, n);
      return Exit;
    }
    EditWalk(axe, s, n);
    ghost var h0 := m.heap;
    res := Walk(m, big0, axe, som, roots, n, s, Edit(axe, s, n));
    if res.Made? {
      forall q | 0 <= q < |m.heap| && !m.heap[q].Free? && m.heap[q].mug != Mug(0)
        ensures q < |h0| && !h0[q].Free? && Same(h0[q], m.heap[q]) && m.heap[q].mug == h0[q].mug
      {
        EditMugs(m.road, h0, m.heap, big0, axe, som, res.ref, q);
      }
      forall hash: Noun -> nat | Hashed(hash, h0)
        ensures Hashed(hash, m.heap)
      {
        EditHashes(m.road, h0, m.heap, big0, axe, som, res.ref, hash);
      }
    }
  }

  lemma EditZero(s: Noun, n: Noun)
    ensures Edit(0, s, n) == None
  {
  }

  /** The walk down the axis, and the last turn. */
  method Walk(m: Memory, big0: Ref, axe: nat, som: Ref, ghost roots: multiset<nat>, ghost n: Noun, ghost s: Noun,
        ghost total: Option<Noun>)
    returns (res: Edited)
    requires Sound(m.road, m.heap, roots + Counted(m.road, big0) + Counted(m.road, som)) && Calm(m.road, m.heap)
    requires Fits(m.heap, big0) && RefSide(m.road, big0) != Junior && Denotes(m.heap, big0, n)
    requires Fits(m.heap, som) && RefSide(m.road, som) != Junior && Denotes(m.heap, som, s)
    requires EditFrom(axe, Turns(axe), s, n) == total
    modifies m`heap
    ensures res.Made? ==> total.Some? && Denotes(m.heap, res.ref, total.value)
    ensures res.Made? ==>
        Sound(m.road, m.heap, roots + Counted(m.road, res.ref)) && Unmoved(m.road, roots, old(m.heap), m.heap)
    ensures res.Fail? ==> Spent(m.road, m.heap)
    ensures res.Made? ==> PrefixEdit(m.road, old(m.heap), m.heap, big0, axe, som, res.ref)
    ensures res.Exit? ==> total.None?
  {
    hide *;
    ghost var h0 := m.heap;
    ghost var trail, t, cur, path := Top, {}, n, Top;
    WholeIs(m.road, m.heap, roots + Counted(m.road, big0) + Counted(m.road, som));
    FollowsStart(m.road, h0, big0, axe);
    var out, pro, big, k := None, Cat(0), big0, Turns(axe);
    MidStart(m.road, m.heap, big0, som, roots, s, n, total);
    while k > 0
      invariant Mid(m.road, m.heap, trail, pro, big, som, roots, t) && Threaded(m.road, m.heap, trail, Cat(0), pro, t)
      invariant Denotes(m.heap, big, cur) && Denotes(m.heap, som, s)
      invariant out == if trail.Top? then None else Some((trail.p, trail.tail))
      invariant Unmoved(m.road, roots, h0, m.heap)
      invariant Follows(m.road, h0, m.heap, trail, path, big0, big) && Turned(axe, k, trail)
      invariant Aims(m.road, m.heap, trail, pro, t, EditFrom(axe, k, s, cur), total)
    {
      if !big.Pom? {
        NotCell(m.heap, big, cur, axe, k, s);
        AimsNone(m.road, m.heap, trail, pro, t, EditFrom(axe, k, s, cur), total);
        return Exit;
      }
      var tail := Bit(axe, k - 1);
      ghost var h := m.heap;
      var ok, p, end, next := Turn(m, trail, out, pro, big, som, roots, t, tail, cur, axe, k, s, total, h0);
      if !ok {
        return Fail;
      }
      FollowsOn(m.road, h0, h, m.heap, trail, path, big0, big, next, p, tail, pro, som, roots, t);
      TurnedOn(axe, k, trail, p, tail);
      path := Step(big.p, tail, path);
      trail, t := Step(p, tail, trail), t + {p};
      out, pro, big := Some((p, tail)), end, next;
      cur := if tail then cur.t else cur.h;
      k := k - 1;
    }
    AimsDone(m.road, m.heap, trail, pro, t, axe, s, cur, total);
    ghost var h := m.heap;
    MidCells(m.road, h, trail, pro, big, som, roots, t);
    var end := Finish(m, trail, out, pro, big, som, roots, t, s, h0);
    FollowsEnd(m.road, h0, h, m.heap, trail, path, big0, big, som, end, t, axe);
    res := Made(end);
  }
}
