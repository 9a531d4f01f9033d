/** Small allocations: pages cut into chunks of a class, with bitmaps of what is
    free, and for each class the list of its pages that have a free chunk. */
module Chunks {
  import opened Bits
  import opened PackMap
  import opened PackWords
  import opened PackMove

  /** Chunk-page metadata: the class, the free chunks, and how many they are. */
  datatype Crag = Crag(g: nat, free: seq<nat>, fre: nat)

  predicate WfCrag(c: Crag) {
    && c.g < 10 && |c.free| == MapLen(c.g) && IsMap(c.free)
    && (forall i :: 0 <= i < 32 * |c.free| && BitAt(c.free, i) ==> Hun(c.g) <= i < Tot(c.g))
    && c.fre == Rank(c.free, 32 * |c.free|)
  }

  /** A chunk that is allocated. */
  predicate Taken(crags: map<nat, Crag>, p: nat, pos: nat) {
    p in crags && WfCrag(crags[p]) && Hun(crags[p].g) <= pos < Tot(crags[p].g)
    && (ClassShape(crags[p].g); !BitAt(crags[p].free, pos))
  }

  /* ---- words ---- */

  /** The lowest bit that is set. */
  function Tz(w: nat): nat
    requires w > 0
  {
    if w % 2 == 1 then 0 else 1 + Tz(w / 2)
  }

  lemma {:induction false} TzIs(w: nat, j: nat)
    requires w > 0
    ensures Bit(w, Tz(w)) && (j < Tz(w) ==> !Bit(w, j))
  {
    if w % 2 == 0 {
      TzIs(w / 2, if j > 0 then j - 1 else 0);
    }
  }

  lemma {:induction false} TzSmall(w: nat, n: nat)
    requires 0 < w < Power(n)
    ensures Tz(w) < n
  {
    if w % 2 == 0 {
      TzSmall(w / 2, n - 1);
    }
  }

  function Ones(n: nat): nat {
    if n == 0 then 0 else 1 + 2 * Ones(n - 1)
  }

  lemma {:induction false} OnesAt(n: nat, i: nat)
    ensures (Bit(Ones(n), i) <==> i < n) && Ones(n) < Power(n)
  {
    if n == 0 {
      ZeroBit(i);
    } else {
      OnesAt(n - 1, if i > 0 then i - 1 else 0);
    }
  }

  /** `w & (~0 << b)`. */
  function High(w: nat, b: nat): nat {
    if b == 0 then w else 2 * High(w / 2, b - 1)
  }

  lemma {:induction false} HighAt(w: nat, b: nat, i: nat)
    ensures (Bit(High(w, b), i) <==> i >= b && Bit(w, i)) && High(w, b) <= w
  {
    if b > 0 {
      HighAt(w / 2, b - 1, if i > 0 then i - 1 else 0);
    }
  }

  lemma {:induction false} RankDiffer(m: seq<nat>, n: seq<nat>, i: nat, k: nat)
    requires |m| == |n| && i < 32 * |m| && k <= 32 * |m| && !BitAt(m, i) && BitAt(n, i)
    requires forall j :: 0 <= j < 32 * |m| && j != i ==> (BitAt(m, j) <==> BitAt(n, j))
    ensures Rank(n, k) == Rank(m, k) + (if i < k then 1 else 0)
  {
    if k > 0 {
      RankDiffer(m, n, i, k - 1);
    }
  }

  lemma {:induction false} RankNone(m: seq<nat>, k: nat)
    requires k <= 32 * |m| && Rank(m, k) > 0
    ensures exists i :: 0 <= i < k && BitAt(m, i)
  {
    if !BitAt(m, k - 1) {
      RankNone(m, k - 1);
    }
  }

  /** Counting a stretch of set bits. */
  lemma {:induction false} RankStretch(m: seq<nat>, lo: nat, hi: nat, k: nat)
    requires lo <= hi <= 32 * |m| && k <= 32 * |m| && forall i :: 0 <= i < 32 * |m| ==> (BitAt(m, i) <==> lo <= i < hi)
    ensures Rank(m, k) == if k <= lo then 0 else if k <= hi then k - lo else hi - lo
  {
    if k > 0 {
      RankStretch(m, lo, hi, k - 1);
    }
  }

  /** One bit of a bitmap set or cleared. */
  function Flip(m: seq<nat>, i: nat, on: bool): seq<nat>
    requires i < 32 * |m|
  {
    m[i / 32 := if on then SetBit(m[i / 32], i % 32) else ClearBit(m[i / 32], i % 32)]
  }

  lemma FlipIs(m: seq<nat>, i: nat, on: bool)
    requires i < 32 * |m| && IsMap(m)
    ensures IsMap(Flip(m, i, on))
    ensures forall j :: 0 <= j < 32 * |m| ==> (BitAt(Flip(m, i, on), j) <==> if j == i then on else BitAt(m, j))
  {
    var w := m[i / 32];
    PowerWord();
    SetBitSmall(w, i % 32, 32);
    ClearBitAt(w, i % 32, 0);
    forall j | 0 <= j < 32 * |m|
      ensures BitAt(Flip(m, i, on), j) <==> if j == i then on else BitAt(m, j)
    {
      if j / 32 == i / 32 {
        SetBitAt(w, i % 32, j % 32);
        ClearBitAt(w, i % 32, j % 32);
      }
    }
  }

  /* ---- sizes ---- */

  /** Bits in a number. */
  function Met(n: nat): nat {
    if n == 0 then 0 else 1 + Met(n / 2)
  }

  lemma {:induction false} MetBounds(n: nat)
    ensures n < Power(Met(n)) && (n > 0 ==> Power(Met(n) - 1) <= n)
  {
    if n > 0 {
      MetBounds(n / 2);
    }
  }

  lemma {:induction false} MetLess(n: nat, b: nat)
    requires n < Power(b)
    ensures Met(n) <= b
  {
    if n > 0 {
      MetLess(n / 2, b - 1);
    }
  }

  lemma {:induction false} PowerMono(a: nat, b: nat)
    requires a <= b
    ensures Power(a) <= Power(b)
  {
    if a < b {
      PowerMono(a, b - 1);
    }
  }

  /** The class for a length. */
  function ClassFor(len: nat): int
    requires len > 0
  {
    Met(len - 1) - 2
  }

  /** Its chunks are long enough, and less than twice too long. */
  lemma ClassFits(len: nat)
    requires 4 <= len <= 2048
    ensures 0 <= ClassFor(len) < 10 && len <= ChunkLen(ClassFor(len))
    ensures if len == 4 then ChunkLen(ClassFor(len)) == 4 else ChunkLen(ClassFor(len)) < 2 * len
  {
    var m := Met(len - 1);
    MetBounds(len - 1);
    assert Power(1) == 2 && Power(2) == 4 && Power(11) == 2048;
    assert Power(0) == 1;
    MetLess(len - 1, 11);
    hide ChunkLen;
    ChunkLenIs(m - 2);
  }

  /* ---- pages ---- */

  /** The bitmap of a page newly cut: all free but the chunks that hold metadata. */
  function FreshBits(g: nat): seq<nat> {
    seq(MapLen(g), (k: nat) => FreshWord(g, k))
  }

  function FreshWord(g: nat, k: nat): nat {
    if k == 0 then High(Ones(if Tot(g) < 32 then Tot(g) else 32), Hun(g)) else Ones(32)
  }

  lemma FreshAt(g: nat, i: nat)
    requires g < 10 && i < 32 * MapLen(g)
    ensures |FreshBits(g)| == MapLen(g) && (BitAt(FreshBits(g), i) <==> Hun(g) <= i < Tot(g))
  {
    hide High, Ones, Tot, Hun, MapLen, Bit;
    ClassShape(g);
    TotShape(g);
    var n := if Tot(g) < 32 then Tot(g) else 32;
    OnesAt(n, i % 32);
    HighAt(Ones(n), Hun(g), i % 32);
    OnesAt(32, i % 32);
  }

  lemma TotShape(g: nat)
    requires g < 10
    ensures if Tot(g) < 32 then MapLen(g) == 1 else Tot(g) == 32 * MapLen(g)
  {
    assert g in {0, 1, 2, 3, 4, 5, 6, 7, 8, 9};
  }

  lemma FreshWf(g: nat)
    requires g < 10
    ensures WfCrag(Crag(g, FreshBits(g), Tot(g) - Hun(g)))
  {
    ClassShape(g);
    var m := FreshBits(g);
    PowerWord();
    forall k | 0 <= k < |m|
      ensures m[k] < WORD
    {
      OnesAt(32, 0);
      if k == 0 {
        var n := if Tot(g) < 32 then Tot(g) else 32;
        OnesAt(n, 0);
        PowerMono(n, 32);
        HighAt(Ones(n), Hun(g), 0);
      }
    }
    forall i | 0 <= i < 32 * |m|
      ensures BitAt(m, i) <==> Hun(g) <= i < Tot(g)
    {
      FreshAt(g, i);
    }
    RankStretch(m, Hun(g), Tot(g), 32 * |m|);
  }

  /** The first free chunk: skip empty words, then count trailing zeros. */
  method FirstFree(m: seq<nat>) returns (i: nat)
    requires IsMap(m) && exists k :: 0 <= k < 32 * |m| && BitAt(m, k)
    ensures i < 32 * |m| && BitAt(m, i) && forall j :: 0 <= j < i ==> !BitAt(m, j)
  {
    var w := 0;
    while w < |m| && m[w] == 0
      invariant w <= |m| && forall k :: 0 <= k < w ==> m[k] == 0
    {
      w := w + 1;
    }
    if w == |m| {
      ghost var k :| 0 <= k < 32 * |m| && BitAt(m, k);
      ZeroBit(k % 32);
      assert false;
    }
    PowerWord();
    TzSmall(m[w], 32);
    TzIs(m[w], 0);
    i := 32 * w + Tz(m[w]);
    forall j | 0 <= j < i
      ensures !BitAt(m, j)
    {
      if j / 32 == w {
        TzIs(m[w], j % 32);
      } else {
        ZeroBit(j % 32);
      }
    }
  }

  /** Taking a free chunk, or giving one back. */
  function Turn(c: Crag, pos: nat, free: bool): Crag
    requires pos < 32 * |c.free|
  {
    Crag(c.g, Flip(c.free, pos, free), if free then c.fre + 1 else if c.fre > 0 then c.fre - 1 else 0)
  }

  lemma TurnWf(c: Crag, pos: nat, free: bool)
    requires WfCrag(c) && pos < 32 * |c.free| && Hun(c.g) <= pos < Tot(c.g) && BitAt(c.free, pos) != free
    ensures WfCrag(Turn(c, pos, free)) && (!free ==> c.fre > 0)
    ensures forall i :: 0 <= i < 32 * |c.free| ==>
        (BitAt(Turn(c, pos, free).free, i) <==> if i == pos then free else BitAt(c.free, i))
  {
    hide Tot, Hun, MapLen;
    FlipIs(c.free, pos, free);
    if free {
      RankDiffer(c.free, Flip(c.free, pos, true), pos, 32 * |c.free|);
    } else {
      RankDiffer(Flip(c.free, pos, false), c.free, pos, 32 * |c.free|);
    }
  }

  /* ---- class lists ---- */

  predicate Once(list: seq<nat>) {
    forall i, j :: 0 <= i < j < |list| ==> list[i] != list[j]
  }

  /** Link a page into the list of its class, as the home road does: past pages
      whose successor comes before it. */
  function Link(list: seq<nat>, p: nat): seq<nat> {
    if |list| >= 2 && list[1] < p then [list[0]] + Link(list[1..], p) else [p] + list
  }

  lemma {:induction false} LinkIs(list: seq<nat>, p: nat)
    requires Once(list) && p !in list
    ensures Once(Link(list, p)) && forall q :: q in Link(list, p) <==> q in list || q == p
  {
    if |list| >= 2 && list[1] < p {
      LinkIs(list[1..], p);
      assert list[0] !in list[1..];
    }
  }

  /** The list this makes need not be in page order, which is why compaction sorts
      it first. */
  lemma LinkUnsorted()
    ensures Link([5], 7) == [7, 5]
  {
  }

  function Unlink(list: seq<nat>, p: nat): seq<nat> {
    if list == [] then [] else if list[0] == p then list[1..] else [list[0]] + Unlink(list[1..], p)
  }

  lemma {:induction false} UnlinkIs(list: seq<nat>, p: nat)
    requires Once(list)
    ensures Once(Unlink(list, p)) && forall q :: q in Unlink(list, p) <==> q in list && q != p
  {
    if list != [] {
      assert list[0] !in list[1..];
      UnlinkIs(list[1..], p);
    }
  }

  class Hunks {
    var crags: map<nat, Crag>
    var wee: seq<seq<nat>>

    /** Counts are popcounts, and a page is on its class's list, once, exactly if it
        has a free chunk. */
    ghost predicate Valid()
      reads this
    {
      && |wee| == 10 && (forall p :: p in crags ==> WfCrag(crags[p]))
      && (forall g :: 0 <= g < 10 ==> Once(wee[g]))
      && (forall g, p :: 0 <= g < 10 ==> (p in wee[g] <==> p in crags && crags[p].g == g && crags[p].fre > 0))
    }

    constructor ()
      ensures Valid() && crags == map[]
    {
      crags, wee := map[], seq(10, _ => []);
    }

    /** Cut a page into chunks. */
    method MakeChunks(g: nat, page: nat)
      requires Valid() && g < 10 && page !in crags
      modifies this
      ensures Valid() && crags == old(crags)[page := Crag(g, FreshBits(g), Tot(g) - Hun(g))]
      ensures wee == old(wee)[g := [page] + old(wee)[g]]
    {
      hide Tot, Hun, FreshBits, WfCrag;
      ClassShape(g);
      FreshWf(g);
      crags := crags[page := Crag(g, FreshBits(g), Tot(g) - Hun(g))];
      wee := wee[g := [page] + wee[g]];
    }

    /** Take a chunk from the first page of a class's list. */
    method Carve(g: nat) returns (p: nat, pos: nat)
      requires Valid() && g < 10 && |wee[g]| > 0
      modifies this
      ensures Valid() && p in old(crags) && old(crags)[p].g == g && crags.Keys == old(crags).Keys
      ensures !Taken(old(crags), p, pos) && Taken(crags, p, pos) && crags[p].fre < Ful(g)
      ensures forall q: nat, i: nat :: q != p || i != pos ==> (Taken(crags, q, i) <==> Taken(old(crags), q, i))
      ensures crags == old(crags)[p := crags[p]] && crags[p].g == g && p == old(wee)[g][0]
    {
      hide Taken, WfCrag, Tot, Hun, FreshBits, Turn;
      p := wee[g][0];
      assert p in wee[g];
      var c := crags[p];
      FreeExists(c);
      pos := FirstFree(c.free);
      FreeWhere(c, pos);
      TurnWf(c, pos, false);
      UsedTurn(crags, p, pos, false);
      TurnDown(c, pos);
      ghost var was := crags;
      if c.fre == 1 {
        wee := wee[g := wee[g][1..]];
      }
      crags := crags[p := Turn(c, pos, false)];
    }

    /** Free a chunk. A page with nothing left in use is given up. */
    method FreeWords(p: nat, pos: nat) returns (released: bool)
      requires Valid() && Taken(crags, p, pos)
      modifies this
      ensures Valid() && released == (p !in crags)
      ensures forall q: nat, i: nat :: Taken(crags, q, i) <==> Taken(old(crags), q, i) && (q != p || i != pos)
      ensures released <==> forall i: nat :: Taken(old(crags), p, i) ==> i == pos
      ensures crags == if released then old(crags) - {p} else old(crags)[p := crags[p]]
      ensures !released ==> crags[p].g == old(crags)[p].g && crags[p].fre < Ful(crags[p].g)
    {
      hide Taken, WfCrag, Tot, Hun, MapLen, Turn, Link, Unlink;
      TakenIs(crags, p, pos);
      var c := crags[p];
      var g := c.g;
      TurnWf(c, pos, true);
      UsedTurn(crags, p, pos, true);
      var now := Turn(c, pos, true);
      TurnFre(c, pos);
      ghost var start := crags;
      crags := crags[p := now];
      LastChunk(start, crags, p, pos);
      FreeMost(now);
      released := now.fre == Ful(g);
      if now.fre == 1 {
        LinkIs(wee[g], p);
        wee := wee[g := Link(wee[g], p)];
      }
      if released {
        UnlinkIs(wee[g], p);
        wee := wee[g := Unlink(wee[g], p)];
        ghost var mid := crags;
        crags := crags - {p};
        Dropped(mid, p);
      }
    }
  }

  lemma TurnFre(c: Crag, pos: nat)
    requires pos < 32 * |c.free|
    ensures Turn(c, pos, true).fre == c.fre + 1 && Turn(c, pos, true).g == c.g
  {
  }

  /** A page has no more free chunks than it has chunks. */
  lemma FreeMost(c: Crag)
    requires WfCrag(c)
    ensures c.fre <= Ful(c.g)
  {
    ClassShape(c.g);
    RankZeros(c.free, 0, Hun(c.g));
    RankMono(c.free, Hun(c.g), Tot(c.g));
    RankZeros(c.free, Tot(c.g), 32 * |c.free|);
  }

  lemma TurnDown(c: Crag, pos: nat)
    requires WfCrag(c) && c.fre > 0 && pos < 32 * |c.free|
    ensures Turn(c, pos, false).g == c.g && Turn(c, pos, false).fre == c.fre - 1 < Ful(c.g)
  {
    FreeMost(c);
  }

  lemma TakenIs(crags: map<nat, Crag>, p: nat, pos: nat)
    requires Taken(crags, p, pos)
    ensures p in crags && WfCrag(crags[p]) && crags[p].g < 10 && Hun(crags[p].g) <= pos < Tot(crags[p].g)
    ensures pos < 32 * |crags[p].free| && !BitAt(crags[p].free, pos)
  {
    ClassShape(crags[p].g);
  }

  lemma FreeExists(c: Crag)
    requires WfCrag(c) && c.fre > 0
    ensures IsMap(c.free) && exists k :: 0 <= k < 32 * |c.free| && BitAt(c.free, k)
  {
    RankNone(c.free, 32 * |c.free|);
  }

  lemma FreeWhere(c: Crag, pos: nat)
    requires WfCrag(c) && pos < 32 * |c.free| && BitAt(c.free, pos)
    ensures Hun(c.g) <= pos < Tot(c.g)
  {
  }

  lemma FreshUnused(was: map<nat, Crag>, now: map<nat, Crag>, page: nat, g: nat)
    requires g < 10 && page !in was && now == was[page := Crag(g, FreshBits(g), Tot(g) - Hun(g))]
    ensures forall q: nat, i: nat :: Taken(now, q, i) <==> Taken(was, q, i)
  {
    ClassShape(g);
    forall i: nat
      ensures !Taken(now, page, i)
    {
      if i < 32 * MapLen(g) {
        FreshAt(g, i);
      }
    }
  }

  /** Turning a chunk changes whether it is in use, and nothing else. */
  lemma UsedTurn(crags: map<nat, Crag>, p: nat, pos: nat, free: bool)
    requires p in crags && WfCrag(crags[p]) && pos < 32 * |crags[p].free| && Hun(crags[p].g) <= pos < Tot(crags[p].g)
    requires BitAt(crags[p].free, pos) != free
    ensures var now := crags[p := Turn(crags[p], pos, free)];
            && (Taken(now, p, pos) <==> !free) && (Taken(crags, p, pos) <==> free)
            && forall q: nat, i: nat :: q != p || i != pos ==> (Taken(now, q, i) <==> Taken(crags, q, i))
  {
    hide Tot, Hun, MapLen, Flip;
    TurnWf(crags[p], pos, free);
    ClassShape(crags[p].g);
  }

  /** All of a page's chunks are free exactly when nothing on it is in use. */
  lemma AllFree(c: Crag)
    requires WfCrag(c)
    ensures c.fre == Ful(c.g) <==> forall i: nat :: Hun(c.g) <= i < Tot(c.g) ==> (ClassShape(c.g); BitAt(c.free, i))
  {
    ClassShape(c.g);
    var m, hun, tot := c.free, Hun(c.g), Tot(c.g);
    if forall i: nat :: hun <= i < tot ==> BitAt(m, i) {
      RankStretch(m, hun, tot, 32 * |m|);
    } else {
      var i: nat :| hun <= i < tot && !BitAt(m, i);
      RankGap(m, hun, tot, i);
    }
  }

  /** Fewer bits than the stretch has places, if one of them is clear. */
  lemma RankGap(m: seq<nat>, lo: nat, hi: nat, i: nat)
    requires lo <= i < hi <= 32 * |m| && !BitAt(m, i) && forall j :: 0 <= j < 32 * |m| && BitAt(m, j) ==> lo <= j < hi
    ensures Rank(m, 32 * |m|) < hi - lo
  {
    RankZeros(m, 0, lo);
    RankMono(m, lo, i);
    assert Rank(m, i + 1) == Rank(m, i);
    RankMono(m, i + 1, hi);
    RankZeros(m, hi, 32 * |m|);
  }

  lemma {:induction false} RankZeros(m: seq<nat>, lo: nat, hi: nat)
    requires lo <= hi <= 32 * |m| && forall j :: lo <= j < hi ==> !BitAt(m, j)
    ensures Rank(m, hi) == Rank(m, lo)
  {
    if lo < hi {
      RankZeros(m, lo, hi - 1);
    }
  }

  lemma LastChunk(was: map<nat, Crag>, now: map<nat, Crag>, p: nat, pos: nat)
    requires p in now && WfCrag(now[p]) && Taken(was, p, pos)
    requires forall q: nat, i: nat :: q != p || i != pos ==> (Taken(now, q, i) <==> Taken(was, q, i))
    requires !Taken(now, p, pos)
    ensures now[p].fre == Ful(now[p].g) <==> forall i: nat :: Taken(was, p, i) ==> i == pos
  {
    AllFree(now[p]);
    ClassShape(now[p].g);
    forall i: nat | Taken(was, p, i) && i != pos
      ensures Taken(now, p, i)
    {
    }
    if forall i: nat :: Taken(was, p, i) ==> i == pos {
      forall i: nat | Hun(now[p].g) <= i < Tot(now[p].g)
        ensures BitAt(now[p].free, i)
      {
        assert !Taken(now, p, i);
      }
    } else {
      var i: nat :| Taken(was, p, i) && i != pos;
      assert Taken(now, p, i);
    }
  }

  /** A page with nothing in use may go. */
  lemma Dropped(crags: map<nat, Crag>, p: nat)
    requires p in crags && WfCrag(crags[p]) && crags[p].fre == Ful(crags[p].g)
    ensures forall q: nat, i: nat :: Taken(crags - {p}, q, i) <==> Taken(crags, q, i)
  {
    AllFree(crags[p]);
    forall i: nat
      ensures !Taken(crags, p, i)
    {
    }
  }

  /** Chunks in use share no word. */
  lemma TakenApart(crags: map<nat, Crag>, p: nat, i: nat, q: nat, j: nat, a: nat)
    requires Taken(crags, p, i) && Taken(crags, q, j)
    requires ChunkStart(p, crags[p].g, i) <= a < ChunkStart(p, crags[p].g, i) + ChunkLen(crags[p].g)
    requires ChunkStart(q, crags[q].g, j) <= a < ChunkStart(q, crags[q].g, j) + ChunkLen(crags[q].g)
    ensures p == q && i == j
  {
    hide ChunkLen, Tot, Hun, MapLen, ChunkStart;
    ChunkWord(p, crags[p].g, i, a - ChunkStart(p, crags[p].g, i));
    ChunkWord(q, crags[q].g, j, a - ChunkStart(q, crags[q].g, j));
  }
}
