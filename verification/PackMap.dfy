/** Where compaction puts each chunk. The partly free chunk pages of a size class
    are merged in page order: each page first fills what the page before it left
    free, and is kept only if some of its chunks remain. */
module PackMap {
  import opened Bits

  /** Words in a page, and the metadata words of a chunk page. */
  const PAGE := 4096
  const CRAG := 4

  /** Chunk sizes: class `g` has chunks of `2^(g + 2)` words. When the metadata of
      a page is large for its chunks, the page's first chunks hold it. */
  function ChunkLen(g: nat): (len: nat)
    ensures len >= 4 && len % 4 == 0
  {
    [4, 8, 16, 32, 64, 128, 256, 512, 1024, 2048][if g < 10 then g else 9]
  }

  function Tot(g: nat): nat {
    PAGE / ChunkLen(g)
  }

  function MapLen(g: nat): nat {
    (Tot(g) + 31) / 32
  }

  function Hun(g: nat): nat {
    var size := CRAG + MapLen(g) - 1;
    if ChunkLen(g) <= 2 * size then 1 + (size - 1) / ChunkLen(g) else 0
  }

  function Ful(g: nat): nat
    requires g < 10
  {
    ClassShape(g);
    Tot(g) - Hun(g)
  }

  /** What holds of all ten classes. */
  lemma ClassShape(g: nat)
    requires g < 10
    ensures ChunkLen(g) * Tot(g) == PAGE && 2 <= Tot(g) <= 32 * MapLen(g)
    ensures Hun(g) < Tot(g) && Hun(g) < 32
  {
    hide *;
    if g < 5 {
      SmallShape(g);
    } else {
      LargeShape(g);
    }
  }

  lemma SmallShape(g: nat)
    requires g < 5
    ensures ChunkLen(g) * Tot(g) == PAGE && 2 <= Tot(g) <= 32 * MapLen(g)
    ensures Hun(g) < Tot(g) && Hun(g) < 32
  {
    assert g in {0, 1, 2, 3, 4};
  }

  lemma LargeShape(g: nat)
    requires 5 <= g < 10
    ensures ChunkLen(g) * Tot(g) == PAGE && 2 <= Tot(g) <= 32 * MapLen(g)
    ensures Hun(g) < Tot(g) && Hun(g) < 32
  {
    assert g in {5, 6, 7, 8, 9};
  }

  /** The chunks that are set aside hold the metadata, with none to spare; where there
      are none, a chunk is more than twice as long as it. */
  lemma HunsHold(g: nat)
    requires g < 10
    ensures var size := 3 + MapLen(g);
            if Hun(g) == 0 then 2 * size < ChunkLen(g) else (Hun(g) - 1) * ChunkLen(g) < size <= Hun(g) * ChunkLen(g)
  {
    hide ChunkLen, MapLen;
    Quotient(MapLen(g) + 2, ChunkLen(g));
  }

  lemma Quotient(a: nat, b: nat)
    requires b > 0
    ensures a / b * b <= a < (a / b + 1) * b
  {
  }

  lemma ChunkLenIs(g: nat)
    requires g < 10
    ensures ChunkLen(g) == Power(g + 2)
  {
    assert Power(0) == 1;
    if g < 5 {
      assert g in {0, 1, 2, 3, 4};
      assert Power(2) == 4 && Power(4) == 16 && Power(6) == 64;
    } else {
      assert g in {5, 6, 7, 8, 9};
      assert Power(2) == 4 && Power(4) == 16 && Power(6) == 64;
      assert Power(8) == 256 && Power(10) == 1024;
    }
  }

  /** A page: free, part of a larger allocation, or cut into chunks of a class,
      with the bitmap of the chunks in use. */
  datatype Page = Free | Head | Rest | Chunks(g: nat, hap: seq<nat>)

  predicate WfPage(page: Page) {
    page.Chunks? ==>
      && page.g < 10 && |page.hap| == MapLen(page.g) && IsMap(page.hap)
      && (ClassShape(page.g);
          && (forall i :: 0 <= i < Hun(page.g) ==> BitAt(page.hap, i))
          && (forall i :: Tot(page.g) <= i < 32 * |page.hap| ==> !BitAt(page.hap, i)))
  }

  predicate Wf(pages: seq<Page>) {
    forall p :: 0 <= p < |pages| ==> WfPage(pages[p])
  }

  /** Chunks in use on a page, without the reserved ones. */
  function Used(page: Page): nat
    requires WfPage(page) && page.Chunks?
  {
    ClassShape(page.g);
    ReservedRank(page.hap, Hun(page.g), Hun(page.g));
    RankMono(page.hap, Hun(page.g), Tot(page.g));
    Rank(page.hap, Tot(page.g)) - Hun(page.g)
  }

  lemma {:induction false} ReservedRank(m: seq<nat>, hun: nat, i: nat)
    requires i <= hun <= 32 * |m| && forall k :: 0 <= k < hun ==> BitAt(m, k)
    ensures Rank(m, i) == i
  {
    if i > 0 {
      ReservedRank(m, hun, i - 1);
    }
  }

  /** Pages that have a free chunk are on the list of their class. */
  predicate Listed(page: Page, g: nat)
    requires WfPage(page)
  {
    page.Chunks? && page.g == g && Used(page) < Ful(g)
  }

  /** The page that chunks are being moved into: its number, how many chunks it
      has free, and how many are in use. Nothing free means that there is none. */
  datatype Pre = Pre(pag: nat, fre: nat, pos: nat)

  function Advance(pre: Pre, p: nat, used: nat, ful: nat): Pre
    requires used <= ful
  {
    if used < pre.fre then Pre(pre.pag, pre.fre - used, pre.pos + used)
    else if used > pre.fre then Pre(p, pre.fre + (ful - used), used - pre.fre)
    else Pre(0, 0, 0)
  }

  /** The page being filled when page `p` is looked at. */
  function Scan(pages: seq<Page>, g: nat, p: nat): Pre
    requires Wf(pages) && g < 10 && p <= |pages|
  {
    if p == 0 then Pre(0, 0, 0)
    else if Listed(pages[p - 1], g) then Advance(Scan(pages, g, p - 1), p - 1, Used(pages[p - 1]), Ful(g))
    else Scan(pages, g, p - 1)
  }

  predicate Kept(pages: seq<Page>, p: nat)
    requires Wf(pages) && p < |pages|
  {
    match pages[p]
    case Free => false
    case Head => true
    case Rest => true
    case Chunks(g, _) => Listed(pages[p], g) ==> Used(pages[p]) > Scan(pages, g, p).fre
  }

  /** A chunk in use that may move. */
  predicate Chunk(pages: seq<Page>, g: nat, p: nat, i: nat)
    requires Wf(pages) && g < 10
  {
    && p < |pages| && Listed(pages[p], g)
    && (ClassShape(g); Hun(g) <= i < Tot(g) && BitAt(pages[p].hap, i))
  }

  datatype Spot = Spot(pag: nat, pos: nat)

  predicate Before(a: Spot, b: Spot) {
    a.pag < b.pag || (a.pag == b.pag && a.pos < b.pos)
  }

  /** The relocation of a chunk, by page number before pages are moved. */
  function Target(pages: seq<Page>, g: nat, p: nat, i: nat): Spot
    requires Wf(pages) && g < 10 && Chunk(pages, g, p, i)
  {
    ClassShape(g);
    var pre, r := Scan(pages, g, p), Rank(pages[p].hap, i);
    if r < pre.fre + Hun(g) then Spot(pre.pag, r + pre.pos)
    else Spot(p, if r < pre.fre then 0 else r - pre.fre)
  }

  /** The first spot that is not yet taken when page `p` is looked at. */
  function Frontier(pages: seq<Page>, g: nat, p: nat): Spot
    requires Wf(pages) && g < 10 && p <= |pages|
  {
    var pre := Scan(pages, g, p);
    if pre.fre > 0 then Spot(pre.pag, Hun(g) + pre.pos) else Spot(p, 0)
  }

  lemma {:induction false} ScanInv(pages: seq<Page>, g: nat, p: nat)
    requires Wf(pages) && g < 10 && p <= |pages|
    ensures var pre := Scan(pages, g, p);
            pre.fre > 0 ==> pre.pag < p && Listed(pages[pre.pag], g) && Kept(pages, pre.pag)
                            && pre.pos > 0 && pre.pos + pre.fre == Ful(g)
  {
    if p > 0 {
      ScanInv(pages, g, p - 1);
    }
  }

  lemma RankInPage(page: Page, i: nat)
    requires WfPage(page) && page.Chunks?
    requires (ClassShape(page.g); Hun(page.g) <= i < Tot(page.g) && BitAt(page.hap, i))
    ensures i < 32 * |page.hap|
    ensures Hun(page.g) <= Rank(page.hap, i) <= i
    ensures Rank(page.hap, i) < Hun(page.g) + Used(page)
  {
    ReservedRank(page.hap, Hun(page.g), Hun(page.g));
    RankMono(page.hap, Hun(page.g), i);
    RankMono(page.hap, 0, i);
    RankMono(page.hap, i, Tot(page.g));
  }

  /** A target is a movable position of a kept page of the class, at or below
      where the chunk was, and between the frontiers around its page. */
  lemma TargetBounds(pages: seq<Page>, g: nat, p: nat, i: nat)
    requires Wf(pages) && g < 10 && Chunk(pages, g, p, i)
    ensures var t := Target(pages, g, p, i);
            && t.pag <= p && Listed(pages[t.pag], g) && Kept(pages, t.pag) && Hun(g) <= t.pos < Tot(g)
            && (t.pag == p ==> t.pos <= i)
            && !Before(t, Frontier(pages, g, p)) && Before(t, Frontier(pages, g, p + 1))
  {
    ClassShape(g);
    ScanInv(pages, g, p);
    RankInPage(pages[p], i);
  }

  lemma {:induction false} FrontierMono(pages: seq<Page>, g: nat, p: nat, q: nat)
    requires Wf(pages) && g < 10 && p <= q <= |pages|
    ensures !Before(Frontier(pages, g, q), Frontier(pages, g, p))
    decreases q - p
  {
    hide Used, Tot, Hun, Kept, WfPage;
    if p < q {
      FrontierMono(pages, g, p, q - 1);
      ScanInv(pages, g, q - 1);
      ScanInv(pages, g, p);
    }
  }

  lemma TargetOrderFar(pages: seq<Page>, g: nat, p: nat, i: nat, q: nat, j: nat)
    requires Wf(pages) && g < 10 && Chunk(pages, g, p, i) && Chunk(pages, g, q, j) && p < q
    ensures Before(Target(pages, g, p, i), Target(pages, g, q, j))
  {
    TargetBounds(pages, g, p, i);
    TargetBounds(pages, g, q, j);
    FrontierMono(pages, g, p + 1, q);
    hide Target, Frontier, Chunk, Wf;
  }

  lemma TargetOrderNear(pages: seq<Page>, g: nat, p: nat, i: nat, j: nat)
    requires Wf(pages) && g < 10 && Chunk(pages, g, p, i) && Chunk(pages, g, p, j) && i < j
    ensures Before(Target(pages, g, p, i), Target(pages, g, p, j))
  {
    hide Scan, Tot, Hun, Rank, Kept, Used;
    ClassShape(g);
    ScanInv(pages, g, p);
    RankInPage(pages[p], i);
    RankInPage(pages[p], j);
    RankMono(pages[p].hap, i, j);
  }

  /** Relocation keeps the order of chunks, so no two meet. */
  lemma TargetOrder(pages: seq<Page>, g: nat, p: nat, i: nat, q: nat, j: nat)
    requires Wf(pages) && g < 10 && Chunk(pages, g, p, i) && Chunk(pages, g, q, j)
    requires Before(Spot(p, i), Spot(q, j))
    ensures Before(Target(pages, g, p, i), Target(pages, g, q, j))
  {
    hide Target, Chunk, Wf;
    if p < q {
      TargetOrderFar(pages, g, p, i, q, j);
    } else {
      TargetOrderNear(pages, g, p, i, j);
    }
  }

  /** Capacity of the kept listed pages of a class, and what is in use on its
      listed pages, below page `p`. */
  function Capacity(pages: seq<Page>, g: nat, p: nat): nat
    requires Wf(pages) && g < 10 && p <= |pages|
  {
    if p == 0 then 0
    else Capacity(pages, g, p - 1) + (if Listed(pages[p - 1], g) && Kept(pages, p - 1) then Ful(g) else 0)
  }

  function InUse(pages: seq<Page>, g: nat, p: nat): nat
    requires Wf(pages) && g < 10 && p <= |pages|
  {
    if p == 0 then 0
    else InUse(pages, g, p - 1) + (if Listed(pages[p - 1], g) then Used(pages[p - 1]) else 0)
  }

  /** Nothing is lost: what is kept holds exactly what was in use, except for the
      free chunks of the one page that is left partly free. */
  lemma {:induction false} Conserved(pages: seq<Page>, g: nat, p: nat)
    requires Wf(pages) && g < 10 && p <= |pages|
    ensures Capacity(pages, g, p) == InUse(pages, g, p) + Scan(pages, g, p).fre
    ensures Scan(pages, g, p).fre < Ful(g)
  {
    hide Used, Tot, Hun, WfPage;
    ClassShape(g);
    if p > 0 {
      Conserved(pages, g, p - 1);
    }
  }

  /** The chunk of a given rank. */
  lemma {:induction false} Select(m: seq<nat>, n: nat, r: nat) returns (i: nat)
    requires n <= 32 * |m| && r < Rank(m, n)
    ensures i < n && BitAt(m, i) && Rank(m, i) == r
  {
    if Rank(m, n - 1) > r {
      i := Select(m, n - 1, r);
    } else {
      i := n - 1;
    }
  }

  /** No kept page of the class lies between the page being filled and `p`. */
  lemma {:induction false} NoneBetween(pages: seq<Page>, g: nat, p: nat, q: nat)
    requires Wf(pages) && g < 10 && p <= |pages| && Scan(pages, g, p).fre > 0
    requires Scan(pages, g, p).pag < q < p && Listed(pages[q], g)
    ensures !Kept(pages, q)
  {
    hide Used, Tot, Hun;
    if p > 0 && q < p - 1 {
      NoneBetween(pages, g, p - 1, q);
    }
  }

  lemma FilledHere(pages: seq<Page>, g: nat, p: nat, s: Spot) returns (i: nat)
    requires Wf(pages) && g < 10 && p < |pages| && Listed(pages[p], g)
    requires s.pag == p && Kept(pages, p) && Hun(g) <= s.pos < Tot(g) && Before(s, Frontier(pages, g, p + 1))
    ensures Chunk(pages, g, p, i) && Target(pages, g, p, i) == s
  {
    hide ChunkLen, MapLen;
    ClassShape(g);
    var page := pages[p];
    ReservedRank(page.hap, Hun(g), Hun(g));
    i := Select(page.hap, Tot(g), s.pos + Scan(pages, g, p).fre);
    if i < Hun(g) {
      ReservedRank(page.hap, Hun(g), i);
    }
  }

  lemma FilledBefore(pages: seq<Page>, g: nat, p: nat, s: Spot) returns (i: nat)
    requires Wf(pages) && g < 10 && p < |pages| && Listed(pages[p], g)
    requires s.pag < p && Listed(pages[s.pag], g) && Kept(pages, s.pag) && Hun(g) <= s.pos < Tot(g)
    requires !Before(s, Frontier(pages, g, p)) && Before(s, Frontier(pages, g, p + 1))
    ensures Chunk(pages, g, p, i) && Target(pages, g, p, i) == s
  {
    hide ChunkLen, MapLen;
    ClassShape(g);
    var pre, page := Scan(pages, g, p), pages[p];
    ScanInv(pages, g, p);
    if pre.pag < s.pag {
      NoneBetween(pages, g, p, s.pag);
    }
    ReservedRank(page.hap, Hun(g), Hun(g));
    i := Select(page.hap, Tot(g), s.pos - pre.pos);
    if i < Hun(g) {
      ReservedRank(page.hap, Hun(g), i);
    }
  }

  /** No gaps: every movable position of a kept page below the frontier is the
      target of some chunk. */
  lemma {:induction false} Filled(pages: seq<Page>, g: nat, p: nat, s: Spot) returns (q: nat, i: nat)
    requires Wf(pages) && g < 10 && p <= |pages|
    requires s.pag < p && Listed(pages[s.pag], g) && Kept(pages, s.pag) && Hun(g) <= s.pos < Tot(g)
    requires Before(s, Frontier(pages, g, p))
    ensures q < p && Chunk(pages, g, q, i) && Target(pages, g, q, i) == s
  {
    hide Used, Tot, Hun, Rank, Target, Chunk, WfPage;
    if s.pag < p - 1 && Before(s, Frontier(pages, g, p - 1)) {
      q, i := Filled(pages, g, p - 1, s);
    } else if s.pag == p - 1 {
      q := p - 1;
      i := FilledHere(pages, g, p - 1, s);
    } else {
      q := p - 1;
      i := FilledBefore(pages, g, p - 1, s);
    }
  }

  /** The list of a class: its pages with a free chunk, in page order. */
  ghost predicate IsList(pages: seq<Page>, g: nat, list: seq<nat>)
    requires Wf(pages) && g < 10
  {
    && (forall k :: 0 <= k < |list| ==> list[k] < |pages| && Listed(pages[list[k]], g))
    && (forall k, l :: 0 <= k < l < |list| ==> list[k] < list[l])
    && (forall p :: 0 <= p < |pages| && Listed(pages[p], g) ==> p in list)
  }

  /** Pages that are not on the list change nothing. */
  lemma {:induction false} ScanSkip(pages: seq<Page>, g: nat, p: nat, q: nat)
    requires Wf(pages) && g < 10 && p <= q <= |pages|
    requires forall r :: p <= r < q ==> !Listed(pages[r], g)
    ensures Scan(pages, g, q) == Scan(pages, g, p)
    decreases q - p
  {
    if p < q {
      ScanSkip(pages, g, p, q - 1);
    }
  }

  lemma GapUnlisted(pages: seq<Page>, g: nat, list: seq<nat>, k: nat, r: nat)
    requires Wf(pages) && g < 10 && IsList(pages, g, list) && k <= |list| && r < |pages|
    requires (k > 0 ==> list[k - 1] < r) && (k < |list| ==> r < list[k])
    ensures !Listed(pages[r], g)
  {
    forall l | 0 <= l < |list|
      ensures list[l] != r
    {
      if l < k - 1 {
        assert list[l] < list[k - 1];
      } else if l > k {
        assert list[k] < list[l];
      }
    }
  }

  /** What is left is known from the last page being filled: a movable position
      of a kept page is taken exactly when it is below the last frontier. */
  lemma Occupied(pages: seq<Page>, g: nat, s: Spot)
    requires Wf(pages) && g < 10
    requires s.pag < |pages| && Listed(pages[s.pag], g) && Kept(pages, s.pag) && Hun(g) <= s.pos < Tot(g)
    ensures (exists p: nat, i: nat :: Chunk(pages, g, p, i) && Target(pages, g, p, i) == s)
            <==> Before(s, Frontier(pages, g, |pages|))
  {
    hide Target, Chunk, Frontier, Wf, Kept, Listed, Tot, Hun;
    if Before(s, Frontier(pages, g, |pages|)) {
      var q, i := Filled(pages, g, |pages|, s);
    }
    forall p: nat, i: nat | Chunk(pages, g, p, i) && Target(pages, g, p, i) == s
      ensures Before(s, Frontier(pages, g, |pages|))
    {
      ChunkPage(pages, g, p, i);
      TargetBounds(pages, g, p, i);
      FrontierMono(pages, g, p + 1, |pages|);
    }
  }

  lemma ChunkPage(pages: seq<Page>, g: nat, p: nat, i: nat)
    requires Wf(pages) && g < 10 && Chunk(pages, g, p, i)
    ensures p < |pages|
  {
  }

  /** The page after the last one on the list that has been walked. */
  function Walked(list: seq<nat>, k: nat): nat
    requires k <= |list|
  {
    if k == 0 then 0 else list[k - 1] + 1
  }

  lemma ScanGap(pages: seq<Page>, g: nat, list: seq<nat>, k: nat)
    requires Wf(pages) && g < 10 && IsList(pages, g, list) && k <= |list|
    ensures var to := if k < |list| then list[k] else |pages|;
            Walked(list, k) <= to <= |pages| && Scan(pages, g, Walked(list, k)) == Scan(pages, g, to)
  {
    hide Scan, Listed;
    var to := if k < |list| then list[k] else |pages|;
    forall r | Walked(list, k) <= r < to
      ensures !Listed(pages[r], g)
    {
      GapUnlisted(pages, g, list, k, r);
    }
    ScanSkip(pages, g, Walked(list, k), to);
  }

  /** Record for a page what it fills first and whether it is kept. */
  method SeekPage(pages: seq<Page>, g: nat, p: nat, pre: Pre, keep: array<bool>, rags: array<Pre>) returns (next: Pre)
    requires Wf(pages) && g < 10 && p < |pages| && Listed(pages[p], g) && pre == Scan(pages, g, p)
    requires keep.Length == rags.Length == |pages|
    modifies keep, rags
    ensures next == Scan(pages, g, p + 1)
    ensures rags[..] == old(rags[..])[p := Scan(pages, g, p)] && keep[..] == old(keep[..])[p := Kept(pages, p)]
  {
    hide Used, Tot, Hun;
    rags[p] := pre;
    keep[p] := Used(pages[p]) > pre.fre;
    next := Advance(pre, p, Used(pages[p]), Ful(g));
  }

  /** Walk the list of a class. */
  method SeekClass(pages: seq<Page>, g: nat, list: seq<nat>, keep: array<bool>, rags: array<Pre>) returns (last: Pre)
    requires Wf(pages) && g < 10 && IsList(pages, g, list)
    requires keep.Length == rags.Length == |pages|
    modifies keep, rags
    ensures forall p :: 0 <= p < |pages| && Listed(pages[p], g) ==>
        rags[p] == Scan(pages, g, p) && keep[p] == Kept(pages, p)
    ensures forall p :: 0 <= p < |pages| && !Listed(pages[p], g) ==> rags[p] == old(rags[p]) && keep[p] == old(keep[p])
    ensures last == Scan(pages, g, |pages|)
  {
    hide Scan, Listed, Kept, Wf;
    last := Pre(0, 0, 0);
    var k := 0;
    ScanNone(pages, g);
    while k < |list|
      invariant k <= |list|
      invariant last == Scan(pages, g, Walked(list, k))
      invariant forall l :: 0 <= l < k ==>
          rags[list[l]] == Scan(pages, g, list[l]) && keep[list[l]] == Kept(pages, list[l])
      invariant forall p :: 0 <= p < |pages| && p !in list ==> rags[p] == old(rags[p]) && keep[p] == old(keep[p])
    {
      ScanGap(pages, g, list, k);
      last := SeekPage(pages, g, list[k], last, keep, rags);
      k := k + 1;
    }
    ScanGap(pages, g, list, k);
  }

  lemma ScanNone(pages: seq<Page>, g: nat)
    requires Wf(pages) && g < 10
    ensures Scan(pages, g, 0) == Pre(0, 0, 0)
  {
  }
}
