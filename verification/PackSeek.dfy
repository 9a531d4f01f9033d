/** The first pass of compaction: build the tables from which every pointer is
    relocated, and look relocations up in them. */
module PackSeek {
  import opened Bits
  import opened PackMap
  import opened PackWords

  method SetAt(m: array<nat>, p: nat)
    requires IsMap(m[..]) && p < 32 * m.Length
    modifies m
    ensures IsMap(m[..])
    ensures forall q :: 0 <= q < 32 * m.Length ==> (BitAt(m[..], q) <==> q == p || BitAt(old(m[..]), q))
  {
    var was := m[p / 32];
    m[p / 32] := SetBit(was, p % 32);
    PowerWord();
    SetBitSmall(was, p % 32, 32);
    forall q | 0 <= q < 32 * m.Length
      ensures BitAt(m[..], q) <==> q == p || BitAt(old(m[..]), q)
    {
      if q / 32 == p / 32 {
        SetBitAt(was, p % 32, q % 32);
      }
    }
  }

  /** The bitmap of the pages that are kept. */
  method MarkPages(keep: array<bool>) returns (pap: array<nat>)
    ensures fresh(pap) && pap.Length == (keep.Length + 31) / 32 && IsMap(pap[..])
    ensures forall p :: 0 <= p < 32 * pap.Length ==> (BitAt(pap[..], p) <==> p < keep.Length && keep[p])
  {
    pap := new nat[(keep.Length + 31) / 32](_ => 0);
    forall p | 0 <= p < 32 * pap.Length
      ensures !BitAt(pap[..], p)
    {
      ZeroBit(p % 32);
    }
    var p := 0;
    while p < keep.Length
      invariant p <= keep.Length && IsMap(pap[..])
      invariant forall q :: 0 <= q < 32 * pap.Length ==> (BitAt(pap[..], q) <==> q < p && keep[q])
    {
      if keep[p] {
        SetAt(pap, p);
      }
      p := p + 1;
    }
  }

  /** The tables: kept pages with running counts, what each listed page fills
      first, and running counts of each listed page's chunks. */
  datatype Gack = Gack(pap: seq<nat>, pum: seq<nat>, rags: seq<Pre>, hums: seq<seq<nat>>)

  ghost predicate Sums(m: seq<nat>, sums: seq<nat>) {
    |sums| == |m| && forall k :: 0 <= k < |m| ==> sums[k] == Rank(m, 32 * k)
  }

  ghost predicate Sought(pages: seq<Page>, gack: Gack)
    requires Wf(pages)
  {
    && |gack.pap| == (|pages| + 31) / 32 && |gack.rags| == |gack.hums| == |pages| && Sums(gack.pap, gack.pum)
    && (forall p :: 0 <= p < |pages| ==> (BitAt(gack.pap, p) <==> Kept(pages, p)))
    && (forall p :: 0 <= p < |pages| && pages[p].Chunks? && Listed(pages[p], pages[p].g) ==>
          gack.rags[p] == Scan(pages, pages[p].g, p) && Sums(pages[p].hap, gack.hums[p]))
  }

  method ChunkSums(pages: seq<Page>) returns (hums: seq<seq<nat>>)
    requires Wf(pages)
    ensures |hums| == |pages|
    ensures forall p :: 0 <= p < |pages| && pages[p].Chunks? ==> Sums(pages[p].hap, hums[p])
  {
    hums := [];
    for p := 0 to |pages|
      invariant |hums| == p
      invariant forall q :: 0 <= q < p && pages[q].Chunks? ==> Sums(pages[q].hap, hums[q])
    {
      if pages[p].Chunks? {
        var sums := PrefixSums(pages[p].hap);
        hums := hums + [sums];
      } else {
        hums := hums + [[]];
      }
    }
  }

  method SeekHunks(pages: seq<Page>, lists: seq<seq<nat>>) returns (keep: array<bool>, rags: array<Pre>)
    requires Wf(pages) && |lists| == 10 && forall g :: 0 <= g < 10 ==> IsList(pages, g, lists[g])
    ensures keep.Length == rags.Length == |pages| && fresh(keep) && fresh(rags)
    ensures forall p :: 0 <= p < |pages| ==> keep[p] == Kept(pages, p)
    ensures forall p :: 0 <= p < |pages| && pages[p].Chunks? && Listed(pages[p], pages[p].g) ==>
              rags[p] == Scan(pages, pages[p].g, p)
  {
    hide Scan, Listed, IsList, WfPage;
    keep := new bool[|pages|](p requires 0 <= p < |pages| => !pages[p].Free?);
    rags := new Pre[|pages|](_ => Pre(0, 0, 0));
    var g := 10;
    while g > 0
      invariant g <= 10
      invariant forall p, h :: 0 <= p < |pages| && g <= h < 10 && Listed(pages[p], h) ==>
                  rags[p] == Scan(pages, h, p) && keep[p] == Kept(pages, p)
      invariant forall p :: 0 <= p < |pages| && !(exists h :: g <= h < 10 && Listed(pages[p], h)) ==>
          keep[p] == !pages[p].Free?
    {
      g := g - 1;
      var _ := SeekClass(pages, g, lists[g], keep, rags);
      forall p, h | 0 <= p < |pages| && Listed(pages[p], g) && g <= h < 10 && Listed(pages[p], h)
        ensures h == g
      {
        ListedClass(pages[p], g, h);
      }
    }
    forall p | 0 <= p < |pages|
      ensures keep[p] == Kept(pages, p)
    {
      if forall h :: 0 <= h < 10 ==> !Listed(pages[p], h) {
        UnlistedKept(pages, p);
      }
    }
    forall p | 0 <= p < |pages| && pages[p].Chunks?
      ensures 0 <= pages[p].g < 10
    {
      ClassOf(pages[p]);
    }
  }

  lemma UnlistedKept(pages: seq<Page>, p: nat)
    requires Wf(pages) && p < |pages| && forall h :: 0 <= h < 10 ==> !Listed(pages[p], h)
    ensures Kept(pages, p) == !pages[p].Free?
  {
  }

  lemma ClassOf(page: Page)
    requires WfPage(page) && page.Chunks?
    ensures page.g < 10
  {
  }

  /** The whole pass. */
  method Seek(pages: seq<Page>, lists: seq<seq<nat>>) returns (gack: Gack)
    requires Wf(pages) && |lists| == 10 && forall g :: 0 <= g < 10 ==> IsList(pages, g, lists[g])
    ensures Sought(pages, gack)
  {
    hide Kept, Scan, Listed, IsList, WfPage;
    var keep, rags := SeekHunks(pages, lists);
    var pap := MarkPages(keep);
    var pum := PrefixSums(pap[..]);
    var hums := ChunkSums(pages);
    gack := Gack(pap[..], pum, rags[..], hums);
  }

  /** Where a page goes. */
  function RelocatePage(gack: Gack, p: nat): nat
    requires p < 32 * |gack.pap| && |gack.pum| == |gack.pap|
  {
    FastRank(gack.pap, gack.pum, p)
  }

  lemma {:induction false} RankIsKept(pages: seq<Page>, gack: Gack, p: nat)
    requires Wf(pages) && Sought(pages, gack) && p <= |pages|
    ensures Rank(gack.pap, p) == KeptBelow(pages, p)
  {
    hide Kept, Scan, Listed, Wf;
    if p > 0 {
      RankIsKept(pages, gack, p - 1);
    }
  }

  lemma PageIsRank(pages: seq<Page>, gack: Gack, p: nat)
    requires Wf(pages) && Sought(pages, gack) && p < |pages|
    ensures RelocatePage(gack, p) == KeptBelow(pages, p)
  {
    hide Kept, Scan, Listed, Wf;
    FastRankIsRank(gack.pap, gack.pum, p);
    RankIsKept(pages, gack, p);
  }

  /** Where a chunk of a listed page goes. */
  function RelocateHunk(pages: seq<Page>, gack: Gack, p: nat, pos: nat): nat
    requires Wf(pages) && Sought(pages, gack) && p < |pages| && pages[p].Chunks? && Listed(pages[p], pages[p].g)
    requires pos < 32 * |pages[p].hap|
  {
    ScanInv(pages, pages[p].g, p);
    var g, pre, r := pages[p].g, gack.rags[p], FastRank(pages[p].hap, gack.hums[p], pos);
    if r < Hun(g) then RelocatePage(gack, p) * PAGE + r * ChunkLen(g)
    else if r < pre.fre + Hun(g) then RelocatePage(gack, pre.pag) * PAGE + (r + pre.pos) * ChunkLen(g)
    else RelocatePage(gack, p) * PAGE + (r - pre.fre) * ChunkLen(g)
  }

  /** Where an allocation goes. */
  function RelocatePost(pages: seq<Page>, gack: Gack, post: nat): nat
    requires Wf(pages) && Sought(pages, gack) && post / PAGE < |pages|
    requires pages[post / PAGE].Chunks? ==> PosOf(post, pages[post / PAGE].g) < 32 * |pages[post / PAGE].hap|
  {
    var p := post / PAGE;
    match pages[p]
    case Free => RelocatePage(gack, p) * PAGE
    case Head => RelocatePage(gack, p) * PAGE
    case Rest => RelocatePage(gack, p) * PAGE
    case Chunks(g, _) =>
      if Listed(pages[p], g) then RelocateHunk(pages, gack, p, PosOf(post, g))
      else RelocatePage(gack, p) * PAGE + post % PAGE
  }

  lemma BlockPos(pages: seq<Page>, post: nat, size: nat)
    requires Wf(pages) && Block(pages, post, size)
    ensures post / PAGE < |pages|
    ensures var page := pages[post / PAGE]; page.Chunks? ==> PosOf(post, page.g) < 32 * |page.hap|
  {
    hide PosOf, RemOf;
    if pages[post / PAGE].Chunks? {
      ClassShape(pages[post / PAGE].g);
    }
  }

  /** The tables give every allocation its new address. */
  lemma RelocateIsNew(pages: seq<Page>, gack: Gack, post: nat, size: nat)
    requires Wf(pages) && Sought(pages, gack) && Block(pages, post, size)
    ensures post / PAGE < |pages|
    ensures var page := pages[post / PAGE]; page.Chunks? ==> PosOf(post, page.g) < 32 * |page.hap|
    ensures Live(pages, post) && RelocatePost(pages, gack, post) == NewAddr(pages, post)
  {
    BlockPos(pages, post, size);
    BlockLive(pages, post, size, 0);
    if Moves(pages, post) {
      RelocateMoves(pages, gack, post, size);
    } else {
      hide PosOf, RemOf, KeptBelow, Kept, Hun, Tot;
      PlaceStays(pages, post);
      PageIsRank(pages, gack, post / PAGE);
    }
  }

  lemma RelocateMoves(pages: seq<Page>, gack: Gack, post: nat, size: nat)
    requires Wf(pages) && Sought(pages, gack) && Block(pages, post, size) && Moves(pages, post) && Live(pages, post)
    requires PosOf(post, pages[post / PAGE].g) < 32 * |pages[post / PAGE].hap|
    ensures RelocatePost(pages, gack, post) == NewAddr(pages, post)
  {
    var p, g := post / PAGE, pages[post / PAGE].g;
    var i := PosOf(post, g);
    hide *;
    MovingChunk(pages, post, size);
    HunkIsTarget(pages, gack, p, i);
    NewOfChunk(pages, post);
    PostIsHunk(pages, gack, post);
  }

  lemma PostIsHunk(pages: seq<Page>, gack: Gack, post: nat)
    requires Wf(pages) && Sought(pages, gack) && Moves(pages, post)
    requires PosOf(post, pages[post / PAGE].g) < 32 * |pages[post / PAGE].hap|
    ensures var p := post / PAGE; var i := PosOf(post, pages[p].g);
            RelocatePost(pages, gack, post) == RelocateHunk(pages, gack, p, i)
  {
    hide PosOf, Sought, Wf, Listed, RelocateHunk;
  }

  lemma MovingChunk(pages: seq<Page>, post: nat, size: nat)
    requires Wf(pages) && Block(pages, post, size) && Moves(pages, post)
    ensures var p := post / PAGE; var g := pages[p].g;
            p < |pages| && pages[p].Chunks? && Listed(pages[p], g) && g < 10 && Chunk(pages, g, p, PosOf(post, g))
                && RemOf(post, g) == 0
  {
    hide PosOf, RemOf, Rank, Used, Listed, ChunkLen;
  }

  /** Where the chunk of a moving page goes, in terms of plain rank and of the pages
      kept. */
  lemma HunkIs(pages: seq<Page>, gack: Gack, p: nat, i: nat)
    requires Wf(pages) && Sought(pages, gack) && p < |pages| && pages[p].Chunks? && pages[p].g < 10
    requires Chunk(pages, pages[p].g, p, i)
    ensures Listed(pages[p], pages[p].g) && i < 32 * |pages[p].hap| && Hun(pages[p].g) <= Rank(pages[p].hap, i)
    ensures Scan(pages, pages[p].g, p).fre > 0 ==> Scan(pages, pages[p].g, p).pag < p
    ensures var g := pages[p].g; var r, pre := Rank(pages[p].hap, i), Scan(pages, g, p);
            RelocateHunk(pages, gack, p, i) ==
              if r < pre.fre + Hun(g) then KeptBelow(pages, pre.pag) * PAGE + (r + pre.pos) * ChunkLen(g)
              else KeptBelow(pages, p) * PAGE + (r - pre.fre) * ChunkLen(g)
  {
    hide KeptBelow, Kept, Scan, Tot, Hun, ChunkLen, MapLen, FastRank, RelocatePage, Rank, Used, WfPage, BitAt;
    var g := pages[p].g;
    ClassShape(g);
    ScanInv(pages, g, p);
    RankInPage(pages[p], i);
    FastRankIsRank(pages[p].hap, gack.hums[p], i);
    PageIsRank(pages, gack, p);
    if Scan(pages, g, p).fre > 0 {
      PageIsRank(pages, gack, Scan(pages, g, p).pag);
    }
  }

  lemma HunkIsTarget(pages: seq<Page>, gack: Gack, p: nat, i: nat)
    requires Wf(pages) && Sought(pages, gack) && p < |pages| && pages[p].Chunks? && pages[p].g < 10
    requires Chunk(pages, pages[p].g, p, i)
    ensures Listed(pages[p], pages[p].g) && i < 32 * |pages[p].hap|
    ensures var t := Target(pages, pages[p].g, p, i);
            t.pag <= |pages|
            && RelocateHunk(pages, gack, p, i) == KeptBelow(pages, t.pag) * PAGE + t.pos * ChunkLen(pages[p].g)
  {
    hide *;
    HunkIs(pages, gack, p, i);
    TargetIs(pages, pages[p].g, p, i);
  }

  lemma TargetIs(pages: seq<Page>, g: nat, p: nat, i: nat)
    requires Wf(pages) && g < 10 && Chunk(pages, g, p, i)
    ensures i < 32 * |pages[p].hap| && Rank(pages[p].hap, i) >= Hun(g)
    ensures var pre, r := Scan(pages, g, p), Rank(pages[p].hap, i);
            && Target(pages, g, p, i) ==
              if r < pre.fre + Hun(g) then Spot(pre.pag, r + pre.pos)
              else Spot(p, if r < pre.fre then 0 else r - pre.fre)
  {
    hide Scan, Rank, Used, WfPage;
    RankInPage(pages[p], i);
  }

  lemma NewOfChunk(pages: seq<Page>, post: nat)
    requires Wf(pages) && Live(pages, post) && Moves(pages, post) && pages[post / PAGE].g < 10
    requires Chunk(pages, pages[post / PAGE].g, post / PAGE, PosOf(post, pages[post / PAGE].g))
    requires RemOf(post, pages[post / PAGE].g) == 0
    ensures var p, g := post / PAGE, pages[post / PAGE].g;
            var t := Target(pages, g, p, PosOf(post, g));
            t.pag <= |pages| && NewAddr(pages, post) == KeptBelow(pages, t.pag) * PAGE + t.pos * ChunkLen(g)
  {
    PlaceBounds(pages, post);
    hide PosOf, RemOf, KeptBelow, Target, Chunk, Live, Wf, ChunkLen;
  }
}
