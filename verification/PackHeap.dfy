/** What compaction is given: the pages of an allocator's heap, as they are when it
    starts. */
module PackHeap {
  import opened Bits
  import opened PackMap
  import opened PackWords
  import opened Chunks
  import PackMove
  import PageHeap
  import Palloc

  /** `~w`. */
  function Not(w: nat): (n: nat)
    requires w < WORD
    ensures n < WORD
  {
    WORD - 1 - w
  }

  /** The bitmap of the chunks in use, reserved ones with them: what is not free. */
  function Hap(c: Crag): (hap: seq<nat>)
    requires WfCrag(c)
    ensures |hap| == |c.free|
  {
    var hap := seq(|c.free|, k requires 0 <= k < |c.free| => Not(c.free[k]));
    if Tot(c.g) < 32 then (MapSome(c.g); hap[0 := Low(hap[0], Tot(c.g))]) else hap
  }

  lemma MapSome(g: nat)
    requires g < 10
    ensures MapLen(g) > 0 && (Tot(g) < 32 ==> MapLen(g) == 1) && (Tot(g) >= 32 ==> Tot(g) == 32 * MapLen(g))
  {
    TotShape(g);
  }

  lemma {:induction false} OnesLess(n: nat, w: nat, i: nat)
    requires w < Power(n)
    ensures Ones(n) == Power(n) - 1 && (Bit(Ones(n) - w, i) <==> i < n && !Bit(w, i))
  {
    if n == 0 {
      ZeroBit(i);
    } else {
      OnesLess(n - 1, w / 2, if i > 0 then i - 1 else 0);
      assert (Ones(n) - w) / 2 == Ones(n - 1) - w / 2;
    }
  }

  lemma NotAt(w: nat, i: nat)
    requires w < WORD && i < 32
    ensures Bit(Not(w), i) <==> !Bit(w, i)
  {
    PowerWord();
    OnesLess(32, w, i);
  }

  lemma {:induction false} LowAt(w: nat, b: nat, i: nat)
    ensures (Bit(Low(w, b), i) <==> i < b && Bit(w, i)) && Low(w, b) <= w
  {
    if b == 0 {
      ZeroBit(i);
    } else {
      LowAt(w / 2, b - 1, if i > 0 then i - 1 else 0);
    }
  }

  lemma HapAt(c: Crag, i: nat)
    requires WfCrag(c) && i < 32 * |c.free|
    ensures BitAt(Hap(c), i) <==> i < Tot(c.g) && !BitAt(c.free, i)
    ensures IsMap(Hap(c))
  {
    MapSome(c.g);
    hide Bit, Low, Tot, MapLen;
    NotAt(c.free[i / 32], i % 32);
    LowAt(Not(c.free[0]), Tot(c.g), i % 32);
  }

  /** Of the first bits, those in use and those free are all. */
  lemma {:induction false} RankRest(c: Crag, k: nat)
    requires WfCrag(c) && k <= Tot(c.g) && Tot(c.g) <= 32 * |c.free|
    ensures Rank(Hap(c), k) + Rank(c.free, k) == k
  {
    hide Hap, Tot, BitAt;
    if k > 0 {
      RankRest(c, k - 1);
      HapAt(c, k - 1);
    }
  }

  /** A chunk page as compaction sees it: as many chunks are in use as its count of
      free ones leaves. */
  lemma HapIs(c: Crag)
    requires WfCrag(c)
    ensures WfPage(PackMap.Chunks(c.g, Hap(c)))
    ensures Used(PackMap.Chunks(c.g, Hap(c))) == Ful(c.g) - c.fre
  {
    var hap := Hap(c);
    ClassShape(c.g);
    HapPage(c);
    RankRest(c, Tot(c.g));
    RankPast(c.free, Tot(c.g), 32 * |c.free|);
  }

  lemma HapPage(c: Crag)
    requires WfCrag(c)
    ensures WfPage(PackMap.Chunks(c.g, Hap(c)))
  {
    var hap := Hap(c);
    ClassShape(c.g);
    MapSome(c.g);
    forall i | 0 <= i < 32 * |hap|
      ensures BitAt(hap, i) <==> i < Tot(c.g) && !BitAt(c.free, i)
      ensures IsMap(hap)
    {
      HapAt(c, i);
    }
  }

  lemma {:induction false} RankPast(m: seq<nat>, i: nat, j: nat)
    requires i <= j <= 32 * |m| && forall k :: i <= k < j ==> !BitAt(m, k)
    ensures Rank(m, j) == Rank(m, i)
  {
    if i < j {
      RankPast(m, i, j - 1);
    }
  }

  /** A page as compaction sees it. */
  function Paged(kind: PageHeap.Kind, crags: map<nat, Crag>, p: nat): Page
    requires p in crags ==> WfCrag(crags[p])
  {
    match kind
    case Free => PackMap.Free
    case Rest => PackMap.Rest
    case Head => if p in crags then PackMap.Chunks(crags[p].g, Hap(crags[p])) else PackMap.Head
  }

  function Packed(dir: seq<PageHeap.Kind>, crags: map<nat, Crag>): (pages: seq<Page>)
    requires forall p :: p in crags ==> WfCrag(crags[p])
    ensures |pages| == |dir|
    ensures forall p :: 0 <= p < |dir| ==> pages[p] == Paged(dir[p], crags, p)
  {
    seq(|dir|, p requires 0 <= p < |dir| => Paged(dir[p], crags, p))
  }

  /** The pages of a heap. */
  ghost function HeapPages(h: Palloc.Heap): (pages: seq<Page>)
    requires h.Valid()
    reads h, h.pages, h.pages.list, h.hunks
  {
    Packed(h.pages.dir, h.hunks.crags)
  }

  lemma HeapParts(h: Palloc.Heap)
    requires h.Valid()
    ensures forall p :: p in h.hunks.crags ==>
              WfCrag(h.hunks.crags[p]) && h.hunks.crags[p].fre < Ful(h.hunks.crags[p].g)
    ensures forall p :: p in h.hunks.crags ==> p < |h.pages.dir| && h.pages.dir[p].Head?
    ensures |HeapPages(h)| == |h.pages.dir|
    ensures forall p :: 0 <= p < |h.pages.dir| ==> HeapPages(h)[p] == Paged(h.pages.dir[p], h.hunks.crags, p)
  {
    hide PageHeap.Good, PageHeap.Blocked, WfCrag, Ful;
    forall p | p in h.hunks.crags
      ensures p < |h.pages.dir| && h.pages.dir[p].Head?
    {
      Palloc.HeldHead(h.pages, p);
    }
  }

  lemma PageIs(h: Palloc.Heap, p: nat)
    requires h.Valid() && p < |HeapPages(h)|
    ensures var page := HeapPages(h)[p];
            && WfPage(page) && (page.Chunks? ==> Used(page) > 0)
            && (forall g :: 0 <= g < 10 ==> (Listed(page, g) <==> p in h.hunks.wee[g]))
  {
    HeapParts(h);
    WeeIs(h);
    hide Palloc.Heap.Valid, HeapPages, WfPage, Used, Ful, WfCrag, Hap;
    if HeapPages(h)[p].Chunks? {
      HapIs(h.hunks.crags[p]);
    }
  }

  /** A heap that the allocator keeps is one that compaction can be given: its pages
      are well formed and none is empty, and the pages with a free chunk are those on
      the lists, which compaction has only to sort. */
  lemma HeapPacks(h: Palloc.Heap)
    requires h.Valid()
    ensures Wf(HeapPages(h)) && PackMove.NoneEmpty(HeapPages(h)) && |h.hunks.wee| == 10
    ensures forall g, list :: 0 <= g < 10 && Ascending(list) && SameMembers(list, h.hunks.wee[g]) ==>
              IsList(HeapPages(h), g, list)
  {
    hide *;
    WeeIs(h);
    HeapParts(h);
    var pages := HeapPages(h);
    forall p | 0 <= p < |pages|
      ensures WfPage(pages[p]) && (pages[p].Chunks? ==> Used(pages[p]) > 0)
    {
      PageIs(h, p);
    }
    AllWf(pages);
    forall g, list | 0 <= g < 10 && Ascending(list) && SameMembers(list, h.hunks.wee[g])
      ensures IsList(pages, g, list)
    {
      forall p | 0 <= p < |pages|
        ensures Listed(pages[p], g) <==> p in h.hunks.wee[g]
      {
        PageIs(h, p);
      }
      forall p: nat | p in h.hunks.wee[g]
        ensures p < |pages|
      {
        assert p in h.hunks.crags;
      }
      SortedIsList(pages, g, list, h.hunks.wee[g]);
    }
  }

  lemma AllWf(pages: seq<Page>)
    requires forall p :: 0 <= p < |pages| ==> WfPage(pages[p]) && (pages[p].Chunks? ==> Used(pages[p]) > 0)
    ensures Wf(pages) && PackMove.NoneEmpty(pages)
  {
    hide WfPage, Used;
  }

  lemma SortedIsList(pages: seq<Page>, g: nat, list: seq<nat>, wee: seq<nat>)
    requires Wf(pages) && g < 10 && Ascending(list) && SameMembers(list, wee)
    requires forall p :: p in wee ==> p < |pages|
    requires forall p :: 0 <= p < |pages| ==> (Listed(pages[p], g) <==> p in wee)
    ensures IsList(pages, g, list)
  {
    hide WfPage, Listed;
    assert forall k :: 0 <= k < |list| ==> list[k] in list;
  }

  lemma WeeIs(h: Palloc.Heap)
    requires h.Valid()
    ensures |h.hunks.wee| == 10
    ensures forall g, p :: 0 <= g < 10 ==>
              (p in h.hunks.wee[g] <==> p in h.hunks.crags && h.hunks.crags[p].g == g && h.hunks.crags[p].fre > 0)
  {
  }

  ghost predicate SameMembers(a: seq<nat>, b: seq<nat>) {
    forall p :: p in a <==> p in b
  }

  predicate Ascending(list: seq<nat>) {
    forall k, l :: 0 <= k < l < |list| ==> list[k] < list[l]
  }

  /** Every block in use is one that compaction moves as a whole. */
  lemma BlockPacks(h: Palloc.Heap, s: nat, k: nat)
    requires h.Valid() && s in h.Live() && k < h.Live()[s]
    ensures Wf(HeapPages(h)) && Block(HeapPages(h), s, h.Live()[s])
    ensures Live(HeapPages(h), s) && Live(HeapPages(h), s + k)
        && NewAddr(HeapPages(h), s + k) == NewAddr(HeapPages(h), s) + k
  {
    HeapPacks(h);
    BlockThere(h, s);
    BlockLive(HeapPages(h), s, h.Live()[s], k);
  }

  lemma BlockThere(h: Palloc.Heap, s: nat)
    requires h.Valid() && s in h.Live() && Wf(HeapPages(h))
    ensures Block(HeapPages(h), s, h.Live()[s])
  {
    hide *;
    HeapParts(h);
    Palloc.Opens(h);
    Palloc.LiveIs(h);
    Palloc.BlockAt(h.pages.Held(), h.hunks.crags, s);
    Palloc.BlockPage(h.pages.Held(), h.hunks.crags, s);
    Palloc.LengthIs(h.pages.Held(), h.hunks.crags, s);
    var p := s / 4096;
    Palloc.HeldHead(h.pages, p);
    PagedIs(h.pages.dir[p], h.hunks.crags, p);
    if p in h.hunks.crags {
      ChunkThere(HeapPages(h), h.hunks.crags, s);
    } else {
      RestPaged(h.pages.dir, h.hunks.crags, HeapPages(h), p);
      RunThere(HeapPages(h), p, PageHeap.BlockEnd(h.pages.dir, p));
    }
  }

  lemma PagedIs(kind: PageHeap.Kind, crags: map<nat, Crag>, p: nat)
    requires (p in crags ==> WfCrag(crags[p])) && kind.Head?
    ensures Paged(kind, crags, p) == if p in crags then PackMap.Chunks(crags[p].g, Hap(crags[p])) else PackMap.Head
  {
  }

  lemma RestPaged(dir: seq<PageHeap.Kind>, crags: map<nat, Crag>, pages: seq<Page>, p: nat)
    requires p < |dir| == |pages| && forall q :: q in crags ==> WfCrag(crags[q])
    requires forall q :: 0 <= q < |dir| ==> pages[q] == Paged(dir[q], crags, q)
    ensures forall q :: p < q < PageHeap.BlockEnd(dir, p) ==> pages[q].Rest?
  {
    hide WfCrag, Hap;
  }

  lemma ChunkThere(pages: seq<Page>, crags: map<nat, Crag>, s: nat)
    requires Wf(pages) && s / 4096 < |pages| && s / 4096 in crags
    requires var p := s / 4096; var c := crags[p];
             && WfCrag(c) && pages[p] == PackMap.Chunks(c.g, Hap(c))
             && Taken(crags, p, PosOf(s, c.g)) && RemOf(s, c.g) == 0
    ensures Block(pages, s, ChunkLen(crags[s / 4096].g))
  {
    hide WfPage, Hap, RemOf, PosOf, WfCrag, Taken, Rank, Tot, Hun, MapLen, BitAt, ChunkLen;
    var c := crags[s / 4096];
    TakenIs(crags, s / 4096, PosOf(s, c.g));
    ClassShape(c.g);
    HapAt(c, PosOf(s, c.g));
  }

  lemma RunThere(pages: seq<Page>, p: nat, end: nat)
    requires Wf(pages) && p < end <= |pages| && pages[p].Head? && forall q :: p < q < end ==> pages[q].Rest?
    ensures Block(pages, p * 4096, (end - p) * 4096)
  {
    hide WfPage;
    assert p * 4096 / 4096 == p;
  }
}
