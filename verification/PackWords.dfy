/** Where compaction moves every word of the heap: the kept pages close ranks, and
    chunks of partly free pages go to their targets. */
module PackWords {
  import opened Bits
  import opened PackMap

  /** How many pages below `p` are kept. */
  function KeptBelow(pages: seq<Page>, p: nat): nat
    requires Wf(pages) && p <= |pages|
  {
    if p == 0 then 0 else KeptBelow(pages, p - 1) + (if Kept(pages, p - 1) then 1 else 0)
  }

  lemma {:induction false} KeptMono(pages: seq<Page>, p: nat, q: nat)
    requires Wf(pages) && p <= q <= |pages|
    ensures KeptBelow(pages, p) <= KeptBelow(pages, q) <= KeptBelow(pages, p) + (q - p)
    ensures p < q && Kept(pages, p) ==> KeptBelow(pages, p) < KeptBelow(pages, q)
    decreases q - p
  {
    hide Kept, Wf;
    if p < q {
      KeptMono(pages, p + 1, q);
    }
  }

  lemma KeptOrder(pages: seq<Page>, p: nat, q: nat)
    requires Wf(pages) && p < |pages| && q < |pages| && Kept(pages, p) && Kept(pages, q)
    ensures p != q ==> KeptBelow(pages, p) != KeptBelow(pages, q)
  {
    hide KeptBelow, Kept, Wf;
    if p < q {
      KeptMono(pages, p, q);
    } else {
      KeptMono(pages, q, p);
    }
  }

  /** The chunk that a word is in, and where. */
  function PosOf(a: nat, g: nat): nat {
    a % PAGE / ChunkLen(g)
  }

  function RemOf(a: nat, g: nat): (r: nat)
    ensures r < ChunkLen(g)
  {
    a % PAGE % ChunkLen(g)
  }

  /** Word `r` of a chunk, as an offset in its page. */
  function InChunk(pos: nat, g: nat, r: nat): nat {
    pos * ChunkLen(g) + r
  }

  lemma WordSplit(a: nat, g: nat)
    ensures a == (a / PAGE) * PAGE + InChunk(PosOf(a, g), g, RemOf(a, g))
  {
    var o, len := a % PAGE, ChunkLen(g);
    hide ChunkLen;
    assert o == o / len * len + o % len;
  }

  /** A word of an allocation. The words of free pages and of free chunks are not
      live; neither are chunks that hold the metadata of a listed page. */
  predicate Live(pages: seq<Page>, a: nat)
    requires Wf(pages)
  {
    && a / PAGE < |pages|
    && match pages[a / PAGE] {
         case Free => false
         case Head => true
         case Rest => true
         case Chunks(g, _) => Listed(pages[a / PAGE], g) ==> Chunk(pages, g, a / PAGE, PosOf(a, g))
       }
  }

  predicate Moves(pages: seq<Page>, a: nat)
    requires Wf(pages)
  {
    a / PAGE < |pages| && pages[a / PAGE].Chunks? && Listed(pages[a / PAGE], pages[a / PAGE].g)
  }

  /** The page, by its old number, and the offset in it that a word goes to. */
  function Place(pages: seq<Page>, a: nat): Spot
    requires Wf(pages) && Live(pages, a)
  {
    if Moves(pages, a) then
      var g := pages[a / PAGE].g;
      var t := Target(pages, g, a / PAGE, PosOf(a, g));
      Spot(t.pag, InChunk(t.pos, g, RemOf(a, g)))
    else Spot(a / PAGE, a % PAGE)
  }

  lemma OffsetInPage(pos: nat, r: nat, len: nat, tot: nat)
    requires pos < tot && r < len && len * tot == PAGE
    ensures pos * len + r < PAGE
  {
    assert (pos + 1) * len <= tot * len;
  }

  lemma OffsetSplit(x: nat, r: nat, y: nat, s: nat, len: nat)
    requires r < len && s < len && x * len + r == y * len + s
    ensures x == y && r == s
  {
    assert x < y ==> (x + 1) * len <= y * len;
    assert y < x ==> (y + 1) * len <= x * len;
  }

  lemma OffsetOrder(x: nat, y: nat, r: nat, len: nat)
    requires x <= y
    ensures x * len + r <= y * len + r
  {
  }

  /** A live word of a listed page, taken apart. */
  lemma PlaceMoves(pages: seq<Page>, a: nat) returns (g: nat, p: nat, i: nat, r: nat)
    requires Wf(pages) && Live(pages, a) && Moves(pages, a)
    ensures g < 10 && p == a / PAGE && p < |pages| && pages[p].Chunks? && pages[p].g == g && r < ChunkLen(g)
    ensures Chunk(pages, g, p, i) && i == PosOf(a, g) && r == RemOf(a, g) && a == p * PAGE + InChunk(i, g, r)
    ensures var t := Target(pages, g, p, i);
            && Place(pages, a) == Spot(t.pag, InChunk(t.pos, g, r)) && Place(pages, a).pos < PAGE
            && t.pag <= p && Listed(pages[t.pag], g) && Kept(pages, t.pag) && (t.pag == p ==> t.pos <= i)
  {
    hide ChunkLen, Tot, Hun, Target, Listed, Kept, PosOf, RemOf;
    p, g := a / PAGE, pages[a / PAGE].g;
    i, r := PosOf(a, g), RemOf(a, g);
    TargetBounds(pages, g, p, i);
    ClassShape(g);
    OffsetInPage(Target(pages, g, p, i).pos, r, ChunkLen(g), Tot(g));
    WordSplit(a, g);
  }

  lemma PlaceStays(pages: seq<Page>, a: nat)
    requires Wf(pages) && Live(pages, a) && !Moves(pages, a)
    ensures a / PAGE < |pages| && Kept(pages, a / PAGE) && Place(pages, a) == Spot(a / PAGE, a % PAGE)
    ensures forall g :: 0 <= g < 10 ==> !Listed(pages[a / PAGE], g)
  {
  }

  lemma PlaceBounds(pages: seq<Page>, a: nat)
    requires Wf(pages) && Live(pages, a)
    ensures var s := Place(pages, a);
            && s.pag <= a / PAGE < |pages| && Kept(pages, s.pag) && s.pos < PAGE
            && (s.pag == a / PAGE ==> s.pos <= a % PAGE)
  {
    hide Place, Live, Moves, Kept, Target, Listed, Chunk, Wf, ChunkLen;
    if Moves(pages, a) {
      var g, p, i, r := PlaceMoves(pages, a);
      var t := Target(pages, g, p, i);
      if t.pag == p {
        OffsetOrder(t.pos, i, r, ChunkLen(g));
      }
    } else {
      PlaceStays(pages, a);
    }
  }

  lemma PlaceInjective(pages: seq<Page>, a: nat, b: nat)
    requires Wf(pages) && Live(pages, a) && Live(pages, b) && Place(pages, a) == Place(pages, b)
    ensures a == b
  {
    hide Place, Live, Moves, Kept, Target, Listed, Chunk, Wf, ChunkLen;
    if Moves(pages, a) && Moves(pages, b) {
      PlaceInjectiveMoves(pages, a, b);
    } else if Moves(pages, a) {
      var g, p, i, r := PlaceMoves(pages, a);
      PlaceStays(pages, b);
    } else if Moves(pages, b) {
      var g, p, i, r := PlaceMoves(pages, b);
      PlaceStays(pages, a);
    } else {
      PlaceStays(pages, a);
      PlaceStays(pages, b);
    }
  }

  lemma ListedClass(page: Page, g: nat, h: nat)
    requires WfPage(page) && Listed(page, g) && Listed(page, h)
    ensures g == h
  {
  }

  lemma PlaceInjectiveMoves(pages: seq<Page>, a: nat, b: nat)
    requires Wf(pages) && Live(pages, a) && Live(pages, b) && Place(pages, a) == Place(pages, b)
    requires Moves(pages, a) && Moves(pages, b)
    ensures a == b
  {
    hide Place, Live, Moves, Kept, Target, Chunk, ChunkLen, Listed, WfPage, Tot, Hun, MapLen;
    var g, p, i, r := PlaceMoves(pages, a);
    var h, q, j, s := PlaceMoves(pages, b);
    ListedClass(pages[Place(pages, a).pag], g, h);
    OffsetSplit(Target(pages, g, p, i).pos, r, Target(pages, g, q, j).pos, s, ChunkLen(g));
    TargetInjective(pages, g, p, i, q, j);
  }

  lemma TargetInjective(pages: seq<Page>, g: nat, p: nat, i: nat, q: nat, j: nat)
    requires Wf(pages) && g < 10 && Chunk(pages, g, p, i) && Chunk(pages, g, q, j)
    requires Target(pages, g, p, i) == Target(pages, g, q, j)
    ensures p == q && i == j
  {
    hide Target, Chunk, Wf;
    if Before(Spot(p, i), Spot(q, j)) {
      TargetOrder(pages, g, p, i, q, j);
    } else if Before(Spot(q, j), Spot(p, i)) {
      TargetOrder(pages, g, q, j, p, i);
    }
  }

  /** The new address of a live word. */
  function NewAddr(pages: seq<Page>, a: nat): nat
    requires Wf(pages) && Live(pages, a)
  {
    PlaceBounds(pages, a);
    KeptBelow(pages, Place(pages, a).pag) * PAGE + Place(pages, a).pos
  }

  /** Words only move down, into the pages that remain. */
  lemma NewDown(pages: seq<Page>, a: nat)
    requires Wf(pages) && Live(pages, a)
    ensures NewAddr(pages, a) <= a && NewAddr(pages, a) < KeptBelow(pages, |pages|) * PAGE
    ensures NewAddr(pages, a) / PAGE <= a / PAGE
  {
    hide Place, Live, Kept, KeptBelow, Wf;
    PlaceBounds(pages, a);
    var s := Place(pages, a);
    KeptMono(pages, 0, s.pag);
    KeptMono(pages, s.pag, |pages|);
    assert KeptBelow(pages, 0) == 0 by { KeptNone(pages); }
    assert a == (a / PAGE) * PAGE + a % PAGE;
  }

  lemma KeptNone(pages: seq<Page>)
    requires Wf(pages)
    ensures KeptBelow(pages, 0) == 0
  {
  }

  /** No two words meet. */
  lemma NewInjective(pages: seq<Page>, a: nat, b: nat)
    requires Wf(pages) && Live(pages, a) && Live(pages, b) && NewAddr(pages, a) == NewAddr(pages, b)
    ensures a == b
  {
    hide Place, Live, Kept, KeptBelow, Wf;
    PlaceBounds(pages, a);
    PlaceBounds(pages, b);
    var s, t := Place(pages, a), Place(pages, b);
    OffsetSplit(KeptBelow(pages, s.pag), s.pos, KeptBelow(pages, t.pag), t.pos, PAGE);
    KeptOrder(pages, s.pag, t.pag);
    PlaceInjective(pages, a, b);
  }

  /** An allocation: a chunk in use, or the start of a run of pages. */
  ghost predicate Block(pages: seq<Page>, post: nat, size: nat)
    requires Wf(pages)
  {
    && post / PAGE < |pages| && size > 0
    && match pages[post / PAGE] {
         case Free => false
         case Rest => false
         case Head =>
           post % PAGE == 0 && forall q :: post / PAGE < q && q * PAGE < post + size ==> q < |pages| && pages[q].Rest?
         case Chunks(g, hap) =>
           RemOf(post, g) == 0 && size <= ChunkLen(g)
           && (ClassShape(g); Hun(g) <= PosOf(post, g) < Tot(g) && BitAt(hap, PosOf(post, g)))
       }
  }

  /** An allocation moves as a whole. */
  lemma BlockLive(pages: seq<Page>, post: nat, size: nat, k: nat)
    requires Wf(pages) && Block(pages, post, size) && k < size
    ensures Live(pages, post) && Live(pages, post + k) && NewAddr(pages, post + k) == NewAddr(pages, post) + k
  {
    if pages[post / PAGE].Head? {
      RunLive(pages, post, size, k);
    } else {
      ChunkLive(pages, post, size, k);
    }
  }

  lemma {:induction false} RunKept(pages: seq<Page>, p: nat, q: nat)
    requires Wf(pages) && p <= q < |pages| && pages[p].Head? && forall r :: p < r <= q ==> pages[r].Rest?
    ensures KeptBelow(pages, q) == KeptBelow(pages, p) + (q - p)
  {
    if p < q {
      RunKept(pages, p, q - 1);
    }
  }

  lemma RunLive(pages: seq<Page>, post: nat, size: nat, k: nat)
    requires Wf(pages) && Block(pages, post, size) && k < size && pages[post / PAGE].Head?
    ensures Live(pages, post) && Live(pages, post + k) && NewAddr(pages, post + k) == NewAddr(pages, post) + k
  {
    hide KeptBelow;
    var p, q := post / PAGE, (post + k) / PAGE;
    assert post + k == q * PAGE + (post + k) % PAGE && p <= q;
    assert forall r :: p < r <= q ==> r * PAGE <= q * PAGE;
    RunKept(pages, p, q);
  }

  lemma SameChunk(post: nat, g: nat, k: nat)
    requires g < 10 && RemOf(post, g) == 0 && PosOf(post, g) < Tot(g) && k < ChunkLen(g)
    ensures (post + k) / PAGE == post / PAGE && PosOf(post + k, g) == PosOf(post, g) && RemOf(post + k, g) == k
  {
    ClassShape(g);
    hide ChunkLen, Tot, Hun, MapLen, PosOf, RemOf;
    var len := ChunkLen(g);
    WordSplit(post, g);
    OffsetInPage(PosOf(post, g), k, len, Tot(g));
    SamePage(post, k, InChunk(PosOf(post, g), g, 0));
    WordSplit(post + k, g);
    OffsetSplit(PosOf(post, g), k, PosOf(post + k, g), RemOf(post + k, g), len);
  }

  lemma SamePage(post: nat, k: nat, o: nat)
    requires post == post / PAGE * PAGE + o && o + k < PAGE
    ensures (post + k) / PAGE == post / PAGE
  {
  }

  lemma ChunkLive(pages: seq<Page>, post: nat, size: nat, k: nat)
    requires Wf(pages) && Block(pages, post, size) && k < size && pages[post / PAGE].Chunks?
    ensures Live(pages, post) && Live(pages, post + k) && NewAddr(pages, post + k) == NewAddr(pages, post) + k
  {
    hide PosOf, RemOf, Kept, KeptBelow, Target, Tot, Hun, ChunkLen;
    SameChunk(post, pages[post / PAGE].g, k);
    SameChunk(post, pages[post / PAGE].g, 0);
    WordSplit(post, pages[post / PAGE].g);
    WordSplit(post + k, pages[post / PAGE].g);
  }

  /** Different allocations do not overlap. */
  lemma BlocksApart(pages: seq<Page>, post: nat, size: nat, k: nat, other: nat, wide: nat, l: nat)
    requires Wf(pages) && Block(pages, post, size) && k < size && Block(pages, other, wide) && l < wide && post != other
    ensures post + k != other + l
  {
    hide PosOf, RemOf, Tot, Hun, ChunkLen;
    var p, q := post / PAGE, other / PAGE;
    if pages[p].Chunks? {
      SameChunk(post, pages[p].g, k);
      WordSplit(post, pages[p].g);
    }
    if pages[q].Chunks? {
      SameChunk(other, pages[q].g, l);
      WordSplit(other, pages[q].g);
    }
  }

  /** Allocations are aligned, before and after. */
  lemma BlockAligned(pages: seq<Page>, post: nat, size: nat)
    requires Wf(pages) && Block(pages, post, size) && Live(pages, post)
    ensures post % 4 == 0 && NewAddr(pages, post) % 4 == 0
  {
    hide PosOf, RemOf, InChunk, Tot, Hun, ChunkLen, Kept, KeptBelow, Place, Live, WfPage, Listed, Chunk;
    var page := pages[post / PAGE];
    if page.Chunks? {
      WordSplit(post, page.g);
      Aligned(PosOf(post, page.g), page.g);
    }
    assert post % 4 == 0;
    if Moves(pages, post) {
      MovesAligned(pages, post, size);
    } else {
      PlaceStays(pages, post);
    }
  }

  lemma MovesAligned(pages: seq<Page>, post: nat, size: nat)
    requires Wf(pages) && Block(pages, post, size) && Live(pages, post) && Moves(pages, post)
    ensures Place(pages, post).pos % 4 == 0
  {
    hide PosOf, RemOf, InChunk, Tot, Hun, ChunkLen, Kept, KeptBelow, Target, Listed, Chunk;
    var page := pages[post / PAGE];
    Aligned(Target(pages, page.g, post / PAGE, PosOf(post, page.g)).pos, page.g);
  }

  lemma Aligned(x: nat, g: nat)
    ensures InChunk(x, g, 0) % 4 == 0
  {
    var len := ChunkLen(g);
    assert x * len == 4 * (x * (len / 4));
  }
}
