/** The last pass of compaction: pages in ascending order, each copied down over
    what has already been copied away. */
module PackMove {
  import opened Bits
  import opened PackMap
  import opened PackWords
  import opened PackSeek
  import opened PackReloc

  /** The first word of a page. */
  function PageStart(p: nat): nat {
    p * PAGE
  }

  lemma PageNext(p: nat)
    ensures PageStart(p + 1) == PageStart(p) + PAGE && PAGE == 4096
  {
  }

  /** Live words below `hi` have arrived; everything from `hi` on is as it was. */
  ghost predicate Moved(pages: seq<Page>, from: seq<nat>, to: seq<nat>, hi: nat)
    requires Wf(pages)
  {
    && |to| == |from| >= HeapEnd(pages)
    && (forall a :: 0 <= a < hi && Live(pages, a) ==>
        (NewDown(pages, a); LiveInHeap(pages, a); to[NewAddr(pages, a)] == from[a]))
    && (forall b :: hi <= b < |from| ==> to[b] == from[b])
  }

  ghost predicate MovedTo(pages: seq<Page>, from: seq<nat>, mem: array<nat>, hi: nat)
    requires Wf(pages)
    reads mem
  {
    Moved(pages, from, mem[..], hi)
  }

  lemma LiveInHeap(pages: seq<Page>, a: nat)
    requires Wf(pages) && Live(pages, a)
    ensures a < HeapEnd(pages)
  {
    assert a == a / PAGE * PAGE + a % PAGE;
  }

  /** Words that are dead, or stay where they are, need no copying. */
  lemma MovedPast(pages: seq<Page>, from: seq<nat>, to: seq<nat>, lo: nat, hi: nat)
    requires Wf(pages) && Moved(pages, from, to, lo) && lo <= hi
    requires forall a :: lo <= a < hi && Live(pages, a) ==> NewAddr(pages, a) == a
    ensures Moved(pages, from, to, hi)
  {
    hide Live, NewAddr, Wf;
    forall a | 0 <= a < hi && Live(pages, a)
      ensures NewAddr(pages, a) < |to|
    {
      NewDown(pages, a);
      LiveInHeap(pages, a);
    }
  }

  /** Copying a run of live words down to where they go overwrites no word that
      has arrived, and none that is yet to be copied. */
  lemma MovedRun(pages: seq<Page>, from: seq<nat>, was: seq<nat>, to: seq<nat>, src: nat, dst: nat, len: nat)
    requires Wf(pages) && Moved(pages, from, was, src) && dst + len <= src && src + len <= |from| == |to|
    requires forall a :: src <= a < src + len ==> Live(pages, a) && NewAddr(pages, a) == dst + (a - src)
    requires forall b :: dst <= b < dst + len ==> to[b] == was[b - dst + src]
    requires forall b :: 0 <= b < |to| && !(dst <= b < dst + len) ==> to[b] == was[b]
    ensures Moved(pages, from, to, src + len)
  {
    hide Live, NewAddr, Wf;
    forall a | 0 <= a < src + len && Live(pages, a)
      ensures NewAddr(pages, a) < |to| && to[NewAddr(pages, a)] == from[a]
    {
      NewDown(pages, a);
      LiveInHeap(pages, a);
      var n := NewAddr(pages, a);
      if a < src {
        if dst <= n < dst + len {
          NewInjective(pages, a, src + (n - dst));
        }
      }
    }
  }

  /** A copy between regions that do not overlap. */
  method Copy(mem: array<nat>, dst: nat, src: nat, len: nat)
    requires dst + len <= src && src + len <= mem.Length
    modifies mem
    ensures forall b :: 0 <= b < mem.Length ==>
        mem[b] == old(if dst <= b < dst + len then mem[b - dst + src] else mem[b])
  {
    for k := 0 to len
      invariant forall b :: 0 <= b < mem.Length ==>
          mem[b] == old(if dst <= b < dst + k then mem[b - dst + src] else mem[b])
    {
      mem[dst + k] := mem[src + k];
    }
  }

  method MoveRun(pages: seq<Page>, ghost from: seq<nat>, mem: array<nat>, dst: nat, src: nat, len: nat)
    requires Wf(pages) && MovedTo(pages, from, mem, src) && dst + len <= src && src + len <= mem.Length
    requires forall a :: src <= a < src + len ==> Live(pages, a) && NewAddr(pages, a) == dst + (a - src)
    modifies mem
    ensures MovedTo(pages, from, mem, src + len)
  {
    hide Live, NewAddr, Wf, Moved;
    ghost var was := mem[..];
    assert |from| == mem.Length by { MovedLength(pages, from, was, src); }
    Copy(mem, dst, src, len);
    MovedRun(pages, from, was, mem[..], src, dst, len);
  }

  lemma MovedLength(pages: seq<Page>, from: seq<nat>, to: seq<nat>, hi: nat)
    requires Wf(pages) && Moved(pages, from, to, hi)
    ensures |to| == |from| >= HeapEnd(pages)
  {
  }

  /** The first word of a chunk. */
  function ChunkStart(p: nat, g: nat, pos: nat): nat {
    PageStart(p) + InChunk(pos, g, 0)
  }

  lemma ChunkNext(p: nat, g: nat, pos: nat)
    ensures ChunkStart(p, g, pos + 1) == ChunkStart(p, g, pos) + ChunkLen(g)
  {
    hide ChunkLen;
    var len := ChunkLen(g);
    assert (pos + 1) * len == pos * len + len;
  }

  lemma ChunkWithin(p: nat, g: nat, pos: nat)
    requires g < 10 && pos <= Tot(g)
    ensures PageStart(p) <= ChunkStart(p, g, pos) <= ChunkStart(p, g, Tot(g)) == PageStart(p + 1)
    ensures pos < Tot(g) ==> ChunkStart(p, g, pos) + ChunkLen(g) <= PageStart(p + 1)
  {
    ClassShape(g);
    hide ChunkLen, Tot;
    var len, tot := ChunkLen(g), Tot(g);
    assert pos * len <= tot * len;
    assert pos < tot ==> (pos + 1) * len <= tot * len;
  }

  /** The words of a chunk and the page and position they are found at. */
  lemma ChunkWord(p: nat, g: nat, pos: nat, k: nat)
    requires g < 10 && pos < Tot(g) && k < ChunkLen(g)
    ensures var a := ChunkStart(p, g, pos) + k; a / PAGE == p && PosOf(a, g) == pos && RemOf(a, g) == k
  {
    ClassShape(g);
    var len := ChunkLen(g);
    OffsetInPage(pos, k, len, Tot(g));
    var a := ChunkStart(p, g, pos) + k;
    assert a % PAGE == pos * len + k && a / PAGE == p;
    WordSplit(a, g);
    OffsetSplit(pos, k, PosOf(a, g), RemOf(a, g), len);
  }

  /** A chunk that is not in use has no live word. */
  lemma ChunkDead(pages: seq<Page>, p: nat, g: nat, pos: nat)
    requires Wf(pages) && g < 10 && p < |pages| && Listed(pages[p], g) && pos < Tot(g) && !Chunk(pages, g, p, pos)
    ensures forall a :: ChunkStart(p, g, pos) <= a < ChunkStart(p, g, pos) + ChunkLen(g) ==> !Live(pages, a)
  {
    hide Tot, Hun, ChunkLen, InChunk, PosOf, RemOf, Chunk;
    forall a | ChunkStart(p, g, pos) <= a < ChunkStart(p, g, pos) + ChunkLen(g)
      ensures !Live(pages, a)
    {
      ChunkWord(p, g, pos, a - ChunkStart(p, g, pos));
    }
  }

  lemma ChunkBlock(pages: seq<Page>, p: nat, g: nat, pos: nat)
    requires Wf(pages) && g < 10 && Chunk(pages, g, p, pos)
    ensures Block(pages, ChunkStart(p, g, pos), ChunkLen(g)) && Moves(pages, ChunkStart(p, g, pos))
  {
    hide Tot, Hun, ChunkLen, InChunk, PosOf, RemOf;
    ChunkWord(p, g, pos, 0);
  }

  /** The new address of a chunk in use: its own, or wholly below. */
  lemma ChunkGoes(pages: seq<Page>, p: nat, g: nat, pos: nat)
    requires Wf(pages) && g < 10 && Chunk(pages, g, p, pos) && Live(pages, ChunkStart(p, g, pos))
    ensures var t, src := Target(pages, g, p, pos), ChunkStart(p, g, pos);
            && t.pag <= |pages|
            && NewAddr(pages, src) == ChunkStart(KeptBelow(pages, t.pag), g, t.pos)
            && (NewAddr(pages, src) == src || NewAddr(pages, src) + ChunkLen(g) <= src)
  {
    hide Tot, Hun, ChunkLen, PosOf, RemOf, Chunk, Target, Kept, KeptBelow, Place, Live, Moves, Block, Wf, Listed,
        InChunk;
    var src, t := ChunkStart(p, g, pos), Target(pages, g, p, pos);
    ChunkInPage(pages, p, g, pos);
    ChunkWord(p, g, pos, 0);
    ChunkBlock(pages, p, g, pos);
    var _, _, _, _ := PlaceMoves(pages, src);
    ChunkPage(pages, g, p, pos);
    KeptMono(pages, 0, t.pag);
    KeptNone(pages);
    ChunkOrder(p, g, pos, KeptBelow(pages, t.pag), t.pos);
  }

  lemma ChunkInPage(pages: seq<Page>, p: nat, g: nat, pos: nat)
    requires Wf(pages) && g < 10 && Chunk(pages, g, p, pos)
    ensures p < |pages| && pages[p].Chunks? && pages[p].g == g && pos < Tot(g)
    ensures Target(pages, g, p, pos).pag <= p && Target(pages, g, p, pos).pos < Tot(g)
    ensures Target(pages, g, p, pos).pag == p ==> Target(pages, g, p, pos).pos <= pos
  {
    hide Tot, Hun, ChunkLen, Target, Used;
    TargetBounds(pages, g, p, pos);
  }

  lemma ChunkOrder(p: nat, g: nat, pos: nat, q: nat, at: nat)
    requires g < 10 && pos < Tot(g) && at < Tot(g) && (q < p || (q == p && at <= pos))
    ensures ChunkStart(q, g, at) == ChunkStart(p, g, pos) || ChunkStart(q, g, at) + ChunkLen(g) <= ChunkStart(p, g, pos)
    ensures q < p || at < pos ==> ChunkStart(q, g, at) < ChunkStart(p, g, pos)
  {
    hide ChunkLen, Tot;
    ChunkWithin(q, g, at);
    ChunkWithin(p, g, pos);
    if q == p && at < pos {
      assert (at + 1) * ChunkLen(g) <= pos * ChunkLen(g);
    } else if q < p {
      assert PageStart(q + 1) <= PageStart(p);
    }
  }

  lemma ChunkWords(pages: seq<Page>, p: nat, g: nat, pos: nat)
    requires Wf(pages) && g < 10 && Chunk(pages, g, p, pos)
    ensures var src := ChunkStart(p, g, pos);
            && Live(pages, src)
            && forall a :: src <= a < src + ChunkLen(g) ==>
                Live(pages, a) && NewAddr(pages, a) == NewAddr(pages, src) + (a - src)
  {
    hide *;
    var src := ChunkStart(p, g, pos);
    ChunkBlock(pages, p, g, pos);
    BlockLive(pages, src, ChunkLen(g), 0);
    forall a | src <= a < src + ChunkLen(g)
      ensures Live(pages, a) && NewAddr(pages, a) == NewAddr(pages, src) + (a - src)
    {
      BlockLive(pages, src, ChunkLen(g), a - src);
    }
  }

  /** Copy one chunk in use to where it goes. */
  method MoveChunk(pages: seq<Page>, ghost from: seq<nat>, mem: array<nat>, ghost p: nat, g: nat, ghost pos: nat,
        dst: nat, src: nat)
    requires Wf(pages) && g < 10 && Chunk(pages, g, p, pos) && src == ChunkStart(p, g, pos) && dst != src
    requires MovedTo(pages, from, mem, src)
    requires var t := Target(pages, g, p, pos); t.pag <= |pages| && dst == ChunkStart(KeptBelow(pages, t.pag), g, t.pos)
    modifies mem
    ensures MovedTo(pages, from, mem, ChunkStart(p, g, pos + 1))
  {
    hide Live, NewAddr, Wf, Moved, Chunk, Target, ChunkStart, ChunkLen;
    ChunkWords(pages, p, g, pos);
    ChunkGoes(pages, p, g, pos);
    ChunkNext(p, g, pos);
    LiveInHeap(pages, src + ChunkLen(g) - 1);
    assert mem.Length == |from| >= HeapEnd(pages) by { MovedLength(pages, from, mem[..], src); }
    MoveRun(pages, from, mem, dst, src, ChunkLen(g));
  }

  /** A chunk that is not in use is passed over. */
  lemma PassChunk(pages: seq<Page>, from: seq<nat>, mem: array<nat>, p: nat, g: nat, pos: nat)
    requires Wf(pages) && g < 10 && p < |pages| && Listed(pages[p], g) && pos < Tot(g) && !Chunk(pages, g, p, pos)
    requires MovedTo(pages, from, mem, ChunkStart(p, g, pos))
    ensures MovedTo(pages, from, mem, ChunkStart(p, g, pos + 1))
  {
    hide Live, NewAddr, Wf, Moved, Chunk, ChunkStart, ChunkLen, Tot, Listed;
    ChunkDead(pages, p, g, pos);
    ChunkNext(p, g, pos);
    MovedPast(pages, from, mem[..], ChunkStart(p, g, pos), ChunkStart(p, g, pos + 1));
  }

  /** The chunks that hold metadata are passed over. */
  lemma {:induction false} PassMetadata(pages: seq<Page>, from: seq<nat>, mem: array<nat>, p: nat, g: nat, pos: nat)
    requires Wf(pages) && g < 10 && p < |pages| && Listed(pages[p], g) && pos <= Hun(g)
    requires MovedTo(pages, from, mem, PageStart(p))
    ensures MovedTo(pages, from, mem, ChunkStart(p, g, pos))
  {
    hide Live, NewAddr, Wf, Moved, ChunkLen, Tot, Hun, Listed;
    if pos > 0 {
      PassMetadata(pages, from, mem, p, g, pos - 1);
      ClassShape(g);
      PassChunk(pages, from, mem, p, g, pos - 1);
    }
  }

  /** What is known of position `pos` of a listed page. */
  lemma AtChunk(pages: seq<Page>, p: nat, g: nat, pos: nat)
    requires Wf(pages) && g < 10 && p < |pages| && Listed(pages[p], g) && Hun(g) <= pos < Tot(g)
    ensures pages[p].Chunks? && Tot(g) <= 32 * |pages[p].hap| && pos < 32 * |pages[p].hap|
    ensures Chunk(pages, g, p, pos) <==> BitAt(pages[p].hap, pos)
    ensures Rank(pages[p].hap, pos + 1) == Rank(pages[p].hap, pos) + (if BitAt(pages[p].hap, pos) then 1 else 0)
    ensures Hun(g) <= Rank(pages[p].hap, pos) <= pos
    ensures BitAt(pages[p].hap, pos) ==>
        var t, r, pre := Target(pages, g, p, pos), Rank(pages[p].hap, pos), Scan(pages, g, p);
              t == if r < pre.fre + Hun(g) then Spot(pre.pag, r + pre.pos) else Spot(p, r - pre.fre)
  {
    ClassShape(g);
    hide Tot, ChunkLen, MapLen, Scan, Used;
    ReservedRank(pages[p].hap, Hun(g), Hun(g));
    RankMono(pages[p].hap, Hun(g), pos);
    RankMono(pages[p].hap, 0, pos);
  }

  /** The whole of a listed page. */
  lemma PageShape(pages: seq<Page>, p: nat, g: nat)
    requires Wf(pages) && g < 10 && p < |pages| && Listed(pages[p], g)
    ensures pages[p].Chunks? && pages[p].g == g && Hun(g) < Tot(g) <= 32 * |pages[p].hap|
    ensures Rank(pages[p].hap, Hun(g)) == Hun(g) && Rank(pages[p].hap, Tot(g)) == Hun(g) + Used(pages[p])
    ensures Kept(pages, p) <==> Used(pages[p]) > Scan(pages, g, p).fre
    ensures Rank(pages[p].hap, Tot(g)) < Tot(g)
    ensures Scan(pages, g, p).fre > 0 ==> Scan(pages, g, p).pag < p
  {
    ClassShape(g);
    hide Tot, ChunkLen, MapLen, Scan;
    ScanInv(pages, g, p);
    ReservedRank(pages[p].hap, Hun(g), Hun(g));
    RankMono(pages[p].hap, Hun(g), Tot(g));
  }

  /** Look at one position while the page before has room. */
  method FillStep(pages: seq<Page>, ghost from: seq<nat>, mem: array<nat>, ghost p: nat, g: nat, hap: seq<nat>,
        pos: nat, dst: nat, src: nat)
    returns (used: bool)
    requires Wf(pages) && g < 10 && p < |pages| && Listed(pages[p], g) && pages[p].Chunks? && hap == pages[p].hap
    requires Hun(g) <= pos < Tot(g) <= 32 * |hap| && src == ChunkStart(p, g, pos) && MovedTo(pages, from, mem, src)
    requires var pre := Scan(pages, g, p);
             && pre.pag < p && Rank(hap, pos) < pre.fre + Hun(g)
             && dst == ChunkStart(KeptBelow(pages, pre.pag), g, Rank(hap, pos) + pre.pos)
    modifies mem
    ensures MovedTo(pages, from, mem, ChunkStart(p, g, pos + 1))
    ensures used == BitAt(hap, pos) && Rank(hap, pos + 1) == Rank(hap, pos) + (if used then 1 else 0)
  {
    hide *;
    AtChunk(pages, p, g, pos);
    used := BitAt(hap, pos);
    if used {
      DstBelow(pages, p, g, pos, dst);
      MoveChunk(pages, from, mem, p, g, pos, dst, src);
    } else {
      PassChunk(pages, from, mem, p, g, pos);
    }
  }

  /** Move the first chunks of a page to the page before it that has room. */
  method FillPrevious(pages: seq<Page>, gack: Gack, ghost from: seq<nat>, mem: array<nat>, p: nat, g: nat,
        hap: seq<nat>)
    returns (pos: nat, src: nat, fre: nat)
    requires Wf(pages) && Sought(pages, gack) && g < 10 && p < |pages| && Listed(pages[p], g)
    requires pages[p].Chunks? && hap == pages[p].hap && Hun(g) < Tot(g) <= 32 * |hap|
    requires Scan(pages, g, p).fre > 0 && MovedTo(pages, from, mem, ChunkStart(p, g, Hun(g)))
    modifies mem
    ensures Hun(g) <= pos <= Tot(g) && src == ChunkStart(p, g, pos) && MovedTo(pages, from, mem, src)
    ensures fre + Rank(hap, pos) == Scan(pages, g, p).fre + Hun(g) && (fre == 0 || pos == Tot(g))
  {
    hide *;
    PageShape(pages, p, g);
    SoughtPre(pages, gack, p, g);
    var pre := gack.rags[p];
    PageIsRank(pages, gack, pre.pag);
    var newer := RelocatePage(gack, pre.pag);
    fre := pre.fre;
    pos := Hun(g);
    src := ChunkStart(p, g, pos);
    var dst := ChunkStart(newer, g, pos + pre.pos);
    while pos < Tot(g) && fre > 0
      invariant Hun(g) <= pos <= Tot(g) && src == ChunkStart(p, g, pos) && MovedTo(pages, from, mem, src)
      invariant fre + Rank(hap, pos) == pre.fre + Hun(g)
      invariant dst == ChunkStart(newer, g, Rank(hap, pos) + pre.pos)
    {
      ChunkNext(p, g, pos);
      ChunkNext(newer, g, Rank(hap, pos) + pre.pos);
      var used := FillStep(pages, from, mem, p, g, hap, pos, dst, src);
      if used {
        fre := fre - 1;
        dst := dst + ChunkLen(g);
      }
      pos := pos + 1;
      src := src + ChunkLen(g);
    }
  }

  /** Pass over free chunks. */
  method SkipFree(pages: seq<Page>, ghost from: seq<nat>, mem: array<nat>, ghost p: nat, g: nat, hap: seq<nat>,
        pos0: nat, src0: nat)
    returns (pos: nat, src: nat)
    requires Wf(pages) && g < 10 && p < |pages| && Listed(pages[p], g)
    requires pages[p].Chunks? && hap == pages[p].hap && Tot(g) <= 32 * |hap|
    requires Hun(g) <= pos0 <= Tot(g) && src0 == ChunkStart(p, g, pos0) && MovedTo(pages, from, mem, src0)
    ensures pos0 <= pos <= Tot(g) && src == ChunkStart(p, g, pos) && MovedTo(pages, from, mem, src)
    ensures Rank(hap, pos) == Rank(hap, pos0) && (pos < Tot(g) ==> BitAt(hap, pos))
  {
    hide *;
    pos, src := pos0, src0;
    while pos < Tot(g) && !BitAt(hap, pos)
      invariant pos0 <= pos <= Tot(g) && src == ChunkStart(p, g, pos) && MovedTo(pages, from, mem, src)
      invariant Rank(hap, pos) == Rank(hap, pos0)
    {
      AtChunk(pages, p, g, pos);
      ChunkNext(p, g, pos);
      PassChunk(pages, from, mem, p, g, pos);
      pos := pos + 1;
      src := src + ChunkLen(g);
    }
  }

  /** Fill the page before, then find the next chunk in use, if any. */
  method MoveOut(pages: seq<Page>, gack: Gack, ghost from: seq<nat>, mem: array<nat>, p: nat, g: nat, hap: seq<nat>)
        returns (pos: nat, src: nat)
    requires Wf(pages) && Sought(pages, gack) && g < 10 && p < |pages| && Listed(pages[p], g)
    requires pages[p].Chunks? && hap == pages[p].hap && Hun(g) < Tot(g) <= 32 * |hap|
    requires Scan(pages, g, p).fre > 0 && MovedTo(pages, from, mem, ChunkStart(p, g, Hun(g)))
    modifies mem
    ensures Hun(g) <= pos <= Tot(g) && src == ChunkStart(p, g, pos) && MovedTo(pages, from, mem, src)
    ensures pos < Tot(g) <==> Kept(pages, p)
    ensures pos < Tot(g) ==> Rank(hap, pos) == Hun(g) + Scan(pages, g, p).fre
  {
    hide *;
    PageShape(pages, p, g);
    var fre;
    pos, src, fre := FillPrevious(pages, gack, from, mem, p, g, hap);
    pos, src := SkipFree(pages, from, mem, p, g, hap, pos, src);
    if pos < Tot(g) {
      RankMono(hap, pos, Tot(g));
    }
  }

  lemma SoughtPre(pages: seq<Page>, gack: Gack, p: nat, g: nat)
    requires Wf(pages) && Sought(pages, gack) && g < 10 && p < |pages| && Listed(pages[p], g)
    ensures |gack.rags| == |pages| && gack.rags[p] == Scan(pages, g, p)
    ensures |gack.pum| == |gack.pap| && |pages| <= 32 * |gack.pap|
    ensures Scan(pages, g, p).pag <= p
  {
    ScanPage(pages, g, p);
    hide Scan;
  }

  lemma {:induction false} ScanPage(pages: seq<Page>, g: nat, p: nat)
    requires Wf(pages) && g < 10 && p <= |pages|
    ensures Scan(pages, g, p).pag <= p
  {
    hide Used, Hun, Tot;
    if p > 0 {
      ScanPage(pages, g, p - 1);
    }
  }

  /** A chunk that fills an earlier page moves down. */
  lemma DstBelow(pages: seq<Page>, p: nat, g: nat, pos: nat, dst: nat)
    requires Wf(pages) && g < 10 && Chunk(pages, g, p, pos) && Target(pages, g, p, pos).pag < p
    requires p <= |pages|
        && dst == ChunkStart(KeptBelow(pages, Target(pages, g, p, pos).pag), g, Target(pages, g, p, pos).pos)
    ensures dst < ChunkStart(p, g, pos)
  {
    hide *;
    var t := Target(pages, g, p, pos);
    ChunkInPage(pages, p, g, pos);
    KeptMono(pages, 0, t.pag);
    KeptNone(pages);
    ChunkOrder(p, g, pos, KeptBelow(pages, t.pag), t.pos);
  }

  /** Pass over the chunks in use at the start of a page that stays in place. */
  method SkipSettled(pages: seq<Page>, ghost from: seq<nat>, mem: array<nat>, ghost p: nat, g: nat, hap: seq<nat>,
        src0: nat)
    returns (pos: nat, src: nat)
    requires Wf(pages) && g < 10 && p < |pages| && Listed(pages[p], g)
    requires pages[p].Chunks? && hap == pages[p].hap && Hun(g) < Tot(g) <= 32 * |hap|
    requires Scan(pages, g, p).fre == 0 && KeptBelow(pages, p) == p
    requires src0 == ChunkStart(p, g, Hun(g)) && MovedTo(pages, from, mem, src0)
    ensures Hun(g) <= pos < Tot(g) && src == ChunkStart(p, g, pos) && MovedTo(pages, from, mem, src)
    ensures Rank(hap, pos) == pos && !BitAt(hap, pos)
  {
    hide *;
    PageShape(pages, p, g);
    pos, src := Hun(g), src0;
    while pos < Tot(g) && BitAt(hap, pos)
      invariant Hun(g) <= pos <= Tot(g) && src == ChunkStart(p, g, pos) && MovedTo(pages, from, mem, src)
      invariant Rank(hap, pos) == pos
    {
      AtChunk(pages, p, g, pos);
      PassSettled(pages, from, mem, p, g, pos);
      ChunkNext(p, g, pos);
      pos := pos + 1;
      src := src + ChunkLen(g);
    }
  }

  lemma PassSettled(pages: seq<Page>, from: seq<nat>, mem: array<nat>, p: nat, g: nat, pos: nat)
    requires Wf(pages) && g < 10 && p <= |pages| && Chunk(pages, g, p, pos) && Target(pages, g, p, pos) == Spot(p, pos)
    requires KeptBelow(pages, p) == p
    requires MovedTo(pages, from, mem, ChunkStart(p, g, pos))
    ensures MovedTo(pages, from, mem, ChunkStart(p, g, pos + 1))
  {
    hide *;
    ChunkWords(pages, p, g, pos);
    ChunkGoes(pages, p, g, pos);
    ChunkNext(p, g, pos);
    MovedToSeq(pages, from, mem, ChunkStart(p, g, pos));
    MovedPast(pages, from, mem[..], ChunkStart(p, g, pos), ChunkStart(p, g, pos + 1));
    MovedToSeq(pages, from, mem, ChunkStart(p, g, pos + 1));
  }

  lemma MovedToSeq(pages: seq<Page>, from: seq<nat>, mem: array<nat>, hi: nat)
    requires Wf(pages)
    ensures MovedTo(pages, from, mem, hi) <==> Moved(pages, from, mem[..], hi)
  {
  }

  /** Look at one position of a page that is kept. */
  method RestStep(pages: seq<Page>, ghost from: seq<nat>, mem: array<nat>, ghost p: nat, g: nat, hap: seq<nat>,
        pos: nat, dst: nat, src: nat)
    returns (used: bool)
    requires Wf(pages) && g < 10 && p < |pages| && Listed(pages[p], g) && pages[p].Chunks? && hap == pages[p].hap
    requires Hun(g) <= pos < Tot(g) <= 32 * |hap| && src == ChunkStart(p, g, pos) && MovedTo(pages, from, mem, src)
    requires var fre := Scan(pages, g, p).fre;
             && fre + Hun(g) <= Rank(hap, pos) && dst == ChunkStart(KeptBelow(pages, p), g, Rank(hap, pos) - fre)
             && (KeptBelow(pages, p) < p || Rank(hap, pos) - fre < pos)
    modifies mem
    ensures MovedTo(pages, from, mem, ChunkStart(p, g, pos + 1))
    ensures used == BitAt(hap, pos) && Rank(hap, pos + 1) == Rank(hap, pos) + (if used then 1 else 0)
  {
    hide *;
    AtChunk(pages, p, g, pos);
    used := BitAt(hap, pos);
    if used {
      DstWithin(pages, p, g, pos, dst);
      MoveChunk(pages, from, mem, p, g, pos, dst, src);
    } else {
      PassChunk(pages, from, mem, p, g, pos);
    }
  }

  /** A chunk that stays in its page moves down if the page or its position does. */
  lemma DstWithin(pages: seq<Page>, p: nat, g: nat, pos: nat, dst: nat)
    requires Wf(pages) && g < 10 && Chunk(pages, g, p, pos) && p <= |pages|
    requires var t := Target(pages, g, p, pos);
             && t.pag == p && dst == ChunkStart(KeptBelow(pages, p), g, t.pos)
                 && (KeptBelow(pages, p) < p || t.pos < pos)
    ensures dst < ChunkStart(p, g, pos)
  {
    hide *;
    var t := Target(pages, g, p, pos);
    ChunkInPage(pages, p, g, pos);
    KeptMono(pages, 0, p);
    KeptNone(pages);
    ChunkOrder(p, g, pos, KeptBelow(pages, p), t.pos);
  }

  /** Move what is left of a page to where the page goes. */
  method MoveRest(pages: seq<Page>, ghost from: seq<nat>, mem: array<nat>, ghost p: nat, g: nat, hap: seq<nat>,
        pos0: nat, dst0: nat, src0: nat)
    requires Wf(pages) && g < 10 && p < |pages| && Listed(pages[p], g)
    requires pages[p].Chunks? && hap == pages[p].hap && Hun(g) < Tot(g) <= 32 * |hap|
    requires Hun(g) <= pos0 <= Tot(g) && src0 == ChunkStart(p, g, pos0) && MovedTo(pages, from, mem, src0)
    requires var fre := Scan(pages, g, p).fre;
             && fre + Hun(g) <= Rank(hap, pos0) && dst0 == ChunkStart(KeptBelow(pages, p), g, Rank(hap, pos0) - fre)
             && (KeptBelow(pages, p) < p || Rank(hap, pos0) - fre < pos0)
    modifies mem
    ensures MovedTo(pages, from, mem, PageStart(p + 1))
  {
    hide *;
    ghost var fre := Scan(pages, g, p).fre;
    var pos, dst, src := pos0, dst0, src0;
    while pos < Tot(g)
      invariant pos0 <= pos <= Tot(g) && src == ChunkStart(p, g, pos) && MovedTo(pages, from, mem, src)
      invariant fre + Hun(g) <= Rank(hap, pos) && dst == ChunkStart(KeptBelow(pages, p), g, Rank(hap, pos) - fre)
      invariant KeptBelow(pages, p) < p || Rank(hap, pos) - fre < pos
    {
      ChunkNext(p, g, pos);
      ChunkNext(KeptBelow(pages, p), g, Rank(hap, pos) - fre);
      var used := RestStep(pages, from, mem, p, g, hap, pos, dst, src);
      if used {
        dst := dst + ChunkLen(g);
      }
      pos := pos + 1;
      src := src + ChunkLen(g);
    }
    ChunkWithin(p, g, Tot(g));
  }

  /** Empty pages have been given back, so a listed page has a chunk in use. */
  predicate NoneEmpty(pages: seq<Page>)
    requires Wf(pages)
  {
    forall p :: 0 <= p < |pages| && pages[p].Chunks? ==> Used(pages[p]) > 0
  }

  lemma InUseKept(pages: seq<Page>, p: nat, g: nat)
    requires Wf(pages) && g < 10 && p < |pages| && Listed(pages[p], g) && Scan(pages, g, p).fre == 0 && NoneEmpty(pages)
    ensures Kept(pages, p)
  {
    hide Scan, Used, Tot, Hun;
  }

  /** Move the chunks of a listed page; whether anything of the page remains. */
  method MoveChunks(pages: seq<Page>, gack: Gack, ghost from: seq<nat>, mem: array<nat>, p: nat, g: nat)
        returns (kept: bool)
    requires Wf(pages) && NoneEmpty(pages) && Sought(pages, gack) && g < 10 && p < |pages| && Listed(pages[p], g)
    requires MovedTo(pages, from, mem, PageStart(p))
    modifies mem
    ensures kept == Kept(pages, p) && MovedTo(pages, from, mem, PageStart(p + 1))
  {
    hide *;
    PageShape(pages, p, g);
    SoughtPre(pages, gack, p, g);
    PageIsRank(pages, gack, p);
    PassMetadata(pages, from, mem, p, g, Hun(g));
    var hap, fre, newer := pages[p].hap, gack.rags[p].fre, RelocatePage(gack, p);
    var pos, src := Hun(g), ChunkStart(p, g, Hun(g));
    if fre > 0 {
      pos, src := MoveOut(pages, gack, from, mem, p, g, hap);
      if pos == Tot(g) {
        ChunkWithin(p, g, pos);
        return false;
      }
      RankMono(hap, 0, pos);
      RankZero(hap);
    } else {
      InUseKept(pages, p, g);
    }
    var at := Hun(g);
    if newer == p && pos == Hun(g) {
      RankMono(hap, 0, pos);
      RankZero(hap);
      pos, src := SkipSettled(pages, from, mem, p, g, hap, src);
      at := pos;
      AtChunk(pages, p, g, pos);
      PassChunk(pages, from, mem, p, g, pos);
      ChunkNext(p, g, pos);
      pos, src := pos + 1, src + ChunkLen(g);
    }
    KeptMono(pages, 0, p);
    KeptNone(pages);
    MoveRest(pages, from, mem, p, g, hap, pos, ChunkStart(newer, g, at), src);
    return true;
  }

  lemma RankZero(m: seq<nat>)
    ensures Rank(m, 0) == 0
  {
  }

  /** The directory entries of kept pages below `hi` have moved with their pages. */
  ghost predicate Filed(pages: seq<Page>, was: seq<nat>, dir: seq<nat>, hi: nat)
    requires Wf(pages) && hi <= |pages|
  {
    && |dir| == |was| == |pages|
    && (forall p :: 0 <= p < hi && Kept(pages, p) ==>
        (KeptMono(pages, 0, p); KeptNone(pages); dir[KeptBelow(pages, p)] == was[p]))
    && (forall p :: hi <= p < |pages| ==> dir[p] == was[p])
  }

  lemma FiledNext(pages: seq<Page>, was: seq<nat>, dir: seq<nat>, p: nat)
    requires Wf(pages) && p < |pages| && Filed(pages, was, dir, p) && KeptBelow(pages, p) <= p
    ensures Kept(pages, p) ==> Filed(pages, was, dir[KeptBelow(pages, p) := was[p]], p + 1)
    ensures !Kept(pages, p) ==> Filed(pages, was, dir, p + 1)
    ensures dir[p] == was[p]
  {
    hide Kept, KeptBelow, Wf;
    if Kept(pages, p) {
      var filed := dir[KeptBelow(pages, p) := was[p]];
      forall q | 0 <= q < p && Kept(pages, q)
        ensures 0 <= KeptBelow(pages, q) < |filed| && filed[KeptBelow(pages, q)] == was[q]
      {
        KeptMono(pages, 0, q);
        KeptNone(pages);
        KeptMono(pages, q, p);
      }
    }
  }

  /** A page that moves as a whole, or stays. */
  predicate Solid(pages: seq<Page>, p: nat)
    requires Wf(pages) && p < |pages|
  {
    !pages[p].Free? && (pages[p].Chunks? ==> !Listed(pages[p], pages[p].g))
  }

  lemma SolidWords(pages: seq<Page>, p: nat)
    requires Wf(pages) && p < |pages| && Solid(pages, p)
    ensures Kept(pages, p)
    ensures forall a :: PageStart(p) <= a < PageStart(p + 1) ==>
        Live(pages, a) && NewAddr(pages, a) == PageStart(KeptBelow(pages, p)) + (a - PageStart(p))
  {
    hide Used, KeptBelow;
    forall a | PageStart(p) <= a < PageStart(p + 1)
      ensures Live(pages, a) && NewAddr(pages, a) == PageStart(KeptBelow(pages, p)) + (a - PageStart(p))
    {
      assert a / PAGE == p && a % PAGE == a - PageStart(p);
    }
  }

  lemma FreeWords(pages: seq<Page>, p: nat)
    requires Wf(pages) && p < |pages| && pages[p].Free?
    ensures !Kept(pages, p)
    ensures forall a :: PageStart(p) <= a < PageStart(p + 1) ==> !Live(pages, a)
  {
    assert forall a :: PageStart(p) <= a < PageStart(p + 1) ==> a / PAGE == p;
  }

  lemma NotSolid(pages: seq<Page>, p: nat)
    requires Wf(pages) && p < |pages| && !pages[p].Free? && !Solid(pages, p)
    ensures pages[p].Chunks? && pages[p].g < 10 && Listed(pages[p], pages[p].g)
  {
  }

  lemma NextKept(pages: seq<Page>, p: nat)
    requires Wf(pages) && p < |pages|
    ensures KeptBelow(pages, p + 1) == KeptBelow(pages, p) + (if Kept(pages, p) then 1 else 0)
    ensures KeptBelow(pages, p) <= p
  {
    hide Kept, Wf;
    KeptMono(pages, 0, p);
    KeptNone(pages);
  }

  /** Pass over the pages before the first that is free or is given up. */
  method MoveInPlace(pages: seq<Page>, gack: Gack, ghost from: seq<nat>, mem: array<nat>) returns (p: nat)
    requires Wf(pages) && NoneEmpty(pages) && Sought(pages, gack) && MovedTo(pages, from, mem, PageStart(0))
    modifies mem
    ensures p <= |pages| && KeptBelow(pages, p) == p
    ensures if p < |pages| then !Kept(pages, p) && MovedTo(pages, from, mem, PageStart(p + 1))
        else MovedTo(pages, from, mem, PageStart(p))
  {
    hide *;
    p := 0;
    KeptNone(pages);
    while p < |pages| && !pages[p].Free?
      invariant p <= |pages| && KeptBelow(pages, p) == p
      invariant MovedTo(pages, from, mem, PageStart(p))
    {
      var kept := true;
      if Solid(pages, p) {
        SolidWords(pages, p);
        PassPage(pages, from, mem, p);
      } else {
        NotSolid(pages, p);
        kept := MoveChunks(pages, gack, from, mem, p, pages[p].g);
      }
      if !kept {
        return;
      }
      NextKept(pages, p);
      p := p + 1;
    }
    if p < |pages| {
      FreeWords(pages, p);
      PassPage(pages, from, mem, p);
    }
  }

  lemma FiledShape(pages: seq<Page>, was: seq<nat>, dir: seq<nat>, hi: nat)
    requires Wf(pages) && hi <= |pages| && Filed(pages, was, dir, hi)
    ensures |dir| == |was| == |pages| && (hi < |pages| ==> dir[hi] == was[hi])
  {
  }

  lemma FiledInPlace(pages: seq<Page>, dir: seq<nat>, p: nat)
    requires Wf(pages) && |dir| == |pages| && p <= |pages| && KeptBelow(pages, p) == p
    ensures Filed(pages, dir, dir, p)
  {
    hide Kept, KeptBelow, Wf;
    forall q | 0 <= q < p
      ensures KeptBelow(pages, q) == q
    {
      KeptMono(pages, 0, q);
      KeptNone(pages);
      KeptMono(pages, q, p);
    }
  }

  lemma PassPage(pages: seq<Page>, from: seq<nat>, mem: array<nat>, p: nat)
    requires Wf(pages) && MovedTo(pages, from, mem, PageStart(p))
    requires forall a :: PageStart(p) <= a < PageStart(p + 1) && Live(pages, a) ==> NewAddr(pages, a) == a
    ensures MovedTo(pages, from, mem, PageStart(p + 1))
  {
    hide *;
    PageNext(p);
    MovedToSeq(pages, from, mem, PageStart(p));
    MovedPast(pages, from, mem[..], PageStart(p), PageStart(p + 1));
    MovedToSeq(pages, from, mem, PageStart(p + 1));
  }

  /** Copy a page that moves as a whole. */
  method MovePage(pages: seq<Page>, ghost from: seq<nat>, mem: array<nat>, p: nat, newer: nat)
    requires Wf(pages) && p < |pages| && Solid(pages, p) && newer == KeptBelow(pages, p) < p
        && MovedTo(pages, from, mem, PageStart(p))
    modifies mem
    ensures MovedTo(pages, from, mem, PageStart(p + 1))
  {
    hide *;
    SolidWords(pages, p);
    PageNext(p);
    PageNext(newer);
    PageOrder(newer, p);
    LiveInHeap(pages, PageStart(p) + (PAGE - 1));
    MovedToSeq(pages, from, mem, PageStart(p));
    MovedLength(pages, from, mem[..], PageStart(p));
    MoveRun(pages, from, mem, PageStart(newer), PageStart(p), PAGE);
  }

  lemma PageOrder(q: nat, p: nat)
    requires q < p
    ensures PageStart(q + 1) <= PageStart(p)
  {
  }

  /** Move the pages above the first gap, closing ranks. */
  method MoveDown(pages: seq<Page>, gack: Gack, ghost from: seq<nat>, mem: array<nat>, ghost was: seq<nat>,
        dir: array<nat>, p0: nat)
    returns (len: nat)
    requires Wf(pages) && NoneEmpty(pages) && Sought(pages, gack) && mem != dir
    requires p0 < |pages| && KeptBelow(pages, p0) == p0 && !Kept(pages, p0)
    requires MovedTo(pages, from, mem, PageStart(p0 + 1)) && Filed(pages, was, dir[..], p0)
    modifies mem, dir
    ensures MovedTo(pages, from, mem, PageStart(|pages|)) && Filed(pages, was, dir[..], |pages|)
    ensures len == KeptBelow(pages, |pages|)
  {
    hide *;
    FiledNext(pages, was, dir[..], p0);
    NextKept(pages, p0);
    var p, newer := p0 + 1, p0;
    while p < |pages|
      invariant p <= |pages| && newer == KeptBelow(pages, p) < p
      invariant MovedTo(pages, from, mem, PageStart(p)) && Filed(pages, was, dir[..], p)
    {
      var kept := false;
      if pages[p].Free? {
        FreeWords(pages, p);
        PassPage(pages, from, mem, p);
      } else if Solid(pages, p) {
        SolidWords(pages, p);
        MovePage(pages, from, mem, p, newer);
        kept := true;
      } else {
        NotSolid(pages, p);
        kept := MoveChunks(pages, gack, from, mem, p, pages[p].g);
      }
      NextKept(pages, p);
      FiledShape(pages, was, dir[..], p);
      FiledNext(pages, was, dir[..], p);
      if kept {
        ghost var d := dir[..];
        dir[newer] := dir[p];
        assert dir[..] == d[newer := was[p]];
        newer := newer + 1;
      }
      p := p + 1;
    }
    len := newer;
  }

  /** The whole pass: every live word is at its new address, every kept page's
      directory entry is at its new number, and the new length is the number of
      kept pages. */
  method Move(pages: seq<Page>, gack: Gack, mem: array<nat>, dir: array<nat>) returns (len: nat)
    requires Wf(pages) && NoneEmpty(pages) && Sought(pages, gack) && mem.Length >= HeapEnd(pages)
    requires dir.Length == |pages| && dir != mem
    modifies mem, dir
    ensures Moved(pages, old(mem[..]), mem[..], HeapEnd(pages))
    ensures Filed(pages, old(dir[..]), dir[..], |pages|)
    ensures len == KeptBelow(pages, |pages|)
  {
    hide *;
    ghost var from, was := mem[..], dir[..];
    MovedStart(pages, mem);
    var p := MoveInPlace(pages, gack, from, mem);
    FiledInPlace(pages, dir[..], p);
    if p < |pages| {
      len := MoveDown(pages, gack, from, mem, was, dir, p);
    } else {
      len := p;
    }
    EndIsStart(pages);
    MovedToSeq(pages, from, mem, HeapEnd(pages));
  }

  lemma MovedStart(pages: seq<Page>, mem: array<nat>)
    requires Wf(pages) && mem.Length >= HeapEnd(pages)
    ensures MovedTo(pages, mem[..], mem, PageStart(0))
  {
  }

  lemma EndIsStart(pages: seq<Page>)
    ensures HeapEnd(pages) == PageStart(|pages|)
  {
  }
}
