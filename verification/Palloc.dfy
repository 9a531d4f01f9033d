/** The allocator: large requests are whole pages, small ones chunks of pages cut up
    for them, and both come from one directory and one free list. The program keeps
    the directory in pages of the heap it is of; here it is apart, which is the same
    for as long as the directory has room for its entries: then no block in use has a
    word that is one (`EntriesOwn`). */
module Palloc {
  import opened Nouns
  import opened PageList
  import opened PageHeap
  import opened Chunks
  import P = PackMap
  import W = PackWords
  import M = PackMove

  /** What the directory says of a page. */
  datatype Entry = Vacant | First | Later | Cut

  /** A block starts at `s`: a page allocation, or a chunk in use. `held` is where each
      page allocation ends, by its first page. */
  predicate IsBlock(held: map<nat, nat>, crags: map<nat, Crag>, s: nat) {
    var p := s / 4096;
    && p in held && p < held[p]
    && if p in crags then W.RemOf(s, crags[p].g) == 0 && Taken(crags, p, W.PosOf(s, crags[p].g)) else s == p * 4096
  }

  /** Its length in words. */
  function Length(held: map<nat, nat>, crags: map<nat, Crag>, s: nat): nat
    requires IsBlock(held, crags, s)
  {
    var p := s / 4096;
    if p in crags then P.ChunkLen(crags[p].g) else (held[p] - p) * 4096
  }

  /** The blocks in use, with their lengths. */
  ghost function BlockTable(held: map<nat, nat>, crags: map<nat, Crag>): imap<nat, nat> {
    imap s: nat | IsBlock(held, crags, s) :: Length(held, crags, s)
  }

  /** Page allocations are apart; a page cut into chunks is an allocation of its own,
      with a chunk of it in use. */
  ghost predicate Laid(held: map<nat, nat>, crags: map<nat, Crag>) {
    && (forall p :: p in held ==> p < held[p])
    && (forall p, q :: p in held && q in held && p < q ==> held[p] <= q)
    && (forall p :: p in crags ==> p in held && held[p] == p + 1 && crags[p].g < 10)
  }

  lemma BlockAt(held: map<nat, nat>, crags: map<nat, Crag>, s: nat)
    ensures s in BlockTable(held, crags) <==> IsBlock(held, crags, s)
    ensures s in BlockTable(held, crags) ==> BlockTable(held, crags)[s] == Length(held, crags, s)
  {
  }

  /** Where a block is, page by page. */
  lemma BlockPages(held: map<nat, nat>, crags: map<nat, Crag>, s: nat, a: nat)
    requires Laid(held, crags) && IsBlock(held, crags, s) && s <= a < s + Length(held, crags, s)
    ensures s / 4096 <= a / 4096 < held[s / 4096]
    ensures s / 4096 in crags ==> var g := crags[s / 4096].g; s == M.ChunkStart(s / 4096, g, W.PosOf(s, g))
  {
    var p := s / 4096;
    if p in crags {
      var g := crags[p].g;
      ChunkIs(s, g);
      TakenIs(crags, p, W.PosOf(s, g));
      M.ChunkWord(p, g, W.PosOf(s, g), a - s);
    } else {
      PageSpan(p, held[p], a);
    }
  }

  lemma PageSpan(p: nat, end: nat, a: nat)
    requires p * 4096 <= a < p * 4096 + (end - p) * 4096
    ensures p <= a / 4096 < end
  {
  }

  lemma ChunkIs(s: nat, g: nat)
    requires W.RemOf(s, g) == 0
    ensures s == M.ChunkStart(s / 4096, g, W.PosOf(s, g))
  {
    W.WordSplit(s, g);
    M.PageNext(s / 4096);
  }

  lemma PagesApart(held: map<nat, nat>, crags: map<nat, Crag>, p: nat, q: nat)
    requires Laid(held, crags) && p in held && q in held && p < q
    ensures held[p] <= q
  {
  }

  /** Blocks in use share no word. */
  lemma BlocksDisjoint(held: map<nat, nat>, crags: map<nat, Crag>, s: nat, t: nat, a: nat)
    requires Laid(held, crags) && s in BlockTable(held, crags) && t in BlockTable(held, crags)
    requires s <= a < s + BlockTable(held, crags)[s] && t <= a < t + BlockTable(held, crags)[t]
    ensures s == t
  {
    hide W.RemOf, W.PosOf, M.ChunkStart, P.ChunkLen, Taken, Laid;
    BlockPages(held, crags, s, a);
    BlockPages(held, crags, t, a);
    var p: nat, q: nat := s / 4096, t / 4096;
    if p < q {
      PagesApart(held, crags, p, q);
    } else if q < p {
      PagesApart(held, crags, q, p);
    } else if p in crags {
      TakenApart(crags, p, W.PosOf(s, crags[p].g), p, W.PosOf(t, crags[p].g), a);
    }
  }

  /** A block lies within the pages that are there. */
  lemma BlockWithin(held: map<nat, nat>, crags: map<nat, Crag>, s: nat, end: nat)
    requires Laid(held, crags) && s in BlockTable(held, crags) && forall p :: p in held ==> held[p] <= end
    ensures BlockTable(held, crags)[s] > 0 && s + BlockTable(held, crags)[s] <= end * 4096
  {
    hide W.RemOf, W.PosOf, M.ChunkStart, P.ChunkLen, Taken;
    var len := BlockTable(held, crags)[s];
    if s / 4096 in crags {
      LongEnough(crags[s / 4096].g);
    }
    BlockPages(held, crags, s, s + len - 1);
  }

  lemma LongEnough(g: nat)
    ensures P.ChunkLen(g) >= 4
  {
  }

  /** A page allocation adds its block. */
  lemma PagesAdded(held: map<nat, nat>, crags: map<nat, Crag>, pag: nat, end: nat)
    requires pag !in held && pag !in crags && pag < end
    ensures pag * 4096 !in BlockTable(held, crags)
    ensures BlockTable(held[pag := end], crags) == BlockTable(held, crags)[pag * 4096 := (end - pag) * 4096]
  {
    hide Taken, W.RemOf, W.PosOf, P.ChunkLen;
  }

  /** A page that is allocated to be cut adds none. */
  lemma PageCut(held: map<nat, nat>, crags: map<nat, Crag>, now: map<nat, Crag>, pag: nat)
    requires pag !in held && pag !in crags && pag in now && now == crags[pag := now[pag]]
    requires forall q: nat, i: nat :: Taken(now, q, i) <==> Taken(crags, q, i)
    ensures BlockTable(held[pag := pag + 1], now) == BlockTable(held, crags)
  {
    hide W.RemOf, W.PosOf, P.ChunkLen;
    assert forall i: nat :: !Taken(crags, pag, i);
    hide Taken;
  }

  /** The addresses in a page that start a chunk, by its position. */
  lemma ChunkSpot(p: nat, g: nat, pos: nat, t: nat)
    requires g < 10 && pos < P.Tot(g)
    ensures var s := M.ChunkStart(p, g, pos);
            && s / 4096 == p && W.RemOf(s, g) == 0 && W.PosOf(s, g) == pos
            && (t / 4096 == p && W.RemOf(t, g) == 0 && W.PosOf(t, g) == pos ==> t == s)
  {
    LongEnough(g);
    M.ChunkWord(p, g, pos, 0);
    hide M.ChunkStart, W.PosOf, W.RemOf, P.ChunkLen, P.Tot;
    if W.RemOf(t, g) == 0 {
      ChunkIs(t, g);
    }
  }

  /** Taking a chunk adds its block. */
  lemma ChunkAdded(held: map<nat, nat>, crags: map<nat, Crag>, now: map<nat, Crag>, p: nat, pos: nat)
    requires Laid(held, crags) && p in crags && p in now && now == crags[p := now[p]] && now[p].g == crags[p].g
    requires !Taken(crags, p, pos) && Taken(now, p, pos)
    requires forall q: nat, i: nat :: q != p || i != pos ==> (Taken(now, q, i) <==> Taken(crags, q, i))
    ensures var s := M.ChunkStart(p, crags[p].g, pos);
            s !in BlockTable(held, crags)
                && BlockTable(held, now) == BlockTable(held, crags)[s := P.ChunkLen(crags[p].g)]
  {
    TakenIs(now, p, pos);
    hide IsBlock, Length, Laid, Taken, M.ChunkStart, P.ChunkLen;
    forall t: nat
      ensures var s := M.ChunkStart(p, crags[p].g, pos);
              && (IsBlock(held, now, t) <==> IsBlock(held, crags, t) || t == s)
              && (IsBlock(held, crags, t) ==> t != s && Length(held, now, t) == Length(held, crags, t))
              && (t == s && IsBlock(held, now, t) ==> Length(held, now, t) == P.ChunkLen(crags[p].g))
    {
      AddedAt(held, crags, now, p, pos, t);
    }
  }

  lemma AddedAt(held: map<nat, nat>, crags: map<nat, Crag>, now: map<nat, Crag>, p: nat, pos: nat, t: nat)
    requires Laid(held, crags) && p in crags && p in now && now == crags[p := now[p]] && now[p].g == crags[p].g
    requires !Taken(crags, p, pos) && Taken(now, p, pos)
    requires forall q: nat, i: nat :: q != p || i != pos ==> (Taken(now, q, i) <==> Taken(crags, q, i))
    ensures var s := M.ChunkStart(p, crags[p].g, pos);
            && (IsBlock(held, now, t) <==> IsBlock(held, crags, t) || t == s)
            && (IsBlock(held, crags, t) ==> t != s && Length(held, now, t) == Length(held, crags, t))
            && (t == s && IsBlock(held, now, t) ==> Length(held, now, t) == P.ChunkLen(crags[p].g))
  {
    TakenIs(now, p, pos);
    hide Taken, M.ChunkStart, P.ChunkLen, P.Tot, P.Hun, W.RemOf, W.PosOf;
    ChunkSpot(p, crags[p].g, pos, t);
  }

  /** Giving one back removes it, and its page if that is no longer cut. */
  lemma ChunkGone(held: map<nat, nat>, crags: map<nat, Crag>, now: map<nat, Crag>, p: nat, pos: nat, released: bool)
    requires Laid(held, crags) && p in crags && Taken(crags, p, pos)
    requires if released then now == crags - {p} else p in now && now == crags[p := now[p]] && now[p].g == crags[p].g
    requires forall q: nat, i: nat :: Taken(now, q, i) <==> Taken(crags, q, i) && (q != p || i != pos)
    ensures var s := M.ChunkStart(p, crags[p].g, pos);
            s in BlockTable(held, crags)
                && BlockTable(if released then held - {p} else held, now) == BlockTable(held, crags) - {s}
  {
    hide *;
    var s, left := M.ChunkStart(p, crags[p].g, pos), if released then held - {p} else held;
    forall t: nat
      ensures (IsBlock(left, now, t) <==> IsBlock(held, crags, t) && t != s) && (t == s ==> IsBlock(held, crags, t))
      ensures IsBlock(left, now, t) ==> Length(left, now, t) == Length(held, crags, t)
    {
      GoneAt(held, crags, now, p, pos, released, t);
    }
    BlocksLess(held, crags, left, now, s);
  }

  lemma BlocksLess(held: map<nat, nat>, crags: map<nat, Crag>, left: map<nat, nat>, now: map<nat, Crag>, s: nat)
    requires forall t: nat :: (IsBlock(left, now, t) <==> IsBlock(held, crags, t) && t != s)
    requires forall t: nat :: IsBlock(left, now, t) ==>
        IsBlock(held, crags, t) && Length(left, now, t) == Length(held, crags, t)
    requires IsBlock(held, crags, s)
    ensures s in BlockTable(held, crags) && BlockTable(left, now) == BlockTable(held, crags) - {s}
  {
    hide IsBlock, Length;
  }

  lemma GoneAt(held: map<nat, nat>, crags: map<nat, Crag>, now: map<nat, Crag>, p: nat, pos: nat, released: bool,
        t: nat)
    requires Laid(held, crags) && p in crags && Taken(crags, p, pos)
    requires if released then now == crags - {p} else p in now && now == crags[p := now[p]] && now[p].g == crags[p].g
    requires forall q: nat, i: nat :: Taken(now, q, i) <==> Taken(crags, q, i) && (q != p || i != pos)
    ensures var s, left := M.ChunkStart(p, crags[p].g, pos), if released then held - {p} else held;
            && (IsBlock(left, now, t) <==> IsBlock(held, crags, t) && t != s) && (t == s ==> IsBlock(held, crags, t))
            && (IsBlock(left, now, t) ==> Length(left, now, t) == Length(held, crags, t))
  {
    TakenIs(crags, p, pos);
    if released {
      NoneTaken(now, p);
    }
    hide Taken, M.ChunkStart, P.ChunkLen, P.Tot, P.Hun, W.RemOf, W.PosOf;
    ChunkSpot(p, crags[p].g, pos, t);
  }

  lemma NoneTaken(crags: map<nat, Crag>, p: nat)
    requires p !in crags
    ensures forall i: nat :: !Taken(crags, p, i)
  {
  }

  lemma PagesGone(held: map<nat, nat>, crags: map<nat, Crag>, pag: nat)
    requires pag in held && pag !in crags
    ensures BlockTable(held - {pag}, crags) == BlockTable(held, crags) - {pag * 4096}
  {
    hide Taken, W.RemOf, W.PosOf, P.ChunkLen;
  }

  lemma PagesCut(held: map<nat, nat>, crags: map<nat, Crag>, pag: nat, end: nat)
    requires pag in held && pag !in crags && pag < end
    ensures BlockTable(held[pag := end], crags) == BlockTable(held, crags)[pag * 4096 := (end - pag) * 4096]
  {
    hide Taken, W.RemOf, W.PosOf, P.ChunkLen;
  }

  /** Whole pages for a number of words. */
  function PagesOf(len: nat): (n: nat)
    ensures len <= n * 4096 < len + 4096 && (len > 0 ==> n > 0)
  {
    (len + 4095) / 4096
  }

  function Least(len: nat): nat {
    if len < 4 then 4 else len
  }

  /** A length is not much more than what was asked for: pages have less than one too
      many, and a chunk is the least there is or less than twice too long. */
  predicate Snug(len: nat, size: nat) {
    len <= size && if len > 2048 then size < len + 4096 else if len <= 4 then size == 4 else size < 2 * len
  }

  lemma SnugIs(len: nat, size: nat)
    requires len <= size
    requires if len > 2048 then size < len + 4096 else if Least(len) == 4 then size == 4 else size < 2 * Least(len)
    ensures Snug(len, size)
  {
  }

  class Heap {
    const pages: Pages
    const hunks: Hunks
    /** Memory, up to where the stack is. */
    const mem: array<nat>

    /** The free list, the class lists and the directory agree with one another; a
        page cut into chunks has one in use; the heap ends before the stack. */
    ghost predicate Valid()
      reads this, pages, pages.list, hunks
    {
      && pages.Valid() && hunks.Valid() && Laid(pages.Held(), hunks.crags) && Busy(hunks.crags)
      && pages.Sized() && |pages.dir| * 4096 < mem.Length
    }

    /** The blocks in use, with their lengths. */
    ghost function Live(): imap<nat, nat>
      reads this, pages, hunks
    {
      BlockTable(pages.Held(), hunks.crags)
    }

    function EntryOf(p: nat): Entry
      reads this, pages, hunks
      requires p < |pages.dir|
    {
      match pages.dir[p]
      case Free => Vacant
      case Rest => Later
      case Head => if p in hunks.crags then Cut else First
    }

    /** The pages that a request has to be given. */
    ghost function Needs(len: nat): nat
      reads this, hunks
      requires hunks.Valid()
    {
      if len > 2048 then PagesOf(len)
      else (ClassFits(Least(len)); if |hunks.wee[ClassFor(Least(len))]| == 0 then 1 else 0)
    }

    /** A request takes page 0's run off the free list. */
    ghost predicate Loses(len: nat)
      reads this, pages, pages.list, hunks
      requires hunks.Valid() && pages.list.Linked()
    {
      Needs(len) > 0 && pages.LosesZero(Needs(len))
    }

    /** A request leaves the directory too short. */
    ghost predicate Crowds(len: nat)
      reads this, pages, pages.list, hunks
      requires hunks.Valid() && pages.list.Linked()
    {
      Needs(len) > 0 && pages.Short(Needs(len))
    }

    /** A block that is given another length stays where it is: chunks that are not
        too long for it, and pages of which some can be given up. */
    ghost predicate Stays(som: nat, len: nat)
      reads this, pages, hunks
      requires som in Live()
    {
      var size := Live()[som];
      if som / 4096 in hunks.crags then len <= size && (len > size / 2 || size == 4) else PagesOf(len) * 4096 < size
    }

    constructor (mem: array<nat>)
      requires mem.Length > 4096
      ensures Valid() && Live() == imap[] && this.mem == mem && pages.lost == 0 && pages.Roomy()
      ensures fresh(pages) && fresh(pages.list) && fresh(hunks)
    {
      this.mem := mem;
      pages := new Pages([Head], 0, 4096);
      hunks := new Hunks();
    }

    /** Cut a new page into chunks of a class. */
    method MakeChunks(g: nat) returns (pag: nat)
      requires Valid() && g < 10 && |hunks.wee[g]| == 0
      modifies pages, pages.list, hunks
      ensures pages.Valid() && hunks.Valid() && Laid(pages.Held(), hunks.crags)
      ensures pag !in old(hunks.crags) && hunks.wee[g] == [pag] && pag in hunks.crags
          && hunks.crags == old(hunks.crags)[pag := hunks.crags[pag]]
      ensures Live() == old(Live())
      ensures pages.lost == if old(pages.LosesZero(1)) then 1 else old(pages.lost)
      ensures pages.Sized() && (pages.Roomy() <==> old(pages.Roomy() && !pages.Short(1)))
      ensures old(pages.Roomy()) && !pages.Roomy() ==> pag * 4096 == pages.book * 4096 + pages.room
    {
      hide *;
      Opens(this);
      LiveIs(this);
      ghost var held, was, list := pages.Held(), hunks.crags, hunks.wee[g];
      var id := pages.NewEntry();
      pag := pages.Alloc(1, id);
      CutIsHeld(held, was, pag);
      hunks.MakeChunks(g, pag);
      FreshUnused(was, hunks.crags, pag, g);
      PageCut(held, was, hunks.crags, pag);
      assert [pag] + list == [pag];
      NewClass(g);
      LaidCut(this, held, was, pag);
      LiveIs(this);
    }

    /** Allocate at least `len` words; fails where the heap would meet the stack. */
    method Imalloc(len: nat) returns (som: Option<nat>)
      requires Valid()
      modifies pages, pages.list, hunks
      ensures som.None? ==> |pages.dir| * 4096 >= mem.Length
      ensures som.Some? ==>
        && Valid() && som.value !in old(Live()) && som.value in Live() && Live()[som.value] >= len
        && Live() == old(Live())[som.value := Live()[som.value]] && Snug(len, Live()[som.value])
      ensures pages.lost == if old(Loses(len)) then old(Needs(len)) else old(pages.lost)
      ensures pages.Roomy() <==> old(pages.Roomy() && !Crowds(len))
    {
      hide *;
      Opens(this);
      NeedsIs(this, len);
      if len > 2048 {
        som := AllocPages(len);
      } else {
        som := AllocWords(Least(len));
      }
      if som.Some? {
        SnugIs(len, Live()[som.value]);
      }
    }

    method AllocPages(len: nat) returns (som: Option<nat>)
      requires Valid() && len > 0
      modifies pages, pages.list
      ensures som.None? ==> |pages.dir| * 4096 >= mem.Length
      ensures som.Some? ==>
        && Valid() && som.value !in old(Live()) && som.value in Live() && Live()[som.value] >= len
        && Live() == old(Live())[som.value := Live()[som.value]] && Live()[som.value] < len + 4096
      ensures pages.lost == if old(pages.LosesZero(PagesOf(len))) then PagesOf(len) else old(pages.lost)
      ensures pages.Roomy() <==> old(pages.Roomy() && !pages.Short(PagesOf(len)))
      ensures som.Some? && old(pages.Roomy()) && !pages.Roomy() ==> som.value == pages.book * 4096 + pages.room
    {
      hide *;
      Opens(this);
      LiveIs(this);
      ghost var held, crags := pages.Held(), hunks.crags;
      var id := pages.NewEntry();
      var n := PagesOf(len);
      var pag := pages.Alloc(n, id);
      if |pages.dir| * 4096 >= mem.Length {
        return None;
      }
      CutIsHeld(held, crags, pag);
      PagesAdded(held, crags, pag, pag + n);
      LaidMore(this, held, pag, n);
      Closes(this);
      LiveIs(this);
      som := Some(pag * 4096);
    }

    method AllocWords(len: nat) returns (som: Option<nat>)
      requires Valid() && 4 <= len <= 2048
      modifies pages, pages.list, hunks
      ensures som.None? ==> |pages.dir| * 4096 >= mem.Length
      ensures som.Some? ==>
        && Valid() && som.value !in old(Live()) && som.value in Live() && Live()[som.value] >= len
        && Live() == old(Live())[som.value := Live()[som.value]]
        && if len == 4 then Live()[som.value] == 4 else Live()[som.value] < 2 * len
      ensures pages.lost == (ClassFits(len);
        if old(|hunks.wee[ClassFor(len)]|) == 0 && old(pages.LosesZero(1)) then 1 else old(pages.lost))
      ensures pages.Roomy() <==> (ClassFits(len);
        old(pages.Roomy()) && !(old(|hunks.wee[ClassFor(len)]|) == 0 && old(pages.Short(1))))
    {
      hide *;
      Opens(this);
      ClassFits(len);
      var g: nat := ClassFor(len);
      ghost var start := hunks.crags;
      if |hunks.wee[g]| == 0 {
        var _ := MakeChunks(g);
      }
      if |pages.dir| * 4096 >= mem.Length {
        return None;
      }
      ghost var mid := hunks.crags;
      LiveIs(this);
      var p, pos := hunks.Carve(g);
      CragsOn(pages.Held(), mid, hunks.crags, p);
      BusyOn(start, mid, hunks.crags, p);
      ChunkAdded(pages.Held(), mid, hunks.crags, p, pos);
      Closes(this);
      LiveIs(this);
      som := Some(M.ChunkStart(p, g, pos));
    }

    /** Free a block. */
    method Ifree(som: nat)
      requires Valid() && som in Live()
      modifies pages, pages.list, hunks
      ensures Valid() && Live() == old(Live()) - {som} && pages.lost == old(pages.lost)
      ensures old(pages.Roomy()) ==> pages.Roomy()
    {
      hide *;
      Opens(this);
      LiveIs(this);
      BlockAt(pages.Held(), hunks.crags, som);
      ghost var held, was := pages.Held(), hunks.crags;
      var p := som / 4096;
      BlockPage(held, was, som);
      HeldHead(pages, p);
      EntryIs(this, p);
      if EntryOf(p).Cut? {
        ghost var g := hunks.crags[p].g;
        var pos := W.PosOf(som, hunks.crags[p].g);
        var released := hunks.FreeWords(p, pos);
        BusyLess(held, was, hunks.crags, p, released);
        ChunkGone(held, was, hunks.crags, p, pos, released);
        if released {
          FreePages(p);
        } else {
          Closes(this);
        }
      } else {
        LaidLess(held, was, p);
        PagesGone(held, was, p);
        FreePages(p);
      }
      LiveIs(this);
    }

    /** Free a page allocation. */
    method FreePages(p: nat)
      requires pages.Valid() && p in pages.Held() && p !in hunks.crags && hunks.Valid()
      requires Laid(pages.Held() - {p}, hunks.crags) && Busy(hunks.crags)
      requires pages.Sized() && |pages.dir| * 4096 < mem.Length
      modifies pages, pages.list
      ensures Valid() && pages.Held() == old(pages.Held()) - {p} && pages.lost == old(pages.lost)
      ensures old(pages.Roomy()) ==> pages.Roomy()
    {
      hide *;
      HeldHead(pages, p);
      PagesLinked(pages);
      var id := pages.NewEntry();
      ghost var was := pages.dir;
      BookAway(pages, p, p);
      var siz := pages.Release(p, id);
      FreedAt(was, pages.dir, p, siz);
      Closes(this);
    }

    /** Copy words between places that do not overlap. */
    method Copy(dst: nat, src: nat, n: nat)
      requires dst + n <= mem.Length && src + n <= mem.Length && (src + n <= dst || dst + n <= src || n == 0)
      modifies mem
      ensures forall a :: dst <= a < dst + n ==> mem[a] == old(mem[a - dst + src])
      ensures forall a :: 0 <= a < mem.Length && !(dst <= a < dst + n) ==> mem[a] == old(mem[a])
    {
      for k := 0 to n
        invariant forall a :: dst <= a < dst + k ==> mem[a] == old(mem[a - dst + src])
        invariant forall a :: 0 <= a < mem.Length && !(dst <= a < dst + k) ==> mem[a] == old(mem[a])
      {
        mem[dst + k] := mem[src + k];
      }
    }

    /** Give up the last pages of a page allocation that `len` words do not need. With
        no words wanted, that is all of them. */
    method Shrink(p: nat, siz: nat, len: nat)
      requires Valid() && p in pages.Held() && p !in hunks.crags && pages.Held()[p] == p + siz && PagesOf(len) < siz
      modifies pages, pages.list
      ensures Valid() && pages.lost == old(pages.lost) && p * 4096 in old(Live())
      ensures Live() == if len == 0 then old(Live()) - {p * 4096} else old(Live())[p * 4096 := PagesOf(len) * 4096]
      ensures old(pages.Roomy()) ==> pages.Roomy()
    {
      hide *;
      Opens(this);
      LiveIs(this);
      ghost var held, crags, was := pages.Held(), hunks.crags, pages.dir;
      PagesAt(held, crags, p);
      if PagesOf(len) == 0 {
        NoPages(len);
        LaidLess(held, crags, p);
        PagesGone(held, crags, p);
        FreePages(p);
      } else {
        NoPages(len);
        var keep := p + PagesOf(len);
        HeldHead(pages, p);
        HeldRest(pages, p, keep);
        var id := pages.NewEntry();
        assert p in held && p < keep < held[p] && pages.Held() == held;
        BookAway(pages, p, keep);
        var n := pages.Release(keep, id);
        assert pages.Held() == held[p := keep];
        FreedAt(was, pages.dir, keep, n);
        LaidShort(this, held, p, keep);
        PagesCut(held, crags, p, keep);
        Closes(this);
      }
      LiveIs(this);
    }

    /** Change the length of a block: in place where the code does, and otherwise by
        allocating, copying what fits, and freeing. Asked for no words, a block of
        whole pages is freed, and its address returned all the same. */
    method Irealloc(som: nat, len: nat) returns (now: Option<nat>)
      requires Valid() && som in Live()
      modifies pages, pages.list, hunks, mem
      ensures now.None? ==> |pages.dir| * 4096 >= mem.Length
      ensures now.Some? ==> Valid()
      ensures now == Some(som) <==> old(Stays(som, len))
      ensures now == Some(som) && old(som / 4096 in hunks.crags) ==> som in Live() && Snug(len, Live()[som])
      ensures now.Some? ==>
        if len == 0 && old(som / 4096 !in hunks.crags) then now.value == som && Live() == old(Live()) - {som}
        else IsMoved(old(Live()), Live(), som, now.value, len)
      ensures som + old(Live()[som]) <= mem.Length
      ensures now.Some? && (len > 0 || old(som / 4096 in hunks.crags)) ==>
        && now.value + len <= mem.Length
        && forall a :: now.value <= a < now.value + len && a < now.value + old(Live()[som]) ==>
          mem[a] == old(mem[a - now.value + som])
      ensures OthersKept(old(Live()), som, old(mem[..]), mem[..])
      ensures pages.lost == if old(!Stays(som, len) && Loses(len)) then old(Needs(len)) else old(pages.lost)
      ensures old(pages.Roomy() && (Stays(som, len) || !Crowds(len))) ==> pages.Roomy()
    {
      hide *;
      Opens(this);
      LiveIs(this);
      StaysIs(this, som, len);
      StayPut(Live(), som, mem[..]);
      BlockAt(pages.Held(), hunks.crags, som);
      var p := som / 4096;
      BlockPage(pages.Held(), hunks.crags, som);
      HeldHead(pages, p);
      EntryIs(this, p);
      LiveEnds(this, som);
      LengthIs(pages.Held(), hunks.crags, som);
      var size;
      if EntryOf(p).Cut? {
        size := P.ChunkLen(hunks.crags[p].g);
        if len <= size && (len > size / 2 || size == 4) {
          StayDone(Live(), som, len);
          return Some(som);
        }
      } else {
        var siz := pages.PagesSize(p);
        size := siz * 4096;
        FewerPages(len, siz);
        if len < size && (size - len) / 4096 > 0 {
          Shrink(p, siz, len);
          if len > 0 {
            ShrinkDone(old(Live()), Live(), som, len);
          }
          return Some(som);
        }
      }
      now := Move(som, len, size);
    }

    /** Allocate, copy and free. */
    method Move(som: nat, len: nat, size: nat) returns (now: Option<nat>)
      requires Valid() && som in Live() && Live()[som] == size
      modifies pages, pages.list, hunks, mem
      ensures now.None? ==> |pages.dir| * 4096 >= mem.Length
      ensures now.Some? ==>
        Valid() && IsMoved(old(Live()), Live(), som, now.value, len) && now.value !in old(Live())
      ensures som + size <= mem.Length
      ensures now.Some? ==>
        && now.value + len <= mem.Length
        && forall a :: now.value <= a < now.value + len && a < now.value + size ==>
          mem[a] == old(mem[a - now.value + som])
      ensures OthersKept(old(Live()), som, old(mem[..]), mem[..])
      ensures pages.lost == if old(Loses(len)) then old(Needs(len)) else old(pages.lost)
      ensures old(pages.Roomy() && !Crowds(len)) ==> pages.Roomy()
    {
      hide *;
      Opens(this);
      ghost var was, words := Live(), mem[..];
      StayPut(was, som, words);
      LiveEnds(this, som);
      now := Imalloc(len);
      if now.None? {
        return;
      }
      var to := now.value;
      LiveEnds(this, to);
      LiveApart(this, to);
      var n := if len < size then len else size;
      ghost var mid := Live();
      assert som in mid && som != to && mid[som] == size;
      Copy(to, som, n);
      CopyDone(was, mid, som, to, n, words, mem[..]);
      Ifree(som);
      MoveDone(was, mid, Live(), som, to, len);
    }
  }

  /** One block, moved: to a place that was in no other, and long enough but not much
      longer. */
  ghost predicate IsMoved(was: imap<nat, nat>, now: imap<nat, nat>, s: nat, t: nat, len: nat) {
    && s in was && t in now && len <= now[t] < len + 4096 && now == (was - {s})[t := now[t]]
    && (t == s || (t !in was && Snug(len, now[t])))
  }

  ghost predicate OthersKept(table: imap<nat, nat>, s: nat, was: seq<nat>, now: seq<nat>) {
    forall t :: t in table && t != s ==> SameWords(was, now, t, table[t])
  }

  lemma StayPut(table: imap<nat, nat>, s: nat, words: seq<nat>)
    ensures OthersKept(table, s, words, words)
  {
  }

  lemma CopyDone(was: imap<nat, nat>, mid: imap<nat, nat>, s: nat, t: nat, n: nat, words: seq<nat>, now: seq<nat>)
    requires s in was && t !in was && t in mid && mid == was[t := mid[t]] && n <= mid[t] && n <= was[s]
    requires |words| == |now| && s + n <= |words| && t + n <= |now|
    requires forall q :: q in mid && q != t ==> q + mid[q] <= t || t + mid[t] <= q
    requires forall a :: 0 <= a < |now| && !(t <= a < t + n) ==> now[a] == words[a]
    ensures OthersKept(was, s, words, now)
  {
    forall q | q in was && q != s
      ensures SameWords(words, now, q, was[q])
    {
      assert q in mid && mid[q] == was[q];
      CopiedElsewhere(words, now, t, n, q, was[q]);
    }
  }

  lemma MoveDone(was: imap<nat, nat>, mid: imap<nat, nat>, now: imap<nat, nat>, s: nat, t: nat, len: nat)
    requires s in was && t !in was && t in mid && mid == was[t := mid[t]] && Snug(len, mid[t]) && now == mid - {s}
    ensures IsMoved(was, now, s, t, len)
  {
  }

  /** A block that stays where it is, and as long. */
  lemma StayDone(table: imap<nat, nat>, s: nat, len: nat)
    requires s in table && len <= table[s] <= 2048 && table[s] % 4 == 0 && (len > table[s] / 2 || table[s] == 4)
    ensures IsMoved(table, table, s, s, len) && Snug(len, table[s])
  {
  }

  lemma ShrinkDone(was: imap<nat, nat>, now: imap<nat, nat>, s: nat, len: nat)
    requires s in was && 0 < len <= was[s] && now == was[s := PagesOf(len) * 4096]
    ensures IsMoved(was, now, s, s, len)
  {
  }

  /** The words of a block are as they were. */
  ghost predicate SameWords(was: seq<nat>, now: seq<nat>, s: nat, len: nat) {
    forall a :: s <= a < s + len && a < |was| && a < |now| ==> now[a] == was[a]
  }

  lemma CopiedElsewhere(was: seq<nat>, now: seq<nat>, dst: nat, n: nat, s: nat, len: nat)
    requires |was| == |now| && forall a :: 0 <= a < |now| && !(dst <= a < dst + n) ==> now[a] == was[a]
    requires s + len <= dst || dst + n <= s
    ensures SameWords(was, now, s, len)
  {
  }

  lemma NoPages(len: nat)
    ensures PagesOf(len) == 0 <==> len == 0
  {
  }

  /** The pages that can be given up are those past what the length needs. */
  lemma FewerPages(len: nat, siz: nat)
    ensures len < siz * 4096 && (siz * 4096 - len) / 4096 > 0 <==> PagesOf(len) < siz
    ensures PagesOf(len) < siz ==> siz - (siz * 4096 - len) / 4096 == PagesOf(len)
    ensures PagesOf(len) * 4096 >= len
  {
  }

  lemma PagesAt(held: map<nat, nat>, crags: map<nat, Crag>, p: nat)
    requires p in held && p < held[p] && p !in crags
    ensures p * 4096 in BlockTable(held, crags)
  {
  }

  lemma HeldRest(pages: Pages, p: nat, q: nat)
    requires pages.Valid() && p in pages.Held() && p < q < pages.Held()[p]
    ensures q < |pages.dir| && !pages.dir[q].Free? && q != pages.book
  {
  }

  lemma LaidShort(h: Heap, held: map<nat, nat>, p: nat, end: nat)
    requires Laid(held, h.hunks.crags) && p in held && p < end <= held[p] && p !in h.hunks.crags
        && h.pages.Held() == held[p := end]
    ensures Laid(h.pages.Held(), h.hunks.crags)
  {
  }

  lemma LengthIs(held: map<nat, nat>, crags: map<nat, Crag>, s: nat)
    requires s in BlockTable(held, crags)
    ensures s / 4096 in held && BlockTable(held, crags)[s] ==
            if s / 4096 in crags then P.ChunkLen(crags[s / 4096].g) else (held[s / 4096] - s / 4096) * 4096
    ensures s / 4096 in crags ==> BlockTable(held, crags)[s] <= 2048 && BlockTable(held, crags)[s] % 4 == 0
  {
  }

  /** A block ends before the stack. */
  lemma LiveEnds(h: Heap, s: nat)
    requires h.Valid() && s in h.Live()
    ensures h.Live()[s] > 0 && s + h.Live()[s] <= h.mem.Length
  {
    hide BlockTable, Laid, Busy, Good, PageHeap.Blocked, PageHeap.Blocks, Links;
    BlocksPlaced(h.pages.dir, h.pages.book);
    BlockWithin(h.pages.Held(), h.hunks.crags, s, |h.pages.dir|);
  }

  /** No other block has a word of this one. */
  lemma LiveApart(h: Heap, s: nat)
    requires h.Valid() && s in h.Live()
    ensures forall t :: t in h.Live() && t != s ==> t + h.Live()[t] <= s || s + h.Live()[s] <= t
  {
    hide *;
    Opens(h);
    LiveIs(h);
    LiveEnds(h, s);
    forall t | t in h.Live() && t != s
      ensures t + h.Live()[t] <= s || s + h.Live()[s] <= t
    {
      LiveEnds(h, t);
      if t + h.Live()[t] > s && s + h.Live()[s] > t {
        BlocksDisjoint(h.pages.Held(), h.hunks.crags, s, t, if s <= t then t else s);
      }
    }
  }

  /** Every page cut into chunks has one in use. */
  ghost predicate Busy(crags: map<nat, Crag>) {
    forall p :: p in crags ==> crags[p].g < 10 && crags[p].fre < P.Ful(crags[p].g)
  }

  /** What a valid heap has, and what makes one. */
  lemma Opens(h: Heap)
    requires h.Valid()
    ensures h.pages.Valid() && h.hunks.Valid() && Laid(h.pages.Held(), h.hunks.crags) && Busy(h.hunks.crags)
    ensures |h.pages.dir| * 4096 < h.mem.Length && h.pages.list.Linked() && |h.hunks.wee| == 10 && h.pages.Sized()
  {
  }

  lemma Closes(h: Heap)
    requires h.pages.Valid() && h.hunks.Valid() && Laid(h.pages.Held(), h.hunks.crags) && Busy(h.hunks.crags)
    requires |h.pages.dir| * 4096 < h.mem.Length && h.pages.Sized()
    ensures h.Valid()
  {
  }

  lemma NeedsIs(h: Heap, len: nat)
    requires h.hunks.Valid() && h.pages.list.Linked()
    ensures 4 <= Least(len) && len <= Least(len) && (len <= 2048 ==> Least(len) <= 2048)
    ensures h.Needs(len) == (if len > 2048 then PagesOf(len)
              else (ClassFits(Least(len)); if |h.hunks.wee[ClassFor(Least(len))]| == 0 then 1 else 0))
    ensures h.Loses(len) <==> h.Needs(len) > 0 && h.pages.LosesZero(h.Needs(len))
    ensures h.Crowds(len) <==> h.Needs(len) > 0 && h.pages.Short(h.Needs(len))
  {
  }

  lemma StaysIs(h: Heap, som: nat, len: nat)
    requires som in h.Live()
    ensures var size := h.Live()[som];
            h.Stays(som, len) <==>
              if som / 4096 in h.hunks.crags then len <= size && (len > size / 2 || size == 4)
              else PagesOf(len) * 4096 < size
  {
  }

  /** What is freed of an allocation is no part of the directory. */
  lemma BookAway(pages: Pages, p: nat, q: nat)
    requires pages.Sized() && p in pages.Held() && p <= q < pages.Held()[p]
    ensures !(pages.book < q < pages.book + pages.room / 4096)
  {
    ShelfApart(pages.dir, pages.book, pages.room, p, q);
  }

  lemma ShelfApart(dir: seq<Kind>, book: nat, room: nat, p: nat, q: nat)
    requires Shelved(dir, book, room) && p in PageHeap.Blocks(dir) && p != book && p <= q < PageHeap.Blocks(dir)[p]
    ensures !(book <= q < book + room / 4096) && room % 4096 == 0
  {
    if p < book {
      BlocksApart(dir, p, book);
    } else {
      BlocksApart(dir, book, p);
    }
  }

  /** No block in use has a word of the directory's entries, while it has room for
      them. */
  lemma EntriesOwn(h: Heap, s: nat, a: nat)
    requires h.Valid() && h.pages.Roomy() && s in h.Live() && s <= a < s + h.Live()[s]
    ensures !(h.pages.book * 4096 <= a < h.pages.book * 4096 + |h.pages.dir|)
  {
    Opens(h);
    LiveIs(h);
    BlockAt(h.pages.Held(), h.hunks.crags, s);
    BlockPages(h.pages.Held(), h.hunks.crags, s, a);
    BlockPage(h.pages.Held(), h.hunks.crags, s);
    hide BlockTable, IsBlock, Length, Laid, Busy, Good, PageHeap.Blocked, PageHeap.Blocks, Links;
    ShelfApart(h.pages.dir, h.pages.book, h.pages.room, s / 4096, a / 4096);
  }

  lemma LiveIs(h: Heap)
    ensures h.Live() == BlockTable(h.pages.Held(), h.hunks.crags)
  {
  }

  lemma PagesLinked(pages: Pages)
    requires pages.Valid()
    ensures pages.list.Linked()
  {
  }

  lemma HeldHead(pages: Pages, p: nat)
    requires p in pages.Held()
    ensures p < |pages.dir| && pages.dir[p].Head? && p != pages.book
        && BlockEnd(pages.dir, p) == pages.Held()[p] <= |pages.dir|
  {
  }

  lemma EntryIs(h: Heap, p: nat)
    requires p < |h.pages.dir| && h.pages.dir[p].Head?
    ensures h.EntryOf(p) == if p in h.hunks.crags then Cut else First
  {
  }

  lemma CutIsHeld(held: map<nat, nat>, crags: map<nat, Crag>, p: nat)
    requires Laid(held, crags) && p !in held
    ensures p !in crags
  {
  }

  /** The page a block starts on. */
  lemma BlockPage(held: map<nat, nat>, crags: map<nat, Crag>, s: nat)
    requires Laid(held, crags) && IsBlock(held, crags, s)
    ensures var p := s / 4096; p in held && (p !in crags ==> s == p * 4096)
    ensures var p := s / 4096; p in crags ==>
      var g := crags[p].g;
      Taken(crags, p, W.PosOf(s, g)) && W.RemOf(s, g) == 0 && s == M.ChunkStart(p, g, W.PosOf(s, g))
  {
    if s / 4096 in crags {
      ChunkIs(s, crags[s / 4096].g);
    }
  }

  lemma NewClass(g: nat)
    requires g < 10
    ensures forall bits, fre :: Crag(g, bits, fre).g < 10
  {
  }

  lemma LaidMore(h: Heap, held: map<nat, nat>, pag: nat, n: nat)
    requires Laid(held, h.hunks.crags) && h.pages.Held() == held[pag := pag + n] && pag !in held
    ensures Laid(h.pages.Held(), h.hunks.crags)
  {
    BlocksPlaced(h.pages.dir, h.pages.book);
    hide PageHeap.Blocks;
  }

  lemma LaidCut(h: Heap, held: map<nat, nat>, crags: map<nat, Crag>, pag: nat)
    requires Laid(held, crags) && h.pages.Held() == held[pag := pag + 1] && pag !in held
    requires pag in h.hunks.crags && h.hunks.crags == crags[pag := h.hunks.crags[pag]] && h.hunks.crags[pag].g < 10
    ensures Laid(h.pages.Held(), h.hunks.crags)
  {
    BlocksPlaced(h.pages.dir, h.pages.book);
    hide PageHeap.Blocks;
  }

  lemma CragsOn(held: map<nat, nat>, was: map<nat, Crag>, now: map<nat, Crag>, p: nat)
    requires Laid(held, was) && p in was && p in now && now == was[p := now[p]] && now[p].g < 10
    ensures Laid(held, now)
  {
  }

  lemma BusyOn(start: map<nat, Crag>, mid: map<nat, Crag>, now: map<nat, Crag>, p: nat)
    requires Busy(start) && p in mid && p in now && now == mid[p := now[p]]
    requires mid == start || mid == start[p := mid[p]]
    requires now[p].g < 10 && now[p].fre < P.Ful(now[p].g)
    ensures Busy(now)
  {
  }

  lemma BusyLess(held: map<nat, nat>, was: map<nat, Crag>, now: map<nat, Crag>, p: nat, released: bool)
    requires Laid(held, was) && Busy(was) && p in was
    requires if released then now == was - {p}
             else p in now && now == was[p := now[p]] && now[p].g == was[p].g && now[p].fre < P.Ful(was[p].g)
    ensures Busy(now) && Laid(if released then held - {p} else held, now)
    ensures p in held && (released ==> p !in now)
  {
  }

  lemma LaidLess(held: map<nat, nat>, crags: map<nat, Crag>, p: nat)
    requires Laid(held, crags) && p !in crags
    ensures Laid(held - {p}, crags)
  {
  }
}
