/** Compaction keeps meaning: every root denotes the noun it denoted before. */
module PackIso {
  import opened Nouns
  import opened Refs
  import opened PackMap
  import opened PackWords
  import opened PackSeek
  import opened PackReloc
  import opened PackMove

  /** The number that words spell, low word first. */
  function Value(words: seq<nat>): nat {
    if words == [] then 0 else words[0] + LOOM * Value(words[1..])
  }

  /** The noun that a reference denotes in a memory. */
  predicate Denotes(mem: seq<nat>, w: nat, n: Noun)
    decreases n
  {
    match n
    case Atom(a) =>
      if IsCat(w) then w == a
      else
        && IsPug(w) && Off(w) + 2 < |mem| && Off(w) + 3 + mem[Off(w) + 2] <= |mem|
        && Value(mem[Off(w) + 3..Off(w) + 3 + mem[Off(w) + 2]]) == a
    case Cell(h, t) =>
      IsPom(w) && Off(w) + 3 < |mem| && Denotes(mem, mem[Off(w) + 2], h) && Denotes(mem, mem[Off(w) + 3], t)
  }

  /** A word of an allocation, after both passes. */
  lemma WordGoes(pages: seq<Page>, mid: seq<nat>, to: seq<nat>, post: nat, size: nat, k: nat)
    requires Wf(pages) && Block(pages, post, size) && k < size && Moved(pages, mid, to, HeapEnd(pages))
    ensures Live(pages, post) && NewAddr(pages, post) + k < |to| == |mid| && post + k < HeapEnd(pages) <= |mid|
    ensures to[NewAddr(pages, post) + k] == mid[post + k]
  {
    hide Live, NewAddr, Block, Wf;
    BlockLive(pages, post, size, k);
    LiveInHeap(pages, post + k);
    NewDown(pages, post + k);
  }

  /** The words of an indirect atom are no one's field. */
  lemma AtomUntouched(pages: seq<Page>, was: seq<nat>, mid: seq<nat>, cells: set<nat>, marks: set<nat>,
        roots: seq<nat>, post: nat, size: nat, k: nat)
    requires Relocated(pages, was, mid, cells, marks, roots) && forall i :: 0 <= i < |roots| ==>
        roots[i] >= HeapEnd(pages)
    requires Wf(pages) && Block(pages, post, size) && k < size && post !in cells && post + k < HeapEnd(pages)
    ensures post + k < |was| == |mid| && mid[post + k] == was[post + k]
  {
    hide GoodRef, Rewritten, Block, Wf;
    var s := post + k;
    forall c | c in marks
      ensures c + 2 != s && c + 3 != s
    {
      CellFacts(pages, was, cells, c);
      BlocksApart(pages, post, size, k, c, 4, 2);
      BlocksApart(pages, post, size, k, c, 4, 3);
    }
    assert !IsField(marks, s);
  }

  /** A rewritten reference is of the same kind and refers to the new address. */
  lemma RewrittenKind(pages: seq<Page>, was: seq<nat>, cells: set<nat>, w: nat)
    requires Grounded(pages, was, cells) && GoodRef(pages, was, cells, w)
    ensures var v := Rewritten(pages, was, cells, w);
            && (IsCat(w) <==> IsCat(v)) && (IsPug(w) <==> IsPug(v)) && (IsPom(w) <==> IsPom(v))
            && (IsCat(w) ==> v == w)
            && (!IsCat(w) ==> Live(pages, Off(w)) && Off(v) == NewAddr(pages, Off(w)))
    ensures IsPug(w) ==> Off(w) !in cells && Off(w) + 2 < |was| && Block(pages, Off(w), 3 + was[Off(w) + 2])
    ensures IsPom(w) ==> Off(w) in cells
    ensures IsCat(w) || IsPug(w) || IsPom(w)
  {
    hide Live, NewAddr, Block, Wf, Grounded;
    if !IsCat(w) {
      RefFacts(pages, was, cells, w);
    }
  }

  /** An indirect atom denotes what it did. */
  lemma AtomKept(pages: seq<Page>, was: seq<nat>, mid: seq<nat>, to: seq<nat>, cells: set<nat>, marks: set<nat>,
        roots: seq<nat>, w: nat, n: Noun)
    requires Relocated(pages, was, mid, cells, marks, roots) && forall i :: 0 <= i < |roots| ==>
        roots[i] >= HeapEnd(pages)
    requires Grounded(pages, was, cells) && Moved(pages, mid, to, HeapEnd(pages)) && GoodRef(pages, was, cells, w)
    requires n.Atom? && IsPug(w)
    ensures Denotes(was, w, n) <==> Denotes(to, Rewritten(pages, was, cells, w), n)
  {
    hide Live, NewAddr, Block, Wf, GoodRef, Grounded, Rewritten, Relocated, Moved, IsCat, IsPug, IsPom, Off, Value;
    RewrittenKind(pages, was, cells, w);
    GroundedWf(pages, was, cells);
    var post := Off(w);
    var size := 3 + was[post + 2];
    WordGoes(pages, mid, to, post, size, size - 1);
    AtomUntouched(pages, was, mid, cells, marks, roots, post, size, size - 1);
    var newer := NewAddr(pages, post);
    forall a | post <= a < post + size
      ensures to[newer + (a - post)] == was[a]
    {
      WordGoes(pages, mid, to, post, size, a - post);
      AtomUntouched(pages, was, mid, cells, marks, roots, post, size, a - post);
    }
    assert to[newer + 2] == was[post + 2];
    assert to[newer + 3..newer + size] == was[post + 3..post + size];
    NotCat(w);
    NotCat(Rewritten(pages, was, cells, w));
  }

  lemma NotCat(w: nat)
    requires IsPug(w)
    ensures !IsCat(w) && !IsPom(w)
  {
  }

  lemma GroundedWf(pages: seq<Page>, was: seq<nat>, cells: set<nat>)
    requires Grounded(pages, was, cells)
    ensures Wf(pages) && HeapEnd(pages) <= |was|
  {
  }

  /** A cell's fields have arrived, rewritten. */
  lemma CellGoes(pages: seq<Page>, was: seq<nat>, mid: seq<nat>, to: seq<nat>, cells: set<nat>, marks: set<nat>,
        roots: seq<nat>, c: nat, s: nat)
    requires Relocated(pages, was, mid, cells, marks, roots) && Grounded(pages, was, cells)
    requires Moved(pages, mid, to, HeapEnd(pages)) && c in marks && (s == 2 || s == 3)
    ensures c + 3 < |was| && Live(pages, c) && NewAddr(pages, c) + 3 < |to| && GoodRef(pages, was, cells, was[c + s])
    ensures to[NewAddr(pages, c) + s] == Rewritten(pages, was, cells, was[c + s])
    ensures IsPom(was[c + s]) ==> Off(was[c + s]) in marks
  {
    hide Live, NewAddr, Block, Wf, GoodRef, Grounded, Rewritten, Moved, IsPom, Off;
    GroundedWf(pages, was, cells);
    CellFacts(pages, was, cells, c);
    WordGoes(pages, mid, to, c, 4, s);
    WordGoes(pages, mid, to, c, 4, 3);
    assert IsField(marks, c + s);
  }

  /** Every reference the passes have seen denotes, rewritten, exactly the noun it
      denoted before: nothing is lost and nothing new appears. */
  lemma {:induction false} Isomorphic(pages: seq<Page>, was: seq<nat>, mid: seq<nat>, to: seq<nat>, cells: set<nat>,
        marks: set<nat>, roots: seq<nat>, w: nat, n: Noun)
    requires Relocated(pages, was, mid, cells, marks, roots) && forall i :: 0 <= i < |roots| ==>
        roots[i] >= HeapEnd(pages)
    requires Grounded(pages, was, cells) && Moved(pages, mid, to, HeapEnd(pages))
    requires GoodRef(pages, was, cells, w) && (IsPom(w) ==> Off(w) in marks)
    ensures Denotes(was, w, n) <==> Denotes(to, Rewritten(pages, was, cells, w), n)
    decreases n
  {
    hide Live, NewAddr, Block, Wf, GoodRef, Grounded, Rewritten, Relocated, Moved, Off, Value;
    RewrittenKind(pages, was, cells, w);
    if n.Atom? {
      if IsPug(w) {
        AtomKept(pages, was, mid, to, cells, marks, roots, w, n);
      }
    } else if IsPom(w) {
      var c := Off(w);
      CellGoes(pages, was, mid, to, cells, marks, roots, c, 2);
      CellGoes(pages, was, mid, to, cells, marks, roots, c, 3);
      Isomorphic(pages, was, mid, to, cells, marks, roots, was[c + 2], n.h);
      Isomorphic(pages, was, mid, to, cells, marks, roots, was[c + 3], n.t);
    }
  }

  /** Sharing is kept too: two references are to one object exactly if they were. */
  lemma SharingKept(pages: seq<Page>, was: seq<nat>, cells: set<nat>, v: nat, w: nat)
    requires Grounded(pages, was, cells) && GoodRef(pages, was, cells, v) && GoodRef(pages, was, cells, w)
    ensures v == w <==> Rewritten(pages, was, cells, v) == Rewritten(pages, was, cells, w)
  {
    hide Live, NewAddr, Block, GoodRef, Grounded, Rewritten;
    RewrittenKind(pages, was, cells, v);
    RewrittenKind(pages, was, cells, w);
    GroundedWf(pages, was, cells);
    if Rewritten(pages, was, cells, v) == Rewritten(pages, was, cells, w) && !IsCat(v) {
      NewInjective(pages, Off(v), Off(w));
    }
  }

  /** Every word in use has gone where it should, as it was, but for fields of cells that
      have been rewritten: counts, hashes, lengths and digits, and all of what no root
      reaches. Past the heap only the roots have changed. */
  ghost predicate WordsKept(pages: seq<Page>, was: seq<nat>, now: seq<nat>, cells: set<nat>, roots: seq<nat>)
    requires Grounded(pages, was, cells)
  {
    && |now| == |was|
    && (forall a :: 0 <= a < HeapEnd(pages) && Live(pages, a) ==>
        (NewDown(pages, a);
          || now[NewAddr(pages, a)] == was[a]
          || (IsField(cells, a) && GoodRef(pages, was, cells, was[a])
              && now[NewAddr(pages, a)] == Rewritten(pages, was, cells, was[a]))))
    && (forall a :: HeapEnd(pages) <= a < |was| && a !in roots ==> now[a] == was[a])
  }

  lemma WordsGo(pages: seq<Page>, was: seq<nat>, mid: seq<nat>, to: seq<nat>, cells: set<nat>, marks: set<nat>,
        roots: seq<nat>)
    requires Relocated(pages, was, mid, cells, marks, roots) && Moved(pages, mid, to, HeapEnd(pages))
    requires forall i :: 0 <= i < |roots| ==> roots[i] >= HeapEnd(pages)
    ensures WordsKept(pages, was, to, cells, roots)
  {
    hide Live, NewAddr, Block, GoodRef, Rewritten;
    forall c | c in marks
      ensures c + 3 < HeapEnd(pages)
    {
      CellFacts(pages, was, cells, c);
    }
  }

  /** Compact the heap: find where everything goes, rewrite every reference that
      the roots reach, move. */
  method Compact(pages: seq<Page>, lists: seq<seq<nat>>, mem: array<nat>, dir: array<nat>, roots: seq<nat>,
        ghost cells: set<nat>)
    returns (len: nat)
    requires Grounded(pages, mem[..], cells) && NoneEmpty(pages)
    requires |lists| == 10 && forall g :: 0 <= g < 10 ==> IsList(pages, g, lists[g])
    requires dir.Length == |pages| && dir != mem
    requires forall i, j :: 0 <= i < j < |roots| ==> roots[i] != roots[j]
    requires forall i :: 0 <= i < |roots| ==>
               HeapEnd(pages) <= roots[i] < mem.Length && GoodRef(pages, mem[..], cells, mem[roots[i]])
    modifies mem, dir
    ensures forall i, n :: 0 <= i < |roots| ==>
              (Denotes(mem[..], mem[roots[i]], n) <==> Denotes(old(mem[..]), old(mem[roots[i]]), n))
    ensures forall i, j :: 0 <= i < |roots| && 0 <= j < |roots| ==>
              (mem[roots[i]] == mem[roots[j]] <==> old(mem[roots[i]]) == old(mem[roots[j]]))
    ensures WordsKept(pages, old(mem[..]), mem[..], cells, roots)
    ensures len == KeptBelow(pages, |pages|) && Filed(pages, old(dir[..]), dir[..], |pages|)
  {
    hide *;
    GroundedWf(pages, mem[..], cells);
    ghost var was := mem[..];
    var gack := Seek(pages, lists);
    var walk := new Relocator(pages, gack, mem, cells);
    walk.MayVisitRoots(roots);
    walk.RelocateRoots(roots);
    ghost var mid := mem[..];
    len := Move(pages, gack, mem, dir);
    WordsGo(pages, was, mid, mem[..], cells, walk.marks, roots);
    forall i | 0 <= i < |roots|
      ensures GoodRef(pages, was, cells, was[roots[i]]) && mem[roots[i]] == Rewritten(pages, was, cells, was[roots[i]])
      ensures IsPom(was[roots[i]]) ==> Off(was[roots[i]]) in walk.marks
    {
      RootGoes(pages, was, mid, mem[..], cells, walk.marks, roots, i);
    }
    forall i, n | 0 <= i < |roots|
      ensures Denotes(mem[..], mem[roots[i]], n) <==> Denotes(was, was[roots[i]], n)
    {
      Isomorphic(pages, was, mid, mem[..], cells, walk.marks, roots, was[roots[i]], n);
    }
    forall i, j | 0 <= i < |roots| && 0 <= j < |roots|
      ensures mem[roots[i]] == mem[roots[j]] <==> was[roots[i]] == was[roots[j]]
    {
      SharingKept(pages, was, cells, was[roots[i]], was[roots[j]]);
    }
  }

  lemma RootGoes(pages: seq<Page>, was: seq<nat>, mid: seq<nat>, to: seq<nat>, cells: set<nat>, marks: set<nat>,
        roots: seq<nat>, i: nat)
    requires Relocated(pages, was, mid, cells, marks, roots) && Grounded(pages, was, cells)
    requires Wf(pages) && Moved(pages, mid, to, HeapEnd(pages)) && i < |roots| && HeapEnd(pages) <= roots[i] < |was|
    ensures |to| == |was| && GoodRef(pages, was, cells, was[roots[i]])
        && to[roots[i]] == Rewritten(pages, was, cells, was[roots[i]])
    ensures IsPom(was[roots[i]]) ==> Off(was[roots[i]]) in marks
  {
    hide Live, NewAddr, Block, Wf, GoodRef, Grounded, Rewritten, IsPom, Off;
  }
}
