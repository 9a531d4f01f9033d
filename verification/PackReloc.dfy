/** Rewriting references: a depth-first walk from a root that marks each cell and
    rewrites each of its fields, in place, the first time it is met. */
module PackReloc {
  import opened Refs
  import opened PackMap
  import opened PackWords
  import opened PackSeek

  function HeapEnd(pages: seq<Page>): nat {
    |pages| * PAGE
  }

  /** A reference that can be followed: cells are known cells, indirect atoms are
      other allocations, long enough for their words. */
  ghost predicate GoodRef(pages: seq<Page>, mem: seq<nat>, cells: set<nat>, w: nat)
    requires Wf(pages) && |mem| >= HeapEnd(pages)
  {
    || IsCat(w)
    || (IsPug(w) && Off(w) !in cells && Block(pages, Off(w), 3) && Off(w) + 2 < |mem|
        && Block(pages, Off(w), 3 + mem[Off(w) + 2]))
    || (IsPom(w) && Off(w) in cells)
  }

  /** A heap whose cells are allocations with references that can be followed. */
  ghost predicate Grounded(pages: seq<Page>, mem: seq<nat>, cells: set<nat>) {
    && Wf(pages) && HeapEnd(pages) <= |mem| && HeapEnd(pages) <= LOOM
    && forall c :: c in cells ==>
         c % 4 == 0 && c + 3 < HeapEnd(pages) && Block(pages, c, 4)
         && GoodRef(pages, mem, cells, mem[c + 2]) && GoodRef(pages, mem, cells, mem[c + 3])
  }

  /** The rewritten form of a reference. */
  ghost function Rewritten(pages: seq<Page>, mem: seq<nat>, cells: set<nat>, w: nat): nat
    requires Grounded(pages, mem, cells) && GoodRef(pages, mem, cells, w)
  {
    if IsCat(w) then w
    else
      RefFacts(pages, mem, cells, w);
      var newer := NewAddr(pages, Off(w));
      if IsPug(w) then ToPug(newer) else ToPom(newer)
  }

  lemma RefFacts(pages: seq<Page>, mem: seq<nat>, cells: set<nat>, w: nat)
    requires Grounded(pages, mem, cells) && GoodRef(pages, mem, cells, w) && !IsCat(w)
    ensures Block(pages, Off(w), 3) && Live(pages, Off(w))
    ensures if IsPom(w) then Off(w) in cells else IsPug(w)
    ensures NewAddr(pages, Off(w)) < LOOM && NewAddr(pages, Off(w)) % 4 == 0
  {
    hide NewAddr, Live;
    var size := if IsPug(w) then 3 else 4;
    BlockLive(pages, Off(w), size, 0);
    BlockAligned(pages, Off(w), size);
    NewDown(pages, Off(w));
    BlockInHeap(pages, Off(w), size);
  }

  lemma BlockInHeap(pages: seq<Page>, post: nat, size: nat)
    requires Wf(pages) && Block(pages, post, size)
    ensures post < HeapEnd(pages)
    ensures size >= 3 ==> Block(pages, post, 3)
  {
  }

  /** A cell of a grounded heap. */
  lemma CellFacts(pages: seq<Page>, mem: seq<nat>, cells: set<nat>, c: nat)
    requires Grounded(pages, mem, cells) && c in cells
    ensures c % 4 == 0 && c + 3 < HeapEnd(pages) <= |mem| && Block(pages, c, 4)
    ensures GoodRef(pages, mem, cells, mem[c + 2]) && GoodRef(pages, mem, cells, mem[c + 3])
  {
  }

  /** A slot of a marked cell. */
  predicate IsField(marks: set<nat>, s: int) {
    s - 2 in marks || s - 3 in marks
  }

  lemma FieldsGrow(few: set<nat>, many: set<nat>)
    requires few <= many
    ensures forall s :: IsField(few, s) ==> IsField(many, s)
  {
  }

  class Relocator {
    const pages: seq<Page>
    const gack: Gack
    const mem: array<nat>
    var marks: set<nat>
    /** The heap before the pass, its cells, and the slots rewritten so far. */
    ghost const was: seq<nat>
    ghost const cells: set<nat>
    ghost var done: set<nat>

    ghost predicate Fixed()
    {
      Grounded(pages, was, cells) && Wf(pages) && Sought(pages, gack) && HeapEnd(pages) <= |was| == mem.Length
    }

    /** A slot the pass may rewrite: a root outside the heap, or a field of a
        marked cell. */
    ghost predicate MayVisit(marked: set<nat>, s: nat)
      requires Fixed()
    {
      s < |was| && (s >= HeapEnd(pages) || IsField(marked, s)) && GoodRef(pages, was, cells, was[s])
    }

    ghost predicate Valid()
      reads this, mem
    {
      && Fixed() && marks <= cells
      && (forall s :: s in done ==> MayVisit(marks, s) && (IsPom(was[s]) ==> Off(was[s]) in marks))
      && (forall s :: 0 <= s < |was| ==>
            mem[s] == if s in done then Rewritten(pages, was, cells, was[s]) else was[s])
    }

    /** `post`'s new address, and whether this is the first time it is asked for. */
    method RelocateMark(post: nat) returns (newer: nat, first: bool)
      requires Fixed() && post in cells
      modifies this`marks
      ensures first == (post !in old(marks)) && marks == old(marks) + {post}
      ensures Live(pages, post) && newer == NewAddr(pages, post)
    {
      first := post !in marks;
      marks := marks + {post};
      RelocateIsNew(pages, gack, post, 4);
      newer := RelocatePost(pages, gack, post);
    }

    lemma IsFixed()
      requires Valid()
      ensures Fixed()
    {
    }

    lemma DoneField(s: nat)
      requires Valid() && s in done
      ensures s >= HeapEnd(pages) || IsField(marks, s)
    {
    }

    lemma MarkIsCell(c: int)
      requires Valid() && c in marks
      ensures c >= 0 && c % 4 == 0
    {
    }

    /** The fields of a cell met for the first time have not been done. */
    lemma FieldsPending(post: nat)
      requires Valid() && post in cells - marks
      ensures MayVisit(marks + {post}, post + 2) && MayVisit(marks + {post}, post + 3)
      ensures post + 2 !in done && post + 3 !in done && post + 2 < HeapEnd(pages) && post + 3 < HeapEnd(pages)
      ensures !IsField(marks, post + 2) && !IsField(marks, post + 3)
    {
      hide Valid, GoodRef, Grounded, Block, Sought, Wf;
      IsFixed();
      CellFacts(pages, was, cells, post);
      assert post - 1 !in marks && post + 1 !in marks by {
        if post - 1 in marks {
          MarkIsCell(post - 1);
        }
        if post + 1 in marks {
          MarkIsCell(post + 1);
        }
      }
      if post + 2 in done {
        DoneField(post + 2);
      }
      if post + 3 in done {
        DoneField(post + 3);
      }
    }

    lemma VisitMono(few: set<nat>, many: set<nat>, s: nat)
      requires Fixed() && MayVisit(few, s) && few <= many
      ensures MayVisit(many, s) && s < |was| && (s < HeapEnd(pages) ==> IsField(few, s))
    {
      hide GoodRef, Grounded;
    }

    lemma MayVisitRoots(roots: seq<nat>)
      requires Valid()
      requires forall i :: 0 <= i < |roots| ==>
          HeapEnd(pages) <= roots[i] < |was| && GoodRef(pages, was, cells, was[roots[i]])
      ensures Fixed() && forall i :: 0 <= i < |roots| ==> MayVisit({}, roots[i])
    {
      hide GoodRef, Grounded, Sought, Rewritten;
    }

    lemma NoFields()
      requires Valid() && marks == {}
      ensures Fixed() && forall s :: !IsField({}, s)
    {
    }

    lemma RootPending(s: nat)
      requires Valid() && s >= HeapEnd(pages)
      ensures !IsField(marks, s)
    {
      hide GoodRef, Sought, Rewritten;
    }

    lemma AllDone(roots: seq<nat>)
      requires Valid() && forall s :: s in done <==> s in roots || IsField(marks, s)
      ensures Relocated(pages, was, mem[..], cells, marks, roots)
    {
      hide GoodRef, Grounded, Sought, Rewritten, IsField;
    }

    /** Rewrite one slot; `more` when it refers to a cell not met before. */
    method RelocateSlot(s: nat) returns (more: bool, post: nat)
      requires Valid() && MayVisit(marks, s) && s !in done
      modifies this`marks, this`done, mem
      ensures Valid() && done == old(done) + {s}
      ensures !more ==> marks == old(marks)
      ensures more ==> post in cells - old(marks) && marks == old(marks) + {post}
                       && MayVisit(marks, post + 2) && MayVisit(marks, post + 3)
                       && post + 2 !in done && post + 3 !in done
                       && !IsField(old(marks), post + 2) && !IsField(old(marks), post + 3)
    {
      hide NewAddr, Live, Block, Sought, Off, GoodRef, Grounded;
      assert GoodRef(pages, was, cells, was[s]);
      var w := mem[s];
      more, post := false, Off(w);
      if IsCat(w) {
        done := done + {s};
        return;
      }
      RefFacts(pages, was, cells, w);
      if !IsPom(w) {
        RelocateIsNew(pages, gack, post, 3);
        mem[s] := ToPug(RelocatePost(pages, gack, post));
        done := done + {s};
        return;
      }
      if post !in marks {
        FieldsPending(post);
      }
      var newer, first := RelocateMark(post);
      mem[s] := ToPom(newer);
      done := done + {s};
      more := first;
    }

    /** Rewrite the slot at `s0` and everything it reaches that is not marked yet.
        Besides that slot, exactly the fields of newly marked cells are done. */
    method RelocateNoun(s0: nat)
      requires Valid() && MayVisit(marks, s0) && s0 !in done
      modifies this`marks, this`done, mem
      ensures Valid() && old(marks) <= marks
      ensures forall s :: s in done <==> s in old(done) || s == s0 || (IsField(marks, s) && !IsField(old(marks), s))
      decreases cells - marks
    {
      hide MayVisit, Valid, Fixed;
      var s: nat := s0;
      IsFixed();
      while true
        invariant Valid() && Fixed() && old(marks) <= marks && MayVisit(marks, s) && s !in done
        invariant forall t :: t in done || t == s <==>
                    t in old(done) || t == s0 || (IsField(marks, t) && !IsField(old(marks), t))
        decreases cells - marks
      {
        var more, post := RelocateSlot(s);
        if !more {
          return;
        }
        ghost var half := marks;
        RelocateNoun(post + 2);
        VisitMono(half, marks, post + 3);
        s := post + 3;
      }
    }

    constructor (pages: seq<Page>, gack: Gack, mem: array<nat>, ghost cells: set<nat>)
      requires Wf(pages) && Sought(pages, gack) && Grounded(pages, mem[..], cells)
      ensures Valid() && marks == {} && done == {}
      ensures this.pages == pages && this.gack == gack && this.mem == mem && was == mem[..] && this.cells == cells
    {
      this.pages, this.gack, this.mem := pages, gack, mem;
      marks := {};
      was, this.cells, done := mem[..], cells, {};
    }

    /** Rewrite every root slot and everything they reach. */
    method RelocateRoots(roots: seq<nat>)
      requires Valid() && marks == {} && done == {}
      requires forall i, j :: 0 <= i < j < |roots| ==> roots[i] != roots[j]
      requires forall i :: 0 <= i < |roots| ==> roots[i] >= HeapEnd(pages) && MayVisit({}, roots[i])
      modifies this`marks, this`done, mem
      ensures Relocated(pages, was, mem[..], cells, marks, roots)
    {
      hide *;
      NoFields();
      var i := 0;
      while i < |roots|
        invariant i <= |roots| && Valid() && Fixed()
        invariant forall s :: s in done <==> s in roots[..i] || IsField(marks, s)
      {
        VisitMono({}, marks, roots[i]);
        RootPending(roots[i]);
        ghost var before := marks;
        RelocateNoun(roots[i]);
        FieldsGrow(before, marks);
        i := i + 1;
      }
      assert roots[..i] == roots;
      AllDone(roots);
    }
  }

  /** The roots, the marked cells' fields, and nothing else, have been rewritten,
      and whatever they refer to is marked. */
  ghost predicate Relocated(pages: seq<Page>, was: seq<nat>, mem: seq<nat>, cells: set<nat>, marks: set<nat>,
        roots: seq<nat>) {
    && Grounded(pages, was, cells) && marks <= cells && |mem| == |was|
    && (forall s :: 0 <= s < |was| && (s in roots || IsField(marks, s)) ==>
          GoodRef(pages, was, cells, was[s]) && mem[s] == Rewritten(pages, was, cells, was[s])
          && (IsPom(was[s]) ==> Off(was[s]) in marks))
    && (forall s :: 0 <= s < |was| && s !in roots && !IsField(marks, s) ==> mem[s] == was[s])
  }
}
