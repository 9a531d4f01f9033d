/** Page allocation: a directory that says what each page is, and the list of free
    runs, in order and never touching. */
module PageHeap {
  import opened PageList

  /** What the directory says of a page: free, the first of an allocation (or a
      chunk page), or a later one. */
  datatype Kind = Free | Head | Rest

  datatype Run = Run(pag: nat, siz: nat) {
    function End(): nat { pag + siz }
  }

  ghost function RunsOf(dells: map<nat, Dell>, order: seq<nat>): (runs: seq<Run>)
    requires forall x :: x in order ==> x in dells
    ensures |runs| == |order| && forall i :: 0 <= i < |runs| ==>
        runs[i] == Run(dells[order[i]].pag, dells[order[i]].siz)
  {
    seq(|order|, i requires 0 <= i < |order| => Run(dells[order[i]].pag, dells[order[i]].siz))
  }

  /** Runs in order, none empty, no two touching. */
  ghost predicate Sorted(runs: seq<Run>) {
    && (forall i :: 0 <= i < |runs| ==> runs[i].siz > 0)
    && (forall i, j :: 0 <= i < j < |runs| ==> runs[i].End() < runs[j].pag)
  }

  predicate Covers(run: Run, p: nat) {
    run.pag <= p < run.End()
  }

  ghost predicate Listed(runs: seq<Run>, p: nat) {
    exists i :: 0 <= i < |runs| && Covers(runs[i], p)
  }

  /** The runs are exactly the free pages, and the last page is in use. */
  ghost predicate Names(runs: seq<Run>, dir: seq<Kind>) {
    && (forall p :: 0 <= p < |dir| ==> (dir[p].Free? <==> Listed(runs, p)))
    && (forall i :: 0 <= i < |runs| ==> runs[i].End() < |dir|)
  }

  ghost predicate Good(runs: seq<Run>, dir: seq<Kind>) {
    Sorted(runs) && Names(runs, dir)
  }

  /** The directory with a stretch of it set to a kind. */
  function Fill(dir: seq<Kind>, lo: nat, hi: nat, kind: Kind): (r: seq<Kind>)
    requires lo <= hi <= |dir|
    ensures |r| == |dir| && forall p :: 0 <= p < |dir| ==> r[p] == if lo <= p < hi then kind else dir[p]
  {
    seq(|dir|, p requires 0 <= p < |dir| => if lo <= p < hi then kind else dir[p])
  }

  /** A free run does not reach into pages in use. */
  lemma RunsAround(runs: seq<Run>, dir: seq<Kind>, lo: nat, hi: nat, i: nat)
    requires Good(runs, dir) && lo < hi <= |dir| && i < |runs| && forall p :: lo <= p < hi ==> !dir[p].Free?
    ensures runs[i].End() <= lo || hi <= runs[i].pag
  {
    var p := if runs[i].pag <= lo then lo else runs[i].pag;
    assert Covers(runs[i], p) ==> Listed(runs, p);
  }

  function Inserted(runs: seq<Run>, i: nat, run: Run): seq<Run>
    requires i <= |runs|
  {
    runs[..i] + [run] + runs[i..]
  }

  lemma InsertedAt(runs: seq<Run>, i: nat, run: Run, k: nat)
    requires i <= |runs| && k <= |runs|
    ensures Inserted(runs, i, run)[k] == if k < i then runs[k] else if k == i then run else runs[k - 1]
  {
  }

  lemma SortedInsert(runs: seq<Run>, i: nat, run: Run)
    requires Sorted(runs) && i <= |runs| && run.siz > 0
    requires (i > 0 ==> runs[i - 1].End() < run.pag) && (i < |runs| ==> run.End() < runs[i].pag)
    ensures Sorted(Inserted(runs, i, run))
  {
    var now := Inserted(runs, i, run);
    hide Inserted;
    forall k | 0 <= k < |now|
      ensures now[k].siz > 0
    {
      InsertedAt(runs, i, run, k);
    }
    forall k, l | 0 <= k < l < |now|
      ensures now[k].End() < now[l].pag
    {
      InsertedAt(runs, i, run, k);
      InsertedAt(runs, i, run, l);
      if i > 0 && k < i - 1 {
        assert runs[k].End() < runs[i - 1].pag;
      }
      if i < |runs| && l > i + 1 {
        assert runs[i].End() < runs[l - 1].pag;
      }
    }
  }

  /** Freed pages that touch no run become a run. */
  lemma GoodInsert(runs: seq<Run>, dir: seq<Kind>, i: nat, run: Run)
    requires Good(runs, dir) && i <= |runs| && run.siz > 0 && run.End() < |dir|
    requires (i > 0 ==> runs[i - 1].End() < run.pag) && (i < |runs| ==> run.End() < runs[i].pag)
    ensures Good(Inserted(runs, i, run), Fill(dir, run.pag, run.End(), Free))
  {
    hide Sorted, Inserted;
    SortedInsert(runs, i, run);
    var now, d := Inserted(runs, i, run), Fill(dir, run.pag, run.End(), Free);
    InsertedLength(runs, i, run);
    forall k | 0 <= k < |now|
      ensures now[k].End() < |d|
    {
      InsertedAt(runs, i, run, k);
    }
    forall p | 0 <= p < |d|
      ensures d[p].Free? <==> Listed(now, p)
    {
      if Listed(runs, p) {
        var k :| 0 <= k < |runs| && Covers(runs[k], p);
        InsertedAt(runs, i, run, if k < i then k else k + 1);
      }
      if Covers(run, p) {
        InsertedAt(runs, i, run, i);
      }
      if Listed(now, p) {
        var k :| 0 <= k < |now| && Covers(now[k], p);
        InsertedAt(runs, i, run, k);
      }
    }
  }

  lemma InsertedLength(runs: seq<Run>, i: nat, run: Run)
    requires i <= |runs|
    ensures |Inserted(runs, i, run)| == |runs| + 1
  {
  }

  /** Freed pages that touch one run, before or after, join it. */
  lemma GoodJoin(runs: seq<Run>, dir: seq<Kind>, i: nat, lo: nat, hi: nat)
    requires Good(runs, dir) && i < |runs| && lo < hi < |dir|
    requires runs[i].End() == lo || hi == runs[i].pag
    requires (i > 0 ==> runs[i - 1].End() < lo) && (i + 1 < |runs| ==> hi < runs[i + 1].pag)
    ensures var joined := Run(if hi == runs[i].pag then lo else runs[i].pag, runs[i].siz + (hi - lo));
            Good(runs[i := joined], Fill(dir, lo, hi, Free))
  {
    var joined := Run(if hi == runs[i].pag then lo else runs[i].pag, runs[i].siz + (hi - lo));
    assert runs[i].siz > 0;
    ReplaceSorted(runs, i, joined);
    ReplaceNames(runs, dir, i, joined, Fill(dir, lo, hi, Free));
  }

  lemma ReplaceSorted(runs: seq<Run>, i: nat, run: Run)
    requires Sorted(runs) && i < |runs| && run.siz > 0
    requires (i > 0 ==> runs[i - 1].End() < run.pag) && (i + 1 < |runs| ==> run.End() < runs[i + 1].pag)
    ensures Sorted(runs[i := run])
  {
    var now := runs[i := run];
    forall k, l | 0 <= k < l < |now|
      ensures now[k].End() < now[l].pag
    {
      assert k < i - 1 ==> runs[k].End() < runs[i - 1].pag;
      assert l > i + 1 ==> runs[i + 1].End() < runs[l].pag;
    }
  }

  /** A run changes, and the directory with it. */
  lemma ReplaceNames(runs: seq<Run>, dir: seq<Kind>, i: nat, run: Run, d: seq<Kind>)
    requires Good(runs, dir) && i < |runs| && |d| == |dir| && run.End() < |d|
    requires forall p :: 0 <= p < |d| ==> (d[p].Free? <==> Covers(run, p) || (dir[p].Free? && !Covers(runs[i], p)))
    ensures Names(runs[i := run], d)
  {
    hide Sorted;
    var now := runs[i := run];
    forall p | 0 <= p < |d|
      ensures d[p].Free? <==> Listed(now, p)
    {
      if Listed(runs, p) && !Covers(runs[i], p) {
        var k :| 0 <= k < |runs| && Covers(runs[k], p);
        assert Covers(now[k], p);
      }
      if Covers(run, p) {
        assert Covers(now[i], p);
      }
      if Listed(now, p) {
        var k :| 0 <= k < |now| && Covers(now[k], p);
        if k != i {
          assert Covers(runs[k], p);
          Apart(runs, k, i, p);
        }
      }
    }
  }

  function Merged(runs: seq<Run>, i: nat, joined: Run): (now: seq<Run>)
    requires i + 1 < |runs|
    ensures |now| == |runs| - 1
    ensures forall k :: 0 <= k < |now| ==> now[k] == if k < i then runs[k] else if k == i then joined else runs[k + 1]
  {
    (runs[..i + 1] + runs[i + 2..])[i := joined]
  }

  /** Freed pages that close the gap between two runs make them one. */
  lemma GoodMerge(runs: seq<Run>, dir: seq<Kind>, i: nat, lo: nat, hi: nat)
    requires Good(runs, dir) && i + 1 < |runs| && lo < hi < |dir| && runs[i].End() == lo && hi == runs[i + 1].pag
    ensures var joined := Run(runs[i].pag, runs[i].siz + (hi - lo) + runs[i + 1].siz);
            Good(Merged(runs, i, joined), Fill(dir, lo, hi, Free))
  {
    var joined := Run(runs[i].pag, runs[i].siz + (hi - lo) + runs[i + 1].siz);
    var now, d := Merged(runs, i, joined), Fill(dir, lo, hi, Free);
    assert runs[i].End() < runs[i + 1].pag;
    MergedSorted(runs, i, joined);
    hide *;
    MergedNames(runs, dir, i, lo, hi, joined);
  }

  lemma MergedNames(runs: seq<Run>, dir: seq<Kind>, i: nat, lo: nat, hi: nat, joined: Run)
    requires Names(runs, dir) && i + 1 < |runs| && lo < hi < |dir| && runs[i].End() == lo && hi == runs[i + 1].pag
    requires joined == Run(runs[i].pag, runs[i].siz + (hi - lo) + runs[i + 1].siz)
    ensures Names(Merged(runs, i, joined), Fill(dir, lo, hi, Free))
  {
    var now, d := Merged(runs, i, joined), Fill(dir, lo, hi, Free);
    forall p | 0 <= p < |d|
      ensures d[p].Free? <==> Listed(now, p)
    {
      assert Covers(joined, p) <==> Covers(runs[i], p) || lo <= p < hi || Covers(runs[i + 1], p);
      if Listed(runs, p) {
        var k :| 0 <= k < |runs| && Covers(runs[k], p);
        assert Covers(now[if k <= i then k else k - 1], p);
      }
      if lo <= p < hi {
        assert Covers(now[i], p);
      }
      if Listed(now, p) {
        var k :| 0 <= k < |now| && Covers(now[k], p);
        if k < i {
          assert Covers(runs[k], p);
        } else if k > i {
          assert Covers(runs[k + 1], p);
        }
      }
    }
  }

  lemma MergedSorted(runs: seq<Run>, i: nat, joined: Run)
    requires Sorted(runs) && i + 1 < |runs| && joined.siz > 0 && joined.pag == runs[i].pag
        && joined.End() == runs[i + 1].End()
    ensures Sorted(Merged(runs, i, joined))
  {
    var now := Merged(runs, i, joined);
    forall k, l | 0 <= k < l < |now|
      ensures now[k].End() < now[l].pag
    {
      var a, b := if k < i then k else k + 1, if l <= i then l else l + 1;
      assert runs[a].End() < runs[b].pag;
    }
  }

  /** Runs do not share a page. */
  lemma Apart(runs: seq<Run>, i: nat, j: nat, p: nat)
    requires Sorted(runs) && i < |runs| && j < |runs| && i != j && Covers(runs[i], p)
    ensures !Covers(runs[j], p)
  {
    if i < j {
      assert runs[i].End() < runs[j].pag;
    } else {
      assert runs[j].End() < runs[i].pag;
    }
  }

  function Without(runs: seq<Run>, i: nat): (left: seq<Run>)
    requires i < |runs|
    ensures |left| == |runs| - 1 && forall k :: 0 <= k < |left| ==> left[k] == if k < i then runs[k] else runs[k + 1]
  {
    runs[..i] + runs[i + 1..]
  }

  lemma WithoutSorted(runs: seq<Run>, i: nat)
    requires Sorted(runs) && i < |runs|
    ensures Sorted(Without(runs, i))
  {
    forall k, l | 0 <= k < l < |runs| - 1
      ensures Without(runs, i)[k].End() < Without(runs, i)[l].pag
    {
      var a, b := if k < i then k else k + 1, if l < i then l else l + 1;
      assert runs[a].End() < runs[b].pag;
    }
  }

  /** The whole of a run is taken. */
  lemma GoodTake(runs: seq<Run>, dir: seq<Kind>, i: nat, now: seq<Kind>)
    requires Good(runs, dir) && i < |runs| && |now| == |dir|
    requires forall p :: 0 <= p < |dir| ==> if Covers(runs[i], p) then !now[p].Free? else now[p] == dir[p]
    ensures Good(Without(runs, i), now)
  {
    WithoutSorted(runs, i);
    hide Sorted, Listed, Without;
    forall p | 0 <= p < |now|
      ensures now[p].Free? <==> Listed(Without(runs, i), p)
    {
      WithoutListed(runs, i, p);
    }
  }

  /** The pages a run covered are no longer listed once it is taken. */
  lemma WithoutListed(runs: seq<Run>, i: nat, p: nat)
    requires Sorted(runs) && i < |runs|
    ensures Listed(Without(runs, i), p) <==> Listed(runs, p) && !Covers(runs[i], p)
  {
    hide Sorted;
    var left := Without(runs, i);
    if Listed(runs, p) && !Covers(runs[i], p) {
      var k :| 0 <= k < |runs| && Covers(runs[k], p);
      assert Covers(left[if k < i then k else k - 1], p);
    }
    if Listed(left, p) {
      var k :| 0 <= k < |left| && Covers(left[k], p);
      Apart(runs, if k < i then k else k + 1, i, p);
      assert Covers(runs[if k < i then k else k + 1], p);
    }
  }

  /** The first pages of a run are taken. */
  lemma GoodTrim(runs: seq<Run>, dir: seq<Kind>, i: nat, siz: nat, now: seq<Kind>)
    requires Good(runs, dir) && i < |runs| && 0 < siz < runs[i].siz && |now| == |dir|
    requires forall p :: 0 <= p < |dir| ==>
        if runs[i].pag <= p < runs[i].pag + siz then !now[p].Free? else now[p] == dir[p]
    ensures Good(runs[i := Run(runs[i].pag + siz, runs[i].siz - siz)], now)
  {
    var run := Run(runs[i].pag + siz, runs[i].siz - siz);
    ReplaceSorted(runs, i, run);
    forall p | 0 <= p < |now|
      ensures now[p].Free? <==> Covers(run, p) || (dir[p].Free? && !Covers(runs[i], p))
    {
      if Covers(run, p) {
        assert Listed(runs, p);
      }
    }
    ReplaceNames(runs, dir, i, run, now);
  }

  /** The heap grows by pages in use. */
  lemma GoodGrow(runs: seq<Run>, dir: seq<Kind>, more: seq<Kind>)
    requires Good(runs, dir) && forall p :: 0 <= p < |more| ==> !more[p].Free?
    ensures Good(runs, dir + more)
  {
    forall p | 0 <= p < |dir + more|
      ensures (dir + more)[p].Free? <==> Listed(runs, p)
    {
    }
  }

  /** The heap shrinks to below the pages it gives up: back to the last page in use. */
  lemma GoodShrink(runs: seq<Run>, dir: seq<Kind>, len: nat)
    requires Good(runs, dir) && len <= |dir| && forall i :: 0 <= i < |runs| ==> runs[i].End() < len
    ensures Good(runs, dir[..len])
  {
  }

  /** ... with the last run, if the pages given up come right after it. */
  lemma GoodShrinkRun(runs: seq<Run>, dir: seq<Kind>)
    requires Good(runs, dir) && |runs| > 0
    ensures Good(runs[..|runs| - 1], dir[..runs[|runs| - 1].pag])
  {
    var n := |runs| - 1;
    var left, d := runs[..n], dir[..runs[n].pag];
    forall p | 0 <= p < |d|
      ensures d[p].Free? <==> Listed(left, p)
    {
      if Listed(runs, p) {
        var k :| 0 <= k < |runs| && Covers(runs[k], p);
        assert left[k] == runs[k];
      }
    }
  }

  /** The runs without the first pages of one. */
  function Trimmed(runs: seq<Run>, i: nat, siz: nat): seq<Run>
    requires i < |runs| && siz <= runs[i].siz
  {
    if runs[i].siz == siz then Without(runs, i) else runs[i := Run(runs[i].pag + siz, runs[i].siz - siz)]
  }

  /** The first run that is large enough. */
  function FirstFit(runs: seq<Run>, siz: nat): (i: nat)
    ensures i <= |runs| && (i < |runs| ==> runs[i].siz >= siz) && forall j :: 0 <= j < i ==> runs[j].siz < siz
  {
    if |runs| == 0 || runs[0].siz >= siz then 0 else 1 + FirstFit(runs[1..], siz)
  }

  lemma FirstIs(runs: seq<Run>, siz: nat, i: nat)
    requires i <= |runs| && (i < |runs| ==> runs[i].siz >= siz) && forall j :: 0 <= j < i ==> runs[j].siz < siz
    ensures FirstFit(runs, siz) == i
  {
  }

  /** A free page that no run covers spoils the list. */
  lemma Unlisted(runs: seq<Run>, dir: seq<Kind>, p: nat)
    requires p < |dir| && dir[p].Free? && !Listed(runs, p)
    ensures !Good(runs, dir)
  {
  }

  /** One past the last page of the allocation that starts at `pag`. */
  function BlockEnd(dir: seq<Kind>, pag: nat): (end: nat)
    requires pag < |dir|
    ensures pag < end <= |dir| && (forall p :: pag < p < end ==> dir[p].Rest?) && (end < |dir| ==> !dir[end].Rest?)
    decreases |dir| - pag
  {
    if pag + 1 < |dir| && dir[pag + 1].Rest? then BlockEnd(dir, pag + 1) else pag + 1
  }

  lemma BlockEndIs(dir: seq<Kind>, pag: nat, end: nat)
    requires pag < end <= |dir| && (forall p :: pag < p < end ==> dir[p].Rest?) && (end < |dir| ==> !dir[end].Rest?)
    ensures BlockEnd(dir, pag) == end
  {
    var e := BlockEnd(dir, pag);
  }

  lemma RunsResized(was: map<nat, Dell>, now: map<nat, Dell>, order: seq<nat>, i: nat, pag: nat, siz: nat)
    requires (forall x :: x in order ==> x in was && x in now) && PageList.Distinct(order) && i < |order|
    requires now[order[i]].pag == pag && now[order[i]].siz == siz && forall x :: x in was && x != order[i] ==>
        x in now && now[x] == was[x]
    ensures RunsOf(now, order) == RunsOf(was, order)[i := Run(pag, siz)]
  {
    forall k | 0 <= k < |order|
      ensures RunsOf(now, order)[k] == RunsOf(was, order)[i := Run(pag, siz)][k]
    {
      if k < i {
        assert order[k] != order[i];
      } else if k > i {
        assert order[i] != order[k];
      }
    }
  }

  lemma RunsDropped(was: map<nat, Dell>, now: map<nat, Dell>, order: seq<nat>, i: nat)
    requires (forall x :: x in order ==> x in was) && i < |order| && SameRuns(was, now)
    ensures forall x :: x in Dropped(order, i) ==> x in now
    ensures RunsOf(now, Dropped(order, i)) == Without(RunsOf(was, order), i)
  {
    forall k | 0 <= k < |order| - 1
      ensures Dropped(order, i)[k] in now
      ensures now[Dropped(order, i)[k]].pag == Without(RunsOf(was, order), i)[k].pag
          && now[Dropped(order, i)[k]].siz == Without(RunsOf(was, order), i)[k].siz
    {
      assert Dropped(order, i)[k] == order[if k < i then k else k + 1];
    }
  }

  lemma LinkThere(dells: map<nat, Dell>, order: seq<nat>, fre: nat, erf: nat, i: nat)
    requires Links(dells, order, fre, erf) && i < |order|
    ensures order[i] in dells && order[i] != 0 && LinkAt(dells, order, i)
  {
    assert LinkAt(dells, order, i);
  }

  /** A later page comes after another of its allocation. */
  predicate Blocked(dir: seq<Kind>) {
    forall p :: 0 <= p < |dir| && dir[p].Rest? ==> p > 0 && !dir[p - 1].Free?
  }

  /** The allocations: where each ends, by its first page. */
  function Blocks(dir: seq<Kind>): map<nat, nat> {
    map p: nat | p < |dir| && dir[p].Head? :: BlockEnd(dir, p)
  }

  predicate Vacant(dir: seq<Kind>, p: nat) {
    p < |dir| && dir[p].Free?
  }

  /** Allocations share no page. */
  lemma BlocksApart(dir: seq<Kind>, p: nat, q: nat)
    requires p in Blocks(dir) && q in Blocks(dir) && p < q
    ensures Blocks(dir)[p] <= q
  {
  }

  lemma BlockIn(dir: seq<Kind>, p: nat)
    requires p < |dir|
    ensures p in Blocks(dir) <==> dir[p].Head?
    ensures p in Blocks(dir) ==> Blocks(dir)[p] == BlockEnd(dir, p)
  {
  }

  /** An allocation is the same in a directory that agrees on its pages, and on the
      next not being one of them. */
  lemma SameBlock(was: seq<Kind>, now: seq<Kind>, p: nat)
    requires p in Blocks(was) && Blocks(was)[p] <= |now|
    requires forall q :: p <= q < Blocks(was)[p] ==> now[q] == was[q]
    requires Blocks(was)[p] < |now| ==> !now[Blocks(was)[p]].Rest?
    ensures p in Blocks(now) && Blocks(now)[p] == Blocks(was)[p]
  {
    BlockEndIs(now, p, BlockEnd(was, p));
  }

  /** Marking pages that were free, or beyond the end, adds one allocation. */
  lemma BlocksMarked(was: seq<Kind>, now: seq<Kind>, pag: nat, siz: nat)
    requires Marked(was, now, pag, siz) && Blocked(was) && siz > 0
    ensures Blocked(now) && pag !in Blocks(was) && Blocks(now) == Blocks(was)[pag := pag + siz]
  {
    MarkedNew(was, now, pag, siz);
    MarkedHeads(was, now, pag, siz);
    hide Blocks, Marked, Blocked;
    forall p: nat | p in Blocks(was)
      ensures p in Blocks(now) && Blocks(now)[p] == Blocks(was)[p]
    {
      MarkedBlock(was, now, pag, siz, p);
    }
  }

  lemma MarkedNew(was: seq<Kind>, now: seq<Kind>, pag: nat, siz: nat)
    requires Marked(was, now, pag, siz) && Blocked(was) && siz > 0
    ensures Blocked(now) && pag in Blocks(now) && Blocks(now)[pag] == pag + siz
  {
    if pag + siz < |was| {
      assert was[pag + siz - 1].Free? && !was[pag + siz].Rest?;
    }
    BlockEndIs(now, pag, pag + siz);
  }

  lemma MarkedHeads(was: seq<Kind>, now: seq<Kind>, pag: nat, siz: nat)
    requires Marked(was, now, pag, siz) && siz > 0
    ensures pag !in Blocks(was)
    ensures forall p: nat :: p in Blocks(now) ==> p in Blocks(was) || p == pag
  {
    forall p: nat | p in Blocks(now)
      ensures p in Blocks(was) || p == pag
    {
      BlockIn(now, p);
    }
  }

  lemma MarkedBlock(was: seq<Kind>, now: seq<Kind>, pag: nat, siz: nat, p: nat)
    requires Marked(was, now, pag, siz) && siz > 0 && p in Blocks(was)
    ensures p in Blocks(now) && Blocks(now)[p] == Blocks(was)[p]
  {
    BlockIn(was, p);
    var end := Blocks(was)[p];
    assert forall q :: p <= q < end ==> !was[q].Free?;
    var last := end - 1;
    assert !was[last].Free?;
    SameBlock(was, now, p);
  }

  /** What freeing leaves, page by page. */
  lemma FreedAt(was: seq<Kind>, now: seq<Kind>, pag: nat, siz: nat)
    requires pag + siz <= |was| && Freed(was, now, pag, siz)
    ensures |now| <= |was| && forall p :: 0 <= p < |now| ==> now[p] == if pag <= p < pag + siz then Free else was[p]
    ensures |now| < |was| ==> |now| <= pag && pag + siz == |was| && forall p :: |now| <= p < pag ==> was[p].Free?
    ensures |now| == |was| ==> pag + siz < |was| || siz == 0
  {
  }

  /** Freeing one removes it. */
  lemma BlocksFreed(was: seq<Kind>, now: seq<Kind>, pag: nat, siz: nat)
    requires Blocked(was) && pag in Blocks(was) && pag + siz == Blocks(was)[pag] && Freed(was, now, pag, siz)
    ensures Blocked(now) && Blocks(now) == Blocks(was) - {pag}
  {
    hide Blocks, Freed, Blocked;
    HeadIn(was, pag);
    FreedAt(was, now, pag, siz);
    BlockIn(was, pag);
    forall p: nat | p in Blocks(was) && p != pag
      ensures p in Blocks(now) && Blocks(now)[p] == Blocks(was)[p]
    {
      if p < pag {
        BlocksApart(was, p, pag);
      } else {
        BlocksApart(was, pag, p);
      }
      KeptBlock(was, now, pag, siz, p);
    }
    forall p: nat | p in Blocks(now)
      ensures p in Blocks(was) && p != pag
    {
      HeadIn(now, p);
      BlockIn(now, p);
      BlockIn(was, p);
    }
    FreedBlocked(was, now, pag, siz);
  }

  lemma HeadIn(dir: seq<Kind>, p: nat)
    ensures p in Blocks(dir) ==> p < |dir| && p < Blocks(dir)[p] <= |dir|
  {
  }

  lemma FreedBlocked(was: seq<Kind>, now: seq<Kind>, pag: nat, siz: nat)
    requires Blocked(was) && pag < |was| && pag + siz == BlockEnd(was, pag) && Freed(was, now, pag, siz)
    ensures Blocked(now)
  {
  }

  lemma KeptBlock(was: seq<Kind>, now: seq<Kind>, pag: nat, siz: nat, p: nat)
    requires Blocked(was) && pag + siz <= |was| && Freed(was, now, pag, siz)
    requires p in Blocks(was) && (Blocks(was)[p] <= pag || pag + siz <= p)
    ensures p in Blocks(now) && Blocks(now)[p] == Blocks(was)[p]
  {
    FreedAt(was, now, pag, siz);
    BlockIn(was, p);
    var end := Blocks(was)[p];
    hide Freed, Blocks, Blocked;
    assert forall q :: p <= q < end ==> !was[q].Free?;
    if |now| < |was| {
      assert |now| < pag ==> was[|now|].Free?;
    }
    SameBlock(was, now, p);
  }

  /** Freeing the last pages of one leaves the rest of it. */
  lemma BlocksCut(was: seq<Kind>, now: seq<Kind>, head: nat, pag: nat, siz: nat)
    requires Blocked(was) && head in Blocks(was) && head < pag < Blocks(was)[head] == pag + siz
        && Freed(was, now, pag, siz)
    ensures pag < |was| && pag + siz == BlockEnd(was, pag) && !was[pag].Free?
    ensures Blocked(now) && Blocks(now) == Blocks(was)[head := pag]
  {
    hide Freed, Blocks, Blocked;
    HeadIn(was, head);
    BlockIn(was, head);
    CutEnd(was, head, pag);
    FreedAt(was, now, pag, siz);
    CutHead(was, now, head, pag, siz);
    FreedBlocked(was, now, pag, siz);
    forall p: nat | p in Blocks(was) && p != head
      ensures p in Blocks(now) && Blocks(now)[p] == Blocks(was)[p]
    {
      if p < head {
        BlocksApart(was, p, head);
      } else {
        BlocksApart(was, head, p);
      }
      KeptBlock(was, now, pag, siz, p);
    }
    forall p: nat | p in Blocks(now)
      ensures p in Blocks(was)
    {
      HeadIn(now, p);
      BlockIn(now, p);
      BlockIn(was, p);
    }
  }

  lemma CutHead(was: seq<Kind>, now: seq<Kind>, head: nat, pag: nat, siz: nat)
    requires head in Blocks(was) && head < pag < Blocks(was)[head] == pag + siz && Freed(was, now, pag, siz)
    ensures head in Blocks(now) && Blocks(now)[head] == pag
  {
    FreedAt(was, now, pag, siz);
    BlockIn(was, head);
    var last := pag - 1;
    assert !was[last].Free?;
    BlockEndIs(now, head, pag);
  }

  /** Where allocations are. */
  lemma BlocksPlaced(dir: seq<Kind>, book: nat)
    ensures forall p :: p in Blocks(dir) - {book} ==> p < (Blocks(dir) - {book})[p] <= |dir|
    ensures forall p, q :: p in Blocks(dir) - {book} && q in Blocks(dir) - {book} && p < q ==>
        (Blocks(dir) - {book})[p] <= q
  {
    forall p: nat | p in Blocks(dir)
      ensures p < Blocks(dir)[p] <= |dir|
    {
      HeadIn(dir, p);
    }
    forall p: nat, q: nat | p in Blocks(dir) && q in Blocks(dir) && p < q
      ensures Blocks(dir)[p] <= q
    {
      BlocksApart(dir, p, q);
    }
  }

  /** A directory whose first `lost` pages are taken for pages in use. */
  ghost function Masked(dir: seq<Kind>, lost: nat): seq<Kind>
    requires lost <= |dir|
  {
    Fill(dir, 0, lost, Head)
  }

  lemma MaskedFill(dir: seq<Kind>, lost: nat, lo: nat, hi: nat, kind: Kind)
    requires lost <= lo <= hi <= |dir|
    ensures Masked(Fill(dir, lo, hi, kind), lost) == Fill(Masked(dir, lost), lo, hi, kind)
  {
  }

  lemma MaskedCut(dir: seq<Kind>, lost: nat, len: nat)
    requires lost <= len <= |dir|
    ensures Masked(dir[..len], lost) == Masked(dir, lost)[..len]
  {
  }

  lemma MaskedMore(dir: seq<Kind>, lost: nat, more: seq<Kind>)
    requires lost <= |dir|
    ensures Masked(dir + more, lost) == Masked(dir, lost) + more
  {
  }

  lemma MaskedEnd(dir: seq<Kind>, lost: nat, pag: nat)
    requires lost <= pag < |dir| && !dir[pag].Free?
    ensures BlockEnd(Masked(dir, lost), pag) == BlockEnd(dir, pag)
  {
    BlockEndIs(Masked(dir, lost), pag, BlockEnd(dir, pag));
  }

  /** The free list names all the free pages exactly when none have been lost. */
  lemma LostSpoils(runs: seq<Run>, dir: seq<Kind>, lost: nat)
    requires lost <= |dir| && (forall p :: 0 <= p < lost ==> dir[p].Free?) && Good(runs, Masked(dir, lost))
    ensures Good(runs, dir) <==> lost == 0
  {
    if lost == 0 {
      assert Masked(dir, 0) == dir;
    } else {
      assert !Masked(dir, lost)[0].Free?;
      Unlisted(runs, dir, 0);
    }
  }

  /** Losing the first pages of a run that starts at page 0. */
  lemma LostGood(runs: seq<Run>, dir: seq<Kind>, lost: nat, i: nat, siz: nat)
    requires lost <= |dir| && Good(runs, Masked(dir, lost)) && i < |runs| && runs[i].pag == 0 && 0 < siz <= runs[i].siz
    ensures lost == 0 && siz < |dir| && forall p :: 0 <= p < siz ==> dir[p].Free?
    ensures Good(Trimmed(runs, i, siz), Masked(dir, siz))
  {
    hide Good;
    TakenFree(runs, Masked(dir, lost), i, siz);
    MaskedAt(dir, lost);
    assert Masked(dir, lost)[0].Free? && lost == 0;
    assert Masked(dir, lost) == dir;
    if runs[i].siz == siz {
      GoodTake(runs, dir, i, Masked(dir, siz));
    } else {
      GoodTrim(runs, dir, i, siz, Masked(dir, siz));
    }
  }

  /** Words in whole pages. */
  function Whole(n: nat): (w: nat)
    ensures n <= w < n + 4096 && w % 4096 == 0
  {
    (n + 4095) / 4096 * 4096
  }

  /** A directory sized for so many entries has no room for those of its own pages:
      rounding up leaves it too few. */
  predicate Overfills(n: nat) {
    Whole(n) - n < Whole(n) / 4096
  }

  /** The directory's allocation is as long as the entries it has room for. */
  ghost predicate Shelved(dir: seq<Kind>, book: nat, room: nat) {
    book in Blocks(dir) && room % 4096 == 0 && Blocks(dir)[book] == book + room / 4096
  }

  class Pages {
    var dir: seq<Kind>
    const list: FreeList
    /** The page the directory itself starts at, and the entries it has room for. */
    var book: nat
    var room: nat
    /** How many pages, from page 0, have been lost: free, and on no list. */
    ghost var lost: nat

    ghost function Runs(): seq<Run>
      reads list
      requires list.Linked()
    {
      OrderIn(list.dells, list.order, list.fre, list.erf);
      RunsOf(list.dells, list.order)
    }

    /** The page that the first run to fit starts at, or zero for none. */
    ghost function FitAt(siz: nat): nat
      reads list
      requires list.Linked()
    {
      var f := FirstFit(Runs(), siz);
      if f < |Runs()| then Runs()[f].pag else 0
    }

    /** The first run that fits starts at page 0. */
    ghost predicate LosesZero(siz: nat)
      reads list
      requires list.Linked()
    {
      FitAt(siz) == 0 && FirstFit(Runs(), siz) < |Runs()|
    }

    /** The directory has room for every entry. The one at `room` would be the first
        word after its pages, and belongs to whatever is there. */
    ghost predicate Roomy()
      reads this`dir, this`room
    {
      |dir| <= room
    }

    ghost predicate Sized()
      reads this
    {
      Shelved(dir, book, room)
    }

    /** Asked for so many pages, the heap has to grow, the directory has to move, and
        its new place is too short: it is sized without its own pages. */
    ghost predicate Short(siz: nat)
      reads this`dir, this`room, list
      requires list.Linked()
    {
      FitAt(siz) == 0 && |dir| <= room < |dir| + siz && Overfills(|dir| + siz)
    }

    ghost predicate Lost()
      reads this`dir, this`lost
    {
      lost <= |dir| && forall p :: 0 <= p < lost ==> dir[p].Free?
    }

    ghost function Seen(): seq<Kind>
      requires Lost()
      reads this`dir, this`lost
    {
      Masked(dir, lost)
    }

    /** But for the pages that have been lost, the free list names exactly the free
        pages; the directory is in use. */
    ghost predicate Valid()
      reads this, list
    {
      && list.Linked() && Lost() && Good(Runs(), Seen()) && Blocked(dir)
      && lost <= book < |dir| && dir[book].Head?
    }

    /** The allocations other than the directory. */
    ghost function Held(): map<nat, nat>
      reads this`dir, this`book
    {
      Blocks(dir) - {book}
    }

    constructor (dir: seq<Kind>, book: nat, room: nat)
      requires (forall p :: 0 <= p < |dir| ==> !dir[p].Free?) && Blocked(dir) && book < |dir| && dir[book].Head?
      ensures Valid() && fresh(list) && this.dir == dir && this.book == book && this.room == room && lost == 0
    {
      this.dir, this.book, this.room, lost := dir, book, room, 0;
      list := new FreeList();
    }

    /** Say of a stretch of pages that they are one allocation. */
    method Mark(pag: nat, siz: nat)
      requires siz > 0 && pag + siz <= |dir|
      modifies this`dir
      ensures dir == Fill(Fill(old(dir), pag, pag + siz, Rest), pag, pag + 1, Head)
    {
      dir := dir[pag := Head];
      var i := 1;
      while i < siz
        invariant 1 <= i <= siz && |dir| == |old(dir)|
        invariant forall p :: 0 <= p < |dir| ==>
            dir[p] == if p == pag then Head else if pag < p < pag + i then Rest else old(dir)[p]
      {
        dir := dir[pag + i := Rest];
        i := i + 1;
      }
    }

    /** Find a run, first fit. */
    method Find(siz: nat) returns (cur: nat, ghost i: nat)
      requires Valid() && siz > 0
      ensures i == FirstFit(Runs(), siz) && cur == At(list.order, i)
      ensures cur == 0 <==> i == |list.order|
    {
      hide Good, Masked, Blocked;
      OrderIn(list.dells, list.order, list.fre, list.erf);
      cur, i := list.fre, 0;
      ghost var runs := Runs();
      if i < |list.order| {
        LinkThere(list.dells, list.order, list.fre, list.erf, i);
      }
      while cur != 0 && list.dells[cur].siz < siz
        invariant i <= |list.order| && cur == At(list.order, i) && (i < |list.order| ==> cur != 0 && cur in list.dells)
        invariant forall j :: 0 <= j < i ==> runs[j].siz < siz
        decreases |list.order| - i
      {
        LinkThere(list.dells, list.order, list.fre, list.erf, i);
        cur, i := list.dells[cur].nex, i + 1;
        if i < |list.order| {
          LinkThere(list.dells, list.order, list.fre, list.erf, i);
        }
      }
      FirstIs(runs, siz, i);
    }

    /** Take pages out of a run. */
    method TakeRun(cur: nat, siz: nat, ghost i: nat) returns (pag: nat)
      requires list.Linked() && siz > 0 && i < |list.order| && cur == list.order[i] && Runs()[i].siz >= siz
      modifies list
      ensures list.Linked() && pag == old(Runs())[i].pag
      ensures forall x :: x in list.order ==> x in old(list.order)
      ensures Runs() == Trimmed(old(Runs()), i, siz)
    {
      hide SameRuns, Links;
      OrderIn(list.dells, list.order, list.fre, list.erf);
      ghost var was, order := list.dells, list.order;
      LinkThere(list.dells, list.order, list.fre, list.erf, i);
      LinkDistinct(list.dells, list.order, list.fre, list.erf);
      pag := list.dells[cur].pag;
      if list.dells[cur].siz == siz {
        list.Unlink(cur, i);
        RunsDropped(was, list.dells, order, i);
      } else {
        list.Resize(cur, pag + siz, list.dells[cur].siz - siz, i);
        RunsResized(was, list.dells, order, i, pag + siz, was[cur].siz - siz);
      }
    }

    /** An entry that is not in use. */
    method NewEntry() returns (id: nat)
      requires list.Linked()
      ensures id != 0 && id !in list.order
    {
      OrderIn(list.dells, list.order, list.fre, list.erf);
      id := Unused(list.dells);
    }

    /** Add an allocation at the end of the heap. */
    method Append(siz: nat) returns (pag: nat)
      requires list.Linked() && Lost() && Good(Runs(), Seen()) && Blocked(dir) && siz > 0
      modifies this`dir
      ensures list.Linked() && Lost() && Good(Runs(), Seen()) && Blocked(dir)
      ensures pag == |old(dir)| && |dir| == pag + siz && dir == old(dir) + dir[pag..] && dir[pag].Head?
      ensures pag !in old(Blocks(dir)) && Blocks(dir) == old(Blocks(dir))[pag := pag + siz]
    {
      hide Good, Blocked, Blocks, Masked;
      ghost var was := dir;
      pag := |dir|;
      dir := dir + seq(siz, _ => Rest);
      Mark(pag, siz);
      ghost var more := dir[pag..];
      assert dir == was + more;
      BlocksMarked(was, dir, pag, siz);
      MaskedMore(was, lost, more);
      GoodGrow(Runs(), Masked(was, lost), more);
    }

    /** A new directory past the end of the heap, the old one still there. */
    method PlaceDirectory(siz: nat)
      requires Valid() && siz > 0
      modifies this`dir, this`book, this`room
      ensures Valid() && Sized() && lost == old(lost)
      ensures book == |old(dir)| && room == Whole(|old(dir)| + siz) && |dir| == |old(dir)| + room / 4096
      ensures old(book) < book && dir[old(book)].Head? && Held() == old(Blocks(dir))
    {
      hide *;
      Linked(this);
      ghost var was := dir;
      BlockIn(dir, book);
      ghost var prior, blocks := book, Blocks(dir);
      WholePages(|dir| + siz);
      room := Whole(|dir| + siz);
      book := Append(room / 4096);
      MapAside(blocks, book, book + room / 4096);
      ShelvedNew(dir, book, |was|, siz);
      assert dir[prior] == was[prior];
      PagesValid(this);
      PagesAre(this);
    }

    /** The directory has outgrown its pages: move it past the end of the heap, and
        free the old one. It has room for its own pages as well, below so many; not
        always for those that are wanted. */
    method ExtendDirectory(siz: nat, id: nat)
      requires Valid() && siz > 0 && id != 0 && id !in list.order
      modifies this, list
      ensures Valid() && lost == old(lost) && Held() == old(Held())
      ensures book == |old(dir)| && room == Whole(|old(dir)| + siz) && |dir| == |old(dir)| + room / 4096
      ensures Vacant(dir, old(book)) && Sized()
      ensures old(Roomy() && Sized()) && old(room) < |old(dir)| + siz && room <= 4096 * 4096 ==> Roomy()
    {
      hide *;
      Linked(this);
      PagesAre(this);
      var prior := book;
      OwnFit(dir, prior, room, siz);
      PlaceDirectory(siz);
      Linked(this);
      PagesAre(this);
      ghost var mid := dir;
      var n := Release(prior, id);
      FreedLength(mid, dir, prior, n, book);
      PagesAre(this);
    }

    /** Add pages in use at the end of the heap. */
    method ExtendHeap(siz: nat, id: nat) returns (pag: nat)
      requires Valid() && siz > 0 && id != 0 && id !in list.order
      modifies this, list
      ensures Valid() && lost == old(lost) && pag !in old(Held()) && Held() == old(Held())[pag := pag + siz]
      ensures pag >= |old(dir)| && |dir| == pag + siz
      ensures pag == |old(dir)| <==> !(|old(dir)| <= old(room) < |old(dir)| + siz)
      ensures if pag == |old(dir)| then book == old(book) && room == old(room)
              else book == |old(dir)| && room == Whole(|old(dir)| + siz) && Vacant(dir, old(book))
      ensures Roomy() <==> old(Roomy()) && !(old(room) < |old(dir)| + siz && Overfills(|old(dir)| + siz))
      ensures old(Roomy()) && !Roomy() ==> pag * 4096 == book * 4096 + room
      ensures old(Sized()) ==> Sized()
    {
      hide Good, Blocked, Blocks, Whole, Masked;
      if |dir| <= room && room - |dir| < siz {
        ExtendDirectory(siz, id);
      }
      BlockIn(dir, book);
      pag := Append(siz);
    }

    /** Allocate pages, first fit. Page number zero stands for nothing found: when the
        first run that fits starts there, its pages drop out of the list while they
        are still free, and the heap grows instead. */
    method Alloc(siz: nat, id: nat) returns (pag: nat)
      requires Valid() && siz > 0 && id != 0 && id !in list.order
      modifies this, list
      ensures Valid() && pag !in old(Held()) && Held() == old(Held())[pag := pag + siz]
      ensures if old(FitAt(siz)) == 0 then pag >= |old(dir)| else pag == old(FitAt(siz)) && |dir| == |old(dir)|
      ensures lost == if old(LosesZero(siz)) then siz else old(lost)
      ensures old(FitAt(siz)) == 0 && |old(dir)| <= old(room) < |old(dir)| + siz ==> Vacant(dir, old(book))
      ensures Good(Runs(), dir) <==> lost == 0
      ensures Roomy() <==> old(Roomy() && !Short(siz))
      ensures old(Roomy()) && !Roomy() ==> pag * 4096 == book * 4096 + room
      ensures old(Sized()) ==> Sized()
    {
      hide Good, Links, FirstFit, Blocked, Blocks, Masked, Shelved, Overfills, Trimmed;
      ghost var runs := Runs();
      Linked(this);
      var cur;
      ghost var i;
      cur, i := Find(siz);
      RunsLength(runs, list);
      FitIs(runs, siz);
      FitIn(this, siz);
      pag := 0;
      if cur != 0 {
        pag := TakeRun(cur, siz, i);
      }
      if pag != 0 {
        Occupy(pag, siz, i, runs);
      } else {
        if cur != 0 {
          Lose(siz, i, runs);
        }
        pag := ExtendHeap(siz, id);
      }
      NoneLost(this);
    }

    /** The pages taken out of a run are an allocation. */
    method Occupy(pag: nat, siz: nat, ghost i: nat, ghost runs: seq<Run>)
      requires list.Linked() && Lost() && Good(runs, Seen()) && Blocked(dir)
      requires lost <= book < |dir| && dir[book].Head?
      requires i < |runs| && 0 < siz <= runs[i].siz && runs[i].pag == pag && Runs() == Trimmed(runs, i, siz)
      modifies this`dir
      ensures Valid() && pag !in old(Held()) && Held() == old(Held())[pag := pag + siz] && |dir| == |old(dir)|
      ensures old(Sized()) ==> Sized()
    {
      hide Good, Blocked, Blocks, Masked, Links;
      ghost var was := dir;
      TakenSeen(runs, dir, lost, i, siz);
      Mark(pag, siz);
      BlocksMarked(was, dir, pag, siz);
      BookStays(was, dir, pag, siz, book);
    }

    /** The first pages of a run at page 0 are lost. */
    ghost method Lose(siz: nat, i: nat, runs: seq<Run>)
      requires list.Linked() && Lost() && Good(runs, Seen()) && Blocked(dir)
      requires lost <= book < |dir| && dir[book].Head?
      requires i < |runs| && 0 < siz <= runs[i].siz && runs[i].pag == 0 && Runs() == Trimmed(runs, i, siz)
      modifies this`lost
      ensures Valid() && lost == siz
    {
      hide Good, Blocked, Masked, Links;
      LostGood(runs, dir, lost, i, siz);
      LostBook(dir, siz, book);
      lost := siz;
    }

    /** How many pages an allocation has. */
    method PagesSize(pag: nat) returns (siz: nat)
      requires pag < |dir|
      ensures siz > 0 && pag + siz == BlockEnd(dir, pag)
    {
      siz := 1;
      while pag + siz < |dir| && dir[pag + siz].Rest?
        invariant siz >= 1 && pag + siz <= |dir| && forall p :: pag < p < pag + siz ==> dir[p].Rest?
      {
        siz := siz + 1;
      }
      BlockEndIs(dir, pag, pag + siz);
    }

    /** Set the pages of an allocation free, and count them. */
    method Clear(pag: nat) returns (siz: nat)
      requires pag < |dir|
      modifies this`dir
      ensures siz > 0 && pag + siz == BlockEnd(old(dir), pag) && dir == Fill(old(dir), pag, pag + siz, Free)
    {
      dir := dir[pag := Free];
      siz := 1;
      while pag + siz < |dir| && dir[pag + siz].Rest?
        invariant siz >= 1 && pag + siz <= |dir| == |old(dir)|
        invariant forall p :: pag < p < pag + siz ==> old(dir)[p].Rest?
        invariant forall p :: 0 <= p < |dir| ==> dir[p] == if pag <= p < pag + siz then Free else old(dir)[p]
      {
        dir := dir[pag + siz := Free];
        siz := siz + 1;
      }
      BlockEndIs(old(dir), pag, pag + siz);
    }

    /** Free the last pages of the heap: it shrinks to the last page in use. */
    method FreeLast(pag: nat, ghost was: seq<Kind>)
      requires list.Linked() && Lost() && Good(Runs(), was) && lost < pag < |was| == |dir|
      requires (forall p :: pag <= p < |was| ==> !was[p].Free?) && Seen() == Fill(was, pag, |was|, Free)
      requires exists p :: lost <= p < pag && !dir[p].Free?
      modifies this`dir, list
      ensures list.Linked() && lost <= |dir| && Lost() && Good(Runs(), Seen())
      ensures |dir| <= pag && dir == old(dir)[..|dir|] && forall p :: |dir| <= p < pag ==> old(dir)[p].Free?
    {
      hide Good, Links, Masked, Sorted, SameRuns, PageList.Distinct;
      OrderIn(list.dells, list.order, list.fre, list.erf);
      ghost var runs, dells, order, full := Runs(), list.dells, list.order, dir;
      LastRun(runs, was, pag);
      MaskedAt(dir, lost);
      if dir[pag - 1].Free? {
        ghost var n := |order| - 1;
        LinkThere(list.dells, list.order, list.fre, list.erf, n);
        LinksEnds(list.dells, list.order, list.fre, list.erf);
        var erf := list.erf;
        dir := dir[..list.dells[erf].pag];
        list.Unlink(erf, n);
        RunsDropped(dells, list.dells, order, n);
        GoodShrinkRun(runs, was);
        assert Without(runs, n) == runs[..n];
        MaskedCut(full, lost, |dir|);
        assert Seen() == was[..|dir|];
      } else {
        dir := dir[..pag];
        GoodShrink(runs, was, pag);
        MaskedCut(full, lost, pag);
        assert Seen() == was[..pag];
      }
    }

    /** Find the run that freed pages come next to: the first that does not end
        before them, or the last. */
    method Neighbour(pag: nat) returns (cur: nat, ghost i: nat)
      requires list.Linked() && list.fre != 0
      ensures i < |list.order| && cur == list.order[i] && (forall j :: 0 <= j < i ==> Runs()[j].End() < pag)
      ensures Runs()[i].End() >= pag || i == |list.order| - 1
      ensures cur in list.dells && list.dells[cur].nex == At(list.order, i + 1)
          && (i + 1 < |list.order| ==> list.dells[cur].nex != 0)
    {
      hide Links;
      OrderIn(list.dells, list.order, list.fre, list.erf);
      ghost var runs := Runs();
      LinksEnds(list.dells, list.order, list.fre, list.erf);
      cur, i := list.fre, 0;
      LinkThere(list.dells, list.order, list.fre, list.erf, i);
      while list.dells[cur].pag + list.dells[cur].siz < pag && list.dells[cur].nex != 0
        invariant i < |list.order| && cur == list.order[i] && cur in list.dells && LinkAt(list.dells, list.order, i)
        invariant forall j :: 0 <= j < i ==> runs[j].End() < pag
        decreases |list.order| - i
      {
        LinkThere(list.dells, list.order, list.fre, list.erf, i + 1);
        cur, i := list.dells[cur].nex, i + 1;
      }
      if i + 1 < |list.order| {
        LinkThere(list.dells, list.order, list.fre, list.erf, i + 1);
      }
    }

    /** Put a new entry in. */
    method AddRun(id: nat, at: nat, pag: nat, siz: nat, ghost i: nat)
      requires list.Linked() && id != 0 && id !in list.order && i <= |list.order| && at == At(list.order, i)
      modifies list
      ensures list.Linked() && Runs() == Inserted(old(Runs()), i, Run(pag, siz))
    {
      hide Links;
      OrderIn(list.dells, list.order, list.fre, list.erf);
      ghost var was, order := list.dells, list.order;
      list.Insert(id, at, pag, siz, i);
      RunsAdded(was, list.dells, order, i, id, pag, siz);
    }

    /** Make a run longer, and take in the next if they now touch. */
    method GrowRun(cur: nat, siz: nat, ghost i: nat)
      requires list.Linked() && i < |list.order| && cur == list.order[i]
      requires i + 1 < |list.order| ==> Runs()[i].End() + siz <= Runs()[i + 1].pag
      modifies list
      ensures list.Linked()
      ensures var runs := old(Runs()); var end := runs[i].End() + siz;
              Runs() == if i + 1 < |runs|
                  && end == runs[i + 1].pag then Merged(runs, i, Run(runs[i].pag, runs[i].siz + siz + runs[i + 1].siz))
                        else runs[i := Run(runs[i].pag, runs[i].siz + siz)]
    {
      hide Links, SameRuns, Merged, Without, At, PageList.Distinct, Dropped;
      OrderIn(list.dells, list.order, list.fre, list.erf);
      LinkThere(list.dells, list.order, list.fre, list.erf, i);
      LinkDistinct(list.dells, list.order, list.fre, list.erf);
      ghost var was, order, runs := list.dells, list.order, Runs();
      var d := list.dells[cur];
      if i + 1 < |list.order| {
        LinkThere(list.dells, list.order, list.fre, list.erf, i + 1);
      }
      LinkNext(list.dells, list.order, i);
      var touch := d.nex != 0 && d.pag + d.siz + siz == list.dells[d.nex].pag;
      var more := if touch then siz + list.dells[d.nex].siz else siz;
      list.Resize(cur, d.pag, d.siz + more, i);
      OrderIn(list.dells, list.order, list.fre, list.erf);
      RunsResized(was, list.dells, order, i, d.pag, d.siz + more);
      if touch {
        ghost var mid := list.dells;
        list.Unlink(d.nex, i + 1);
        RunsDropped(mid, list.dells, order, i + 1);
        MergeIs(runs, i, Run(d.pag, d.siz + more));
      }
    }

    /** Put freed pages on the list: as a new entry, or joined to those they touch. */
    method AddFree(pag: nat, siz: nat, id: nat, ghost was: seq<Kind>)
      requires list.Linked() && Lost() && Good(Runs(), was) && siz > 0 && pag + siz < |was|
      requires (forall p :: pag <= p < pag + siz ==> !was[p].Free?) && Seen() == Fill(was, pag, pag + siz, Free)
      requires id != 0 && id !in list.order
      modifies list
      ensures list.Linked() && Good(Runs(), Seen())
    {
      hide Good, Links, Merged, Inserted;
      ghost var runs := Runs();
      if list.fre == 0 {
        LinksEnds(list.dells, list.order, list.fre, list.erf);
        FreHead(list.dells, list.order, list.fre, list.erf);
        AddRun(id, 0, pag, siz, 0);
        GoodInsert(runs, was, 0, Run(pag, siz));
        return;
      }
      var cur;
      ghost var i;
      cur, i := Neighbour(pag);
      RunsBetween(runs, was, pag, pag + siz, i);
      var d := list.dells[cur];
      if d.pag > pag + siz {
        AddRun(id, cur, pag, siz, i);
        GoodInsert(runs, was, i, Run(pag, siz));
      } else if d.pag + d.siz == pag {
        GrowRun(cur, siz, i);
        if i + 1 < |runs| && pag + siz == runs[i + 1].pag {
          GoodMerge(runs, was, i, pag, pag + siz);
        } else {
          GoodJoin(runs, was, i, pag, pag + siz);
        }
      } else if d.pag == pag + siz {
        ghost var dells, order := list.dells, list.order;
        LinkDistinct(list.dells, list.order, list.fre, list.erf);
        OrderIn(list.dells, list.order, list.fre, list.erf);
        list.Resize(cur, pag, d.siz + siz, i);
        RunsResized(dells, list.dells, order, i, pag, d.siz + siz);
        GoodJoin(runs, was, i, pag, pag + siz);
      } else {
        AddRun(id, 0, pag, siz, i + 1);
        GoodInsert(runs, was, i + 1, Run(pag, siz));
      }
    }

    /** Free an allocation, or its last pages. `id` is a list entry not in use. The
        directory cannot be freed while it is the directory. */
    method Release(pag: nat, id: nat) returns (siz: nat)
      requires Valid() && pag < |dir| && !dir[pag].Free? && pag != book && id != 0 && id !in list.order
      modifies this`dir, list
      ensures Valid() && siz > 0 && pag + siz == BlockEnd(old(dir), pag)
      ensures Freed(old(dir), dir, pag, siz)
      ensures old(dir)[pag].Head? ==> Held() == old(Held()) - {pag}
      ensures forall h :: h in old(Held()) && h < pag < old(Held())[h] ==> Held() == old(Held())[h := pag]
      ensures old(Roomy()) ==> Roomy()
      ensures old(Sized()) && !(book < pag < book + room / 4096) ==> Sized()
    {
      hide Good, Links, Blocked, Blocks, Masked, Shelved, BlockEnd;
      ghost var was := dir;
      MaskedAt(dir, lost);
      MaskedEnd(dir, lost, pag);
      siz := Clear(pag);
      BlockUsed(was, pag);
      MaskedFill(was, lost, pag, pag + siz, Free);
      MaskedAt(dir, lost);
      BlockUsed(Masked(was, lost), pag);
      if pag + siz == |dir| {
        assert lost <= book < pag;
        FreeLast(pag, Masked(was, lost));
      } else {
        AddFree(pag, siz, id, Masked(was, lost));
      }
      BookKept(was, dir, pag, siz, book);
      HeldFreed(was, dir, pag, siz, book);
      ShelvedFreed(was, dir, pag, siz, book, room);
    }
  }

  /** With page 0 free, its run is the first that fits one page. */
  lemma ZeroFirst(runs: seq<Run>, dir: seq<Kind>)
    requires Good(runs, dir) && |dir| > 0 && dir[0].Free?
    ensures FirstFit(runs, 1) == 0 && |runs| > 0 && runs[0].pag == 0
  {
    assert Listed(runs, 0);
    var k :| 0 <= k < |runs| && Covers(runs[k], 0);
    if k > 0 {
      RunsOrder(runs, 0, k);
    }
    FirstIs(runs, 1, 0);
  }

  lemma RunsOrder(runs: seq<Run>, i: nat, j: nat)
    requires Sorted(runs) && i < j < |runs|
    ensures runs[i].End() < runs[j].pag
  {
  }

  lemma RunFree(runs: seq<Run>, dir: seq<Kind>)
    requires Good(runs, dir) && |runs| > 0
    ensures runs[0].pag < |dir| && dir[runs[0].pag].Free?
  {
    assert runs[0].siz > 0 && Covers(runs[0], runs[0].pag) && Listed(runs, runs[0].pag);
  }

  lemma NoRuns(runs: seq<Run>, dir: seq<Kind>, siz: nat)
    requires Good(runs, dir) && forall p :: 0 <= p < |dir| ==> !dir[p].Free?
    ensures runs == [] && FirstFit(runs, siz) == 0
  {
    if |runs| > 0 {
      RunFree(runs, dir);
    }
  }

  /** Page 0 lost: a heap whose directory page is full has every entry in use. One
      page more moves the directory and frees page 0; the next allocation finds its
      run, takes it off the list, and grows the heap instead. */
  method PageZeroLost() returns (pages: Pages)
    ensures fresh(pages) && fresh(pages.list) && pages.Valid() && pages.lost == 1
    ensures pages.dir[0].Free? && !Good(pages.Runs(), pages.dir)
  {
    hide Good, Blocked, Blocks, Masked, FirstFit;
    var dir := seq(4096, _ => Head);
    AllHeads(dir);
    pages := new Pages(dir, 0, 4096);
    LostSpoils(pages.Runs(), pages.dir, pages.lost);
    NoRuns(pages.Runs(), pages.dir, 1);
    var id := pages.NewEntry();
    var _ := pages.Alloc(1, id);
    ZeroFirst(pages.Runs(), pages.dir);
    id := pages.NewEntry();
    var _ := pages.Alloc(1, id);
  }

  /** A directory too short: full, with one page, it is moved for as many pages again.
      The new one has two pages of entries and needs two entries more; the first of
      these is the first word of the pages that were asked for. */
  method DirectoryShort() returns (pages: Pages, pag: nat)
    ensures fresh(pages) && fresh(pages.list) && pages.Valid() && pages.Sized() && !pages.Roomy()
    ensures pag in pages.Held() && pag * 4096 == pages.book * 4096 + pages.room
  {
    hide *;
    var dir := seq(4096, _ => Head);
    FullPage(dir);
    pages := new Pages(dir, 0, 4096);
    Linked(pages);
    var id := pages.NewEntry();
    FullIsShort(pages);
    pag := pages.Alloc(4096, id);
  }

  lemma FullPage(dir: seq<Kind>)
    requires |dir| == 4096 && forall p :: 0 <= p < |dir| ==> dir[p].Head?
    ensures Blocked(dir) && Shelved(dir, 0, 4096)
  {
    BlockEndIs(dir, 0, 1);
  }

  lemma FullIsShort(pages: Pages)
    requires pages.Valid() && |pages.dir| == pages.room == 4096
    requires forall p :: 0 <= p < |pages.dir| ==> pages.dir[p].Head?
    requires pages.lost == 0 && Shelved(pages.dir, pages.book, pages.room)
    ensures pages.list.Linked() && pages.Sized() && pages.Roomy() && pages.Short(4096)
  {
    hide Good, Blocked, Blocks, Masked, FirstFit;
    LostSpoils(pages.Runs(), pages.dir, pages.lost);
    NoRuns(pages.Runs(), pages.dir, 4096);
    assert Whole(8192) == 8192;
  }

  lemma AllHeads(dir: seq<Kind>)
    requires forall p :: 0 <= p < |dir| ==> dir[p].Head?
    ensures Blocked(dir)
  {
  }

  lemma MaskedAt(dir: seq<Kind>, lost: nat)
    requires lost <= |dir|
    ensures |Masked(dir, lost)| == |dir|
    ensures forall p :: 0 <= p < |dir| ==> Masked(dir, lost)[p] == if p < lost then Head else dir[p]
  {
  }

  /** Pages that a run gives are free in the directory, past those that are lost. */
  lemma TakenSeen(runs: seq<Run>, dir: seq<Kind>, lost: nat, i: nat, siz: nat)
    requires lost <= |dir| && Good(runs, Masked(dir, lost)) && i < |runs| && 0 < siz <= runs[i].siz
    ensures var pag := runs[i].pag;
            && lost <= pag && pag + siz < |dir| && (forall p :: pag <= p < pag + siz ==> dir[p].Free?)
            && var now := Fill(Fill(dir, pag, pag + siz, Rest), pag, pag + 1, Head);
               Good(Trimmed(runs, i, siz), Masked(now, lost))
  {
    hide Good;
    TakenFree(runs, Masked(dir, lost), i, siz);
    var pag := runs[i].pag;
    MaskedAt(dir, lost);
    assert Masked(dir, lost)[pag].Free?;
    MaskedFill(dir, lost, pag, pag + siz, Rest);
    MaskedFill(Fill(dir, pag, pag + siz, Rest), lost, pag, pag + 1, Head);
    TakenGood(runs, Masked(dir, lost), i, siz, Masked(Fill(Fill(dir, pag, pag + siz, Rest), pag, pag + 1, Head), lost));
  }

  lemma BookStays(was: seq<Kind>, now: seq<Kind>, pag: nat, siz: nat, book: nat)
    requires Marked(was, now, pag, siz) && book < |was| && was[book].Head?
    ensures now[book].Head? && (siz > 0 ==> pag != book)
    ensures Blocks(was)[pag := pag + siz] - {book} == if siz > 0 then (Blocks(was) - {book})[pag := pag + siz]
        else Blocks(was)[pag := pag + siz] - {book}
  {
  }

  lemma MapAside(m: map<nat, nat>, k: nat, v: nat)
    requires k !in m
    ensures m[k := v] - {k} == m
  {
  }

  lemma LostBook(dir: seq<Kind>, siz: nat, book: nat)
    requires siz <= |dir| && (forall p :: 0 <= p < siz ==> dir[p].Free?) && book < |dir| && dir[book].Head?
    ensures siz <= book
  {
  }

  /** A heap with a page in use after what is freed keeps its length. */
  lemma FreedLength(was: seq<Kind>, now: seq<Kind>, pag: nat, siz: nat, book: nat)
    requires pag < book < |was| && was[book].Head? && pag + siz == BlockEnd(was, pag) && Freed(was, now, pag, siz)
    ensures |now| == |was| && Vacant(now, pag)
  {
  }

  /** The directory's page survives what is freed. */
  lemma BookKept(was: seq<Kind>, now: seq<Kind>, pag: nat, siz: nat, book: nat)
    requires pag < |was| && pag + siz == BlockEnd(was, pag) && Freed(was, now, pag, siz)
    requires book < |was| && was[book].Head? && book != pag
    ensures book < |now| && now[book].Head?
  {
  }

  lemma HeldFreed(was: seq<Kind>, now: seq<Kind>, pag: nat, siz: nat, book: nat)
    requires Blocked(was) && pag < |was| && pag + siz == BlockEnd(was, pag) && Freed(was, now, pag, siz)
    requires book != pag
    ensures Blocked(now)
    ensures was[pag].Head? ==> Blocks(now) - {book} == Blocks(was) - {book} - {pag}
    ensures forall h :: h in Blocks(was) - {book} && h < pag < (Blocks(was) - {book})[h] ==>
              Blocks(now) - {book} == (Blocks(was) - {book})[h := pag]
  {
    hide Blocks, Blocked, Freed;
    FreedBlocked(was, now, pag, siz);
    BlockIn(was, pag);
    if was[pag].Head? {
      BlocksFreed(was, now, pag, siz);
    }
    forall h | h in Blocks(was) - {book} && h < pag < (Blocks(was) - {book})[h]
      ensures Blocks(now) - {book} == (Blocks(was) - {book})[h := pag]
    {
      CutEnd(was, h, pag);
      BlocksCut(was, now, h, pag, siz);
    }
  }

  lemma WholePages(n: nat)
    ensures n > 0 ==> Whole(n) / 4096 > 0
  {
  }

  lemma ShelvedNew(dir: seq<Kind>, book: nat, len: nat, siz: nat)
    requires book in Blocks(dir) && Blocks(dir)[book] == book + Whole(len + siz) / 4096
    ensures Shelved(dir, book, Whole(len + siz))
  {
    hide Blocks;
  }

  /** A page more of entries is enough for the pages of fewer than a page of pages. */
  lemma OwnFit(dir: seq<Kind>, book: nat, room: nat, siz: nat)
    ensures var n := Whole(|dir| + siz);
            Shelved(dir, book, room) && |dir| <= room < |dir| + siz && n <= 4096 * 4096 ==> |dir| + n / 4096 <= n
  {
    hide Blocks;
  }

  /** What is freed outside the directory leaves it its pages. */
  lemma ShelvedFreed(was: seq<Kind>, now: seq<Kind>, pag: nat, siz: nat, book: nat, room: nat)
    requires Blocked(was) && pag < |was| && pag + siz == BlockEnd(was, pag) && Freed(was, now, pag, siz)
    requires pag != book
    ensures Shelved(was, book, room) && !(book < pag < book + room / 4096) ==> Shelved(now, book, room)
  {
    hide Blocked, Freed;
    if Shelved(was, book, room) && !(book < pag < book + room / 4096) {
      BlockIn(was, book);
      KeptBlock(was, now, pag, siz, book);
    }
  }

  lemma CutEnd(dir: seq<Kind>, head: nat, pag: nat)
    requires head in Blocks(dir) && head < pag < Blocks(dir)[head]
    ensures pag < |dir| && BlockEnd(dir, pag) == Blocks(dir)[head] && dir[pag].Rest?
  {
    BlockEndIs(dir, pag, Blocks(dir)[head]);
  }

  /** A directory from which an allocation has been freed: its pages are free, or at
      the end gone, with the free pages before them. */
  ghost predicate Freed(was: seq<Kind>, now: seq<Kind>, pag: nat, siz: nat)
  {
    if pag + siz < |was| then now == Fill(was, pag, pag + siz, Free)
    else pag < |was| && |now| <= pag && now == was[..|now|] && forall p :: |now| <= p < pag ==> was[p].Free?
  }

  lemma BlockUsed(dir: seq<Kind>, pag: nat)
    requires pag < |dir| && !dir[pag].Free?
    ensures forall p :: pag <= p < BlockEnd(dir, pag) ==> !dir[p].Free?
  {
  }

  lemma FreHead(dells: map<nat, Dell>, order: seq<nat>, fre: nat, erf: nat)
    requires Links(dells, order, fre, erf) && fre == 0
    ensures order == []
  {
    if |order| > 0 {
      LinkThere(dells, order, fre, erf, 0);
    }
  }

  lemma RunsAdded(was: map<nat, Dell>, now: map<nat, Dell>, order: seq<nat>, i: nat, id: nat, pag: nat, siz: nat)
    requires (forall x :: x in order ==> x in was) && i <= |order| && id in now && now[id].pag == pag
        && now[id].siz == siz
    requires forall x :: x in order ==> x in now && now[x].pag == was[x].pag && now[x].siz == was[x].siz
    ensures forall x :: x in Added(order, i, id) ==> x in now
    ensures RunsOf(now, Added(order, i, id)) == Inserted(RunsOf(was, order), i, Run(pag, siz))
  {
    forall k | 0 <= k < |order| + 1
      ensures Added(order, i, id)[k] in now
      ensures Run(now[Added(order, i, id)[k]].pag, now[Added(order, i, id)[k]].siz) == Inserted(RunsOf(was, order), i,
          Run(pag, siz))[k]
    {
      assert Added(order, i, id)[k] == if k < i then order[k] else if k == i then id else order[k - 1];
    }
  }

  /** Where the runs are when freed pages come next to the `i`th. */
  lemma RunsBetween(runs: seq<Run>, dir: seq<Kind>, lo: nat, hi: nat, i: nat)
    requires Good(runs, dir) && i < |runs| && lo < hi < |dir| && forall p :: lo <= p < hi ==> !dir[p].Free?
    requires (forall j :: 0 <= j < i ==> runs[j].End() < lo) && (runs[i].End() >= lo || i == |runs| - 1)
    ensures runs[i].End() <= lo || hi <= runs[i].pag
    ensures i + 1 < |runs| ==> hi <= runs[i + 1].pag
    ensures hi <= runs[i].pag && i + 1 < |runs| ==> hi < runs[i + 1].pag
  {
    RunsAround(runs, dir, lo, hi, i);
    if i + 1 < |runs| {
      RunsAround(runs, dir, lo, hi, i + 1);
      assert runs[i].End() < runs[i + 1].pag;
    }
  }

  lemma LinkNext(dells: map<nat, Dell>, order: seq<nat>, i: nat)
    requires i < |order| && LinkAt(dells, order, i) && (i + 1 < |order| ==> order[i + 1] != 0)
    ensures if i + 1 < |order| then dells[order[i]].nex == order[i + 1] != 0 else dells[order[i]].nex == 0
  {
  }

  lemma MergeIs(runs: seq<Run>, i: nat, joined: Run)
    requires i + 1 < |runs|
    ensures Without(runs[i := joined], i + 1) == Merged(runs, i, joined)
  {
  }

  lemma LinksEnds(dells: map<nat, Dell>, order: seq<nat>, fre: nat, erf: nat)
    requires Links(dells, order, fre, erf)
    ensures fre == At(order, 0) && erf == At(order, |order| - 1)
  {
  }

  /** What comes before the last pages in use: either the last run, ending there, or
      a page in use. */
  lemma LastRun(runs: seq<Run>, dir: seq<Kind>, pag: nat)
    requires Good(runs, dir) && 0 < pag < |dir| && forall p :: pag <= p < |dir| ==> !dir[p].Free?
    ensures dir[pag - 1].Free? ==> |runs| > 0 && runs[|runs| - 1].End() == pag
    ensures dir[pag - 1].Free? ==> forall p :: runs[|runs| - 1].pag <= p < pag ==> dir[p].Free?
    ensures !dir[pag - 1].Free? ==> forall i :: 0 <= i < |runs| ==> runs[i].End() < pag
  {
    forall i | 0 <= i < |runs|
      ensures runs[i].End() <= pag && (runs[i].End() == pag ==> dir[pag - 1].Free?)
    {
      RunsAround(runs, dir, pag, |dir|, i);
      if runs[i].End() == pag {
        assert Covers(runs[i], pag - 1) && Listed(runs, pag - 1);
      }
    }
    if dir[pag - 1].Free? {
      var k :| 0 <= k < |runs| && Covers(runs[k], pag - 1);
      var n := |runs| - 1;
      assert k < n ==> runs[k].End() < runs[n].pag;
      forall p | runs[n].pag <= p < pag
        ensures dir[p].Free?
      {
        assert Covers(runs[n], p) && Listed(runs, p);
      }
    }
  }

  lemma LinkDistinct(dells: map<nat, Dell>, order: seq<nat>, fre: nat, erf: nat)
    requires Links(dells, order, fre, erf)
    ensures PageList.Distinct(order)
  {
  }

  lemma RunsLength(runs: seq<Run>, list: FreeList)
    requires list.Linked()
        && (OrderIn(list.dells, list.order, list.fre, list.erf); runs == RunsOf(list.dells, list.order))
    ensures |runs| == |list.order|
  {
  }

  /** What a valid heap has. */
  lemma Linked(pages: Pages)
    requires pages.Valid()
    ensures pages.list.Linked() && pages.Lost() && Good(pages.Runs(), pages.Seen()) && Blocked(pages.dir)
    ensures pages.lost <= pages.book < |pages.dir| && pages.dir[pages.book].Head?
  {
  }

  lemma PagesValid(pages: Pages)
    requires pages.list.Linked() && pages.Lost() && Good(pages.Runs(), pages.Seen()) && Blocked(pages.dir)
    requires pages.lost <= pages.book < |pages.dir| && pages.dir[pages.book].Head?
    ensures pages.Valid()
  {
  }

  lemma PagesAre(pages: Pages)
    ensures pages.Held() == Blocks(pages.dir) - {pages.book}
    ensures pages.Sized() <==> Shelved(pages.dir, pages.book, pages.room)
    ensures pages.Roomy() <==> |pages.dir| <= pages.room
  {
  }

  lemma FitIn(pages: Pages, siz: nat)
    requires pages.list.Linked()
    ensures var runs, f := pages.Runs(), FirstFit(pages.Runs(), siz);
            && f <= |runs| && pages.FitAt(siz) == (if f < |runs| then runs[f].pag else 0)
            && (pages.LosesZero(siz) <==> pages.FitAt(siz) == 0 && f < |runs|)
            && (pages.Short(siz) <==>
                pages.FitAt(siz) == 0 && |pages.dir| <= pages.room < |pages.dir| + siz && Overfills(|pages.dir| + siz))
  {
  }

  lemma NoneLost(pages: Pages)
    requires pages.Valid()
    ensures Good(pages.Runs(), pages.dir) <==> pages.lost == 0
  {
    hide Good, Masked, Links;
    LostSpoils(pages.Runs(), pages.dir, pages.lost);
  }

  lemma FitIs(runs: seq<Run>, siz: nat)
    ensures var i := FirstFit(runs, siz); i <= |runs| && (i < |runs| ==> runs[i].siz >= siz)
  {
  }

  /** The pages of an allocation, and what it leaves of the directory. */
  ghost predicate Marked(was: seq<Kind>, now: seq<Kind>, pag: nat, siz: nat) {
    && pag <= |was| && |now| == (if pag < |was| then |was| else |was| + siz) && pag + siz <= |now|
    && (forall p :: pag <= p < pag + siz ==>
        now[p] == (if p == pag then Head else Rest) && (p < |was| ==> was[p].Free?))
    && (forall p :: 0 <= p < |was| && !(pag <= p < pag + siz) ==> now[p] == was[p])
  }

  lemma TakenGood(runs: seq<Run>, was: seq<Kind>, i: nat, siz: nat, now: seq<Kind>)
    requires Good(runs, was) && i < |runs| && 0 < siz <= runs[i].siz && runs[i].pag + siz <= |was|
    requires var pag := runs[i].pag; now == Fill(Fill(was, pag, pag + siz, Rest), pag, pag + 1, Head)
    ensures Good(Trimmed(runs, i, siz), now)
  {
    hide Good;
    if runs[i].siz == siz {
      GoodTake(runs, was, i, now);
    } else {
      GoodTrim(runs, was, i, siz, now);
    }
  }

  lemma TakenFree(runs: seq<Run>, dir: seq<Kind>, i: nat, siz: nat)
    requires Good(runs, dir) && i < |runs| && 0 < siz <= runs[i].siz
    ensures runs[i].pag + siz < |dir| && forall p :: runs[i].pag <= p < runs[i].pag + siz ==> dir[p].Free?
  {
    forall p | runs[i].pag <= p < runs[i].pag + siz
      ensures dir[p].Free?
    {
      assert Covers(runs[i], p) && Listed(runs, p);
    }
  }
}
