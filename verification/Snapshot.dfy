/** Snapshots: dirty pages go to a patch, the patch is synced and checked, applied
    to the image, and deleted. A crash may come at any point; what has not been
    synced may then be there, be missing, or be torn. */
module Snapshot {
  import opened Nouns

  const VERLAT := 1

  /** A page in a file: whole, or torn by a crash. */
  datatype Sheet = Page(data: nat) | Torn

  const ZERO := Page(0)

  /** The page of a file at a place, if the file is that long. */
  function SheetAt(cur: seq<Sheet>, i: nat): Option<Sheet> {
    if i < |cur| then Some(cur[i]) else None
  }

  /** One line of a control block: where a page of the patch goes, and its checksum. */
  datatype Line = Line(pag: nat, has: nat)

  datatype Control = Control(ver: nat, has: nat, tot: nat, lines: seq<Line>)

  /** The checksums of a page and of a control block. */
  datatype Sums = Sums(muk: nat -> nat, meta: (nat, seq<Line>) -> nat)

  /** The image file: its pages, whether its length is not a whole number of pages,
      and what has happened since it was synced: the number of pages it had then
      and the pages written. */
  datatype Img = Img(cur: seq<Sheet>, ragged: bool, base: nat, touched: set<nat>)

  /** The patch files. A control file that cannot be read whole has no value. */
  datatype Ctl = NoCtl | Ctl(val: Option<Control>, synced: bool)

  datatype Mem = NoMem | Mem(sheets: seq<Sheet>, synced: bool)

  datatype Disk = Disk(img: Img, ctl: Ctl, mem: Mem)

  /* ---- what a crash leaves ---- */

  ghost predicate CrashImg(a: Img, b: Img) {
    && b.base == |b.cur| && b.touched == {}
    && (if a.base <= |a.cur| then a.base <= |b.cur| <= |a.cur| else |a.cur| <= |b.cur| <= a.base)
    && (b.ragged ==>
        (a.ragged && |b.cur| == |a.cur|) || (a.base < |a.cur| && |b.cur| < |a.cur| && |b.cur| in a.touched))
    && (forall i :: 0 <= i < |b.cur| && i < |a.cur| && i !in a.touched ==> b.cur[i] == a.cur[i])
  }

  predicate CrashCtl(a: Ctl, b: Ctl) {
    match a
    case NoCtl => b == NoCtl
    case Ctl(val, synced) => b.Ctl? && b.synced && (b.val == val || (!synced && b.val == None))
  }

  ghost predicate CrashMem(a: Mem, b: Mem) {
    match a
    case NoMem => b == NoMem
    case Mem(sheets, synced) =>
      && b.Mem? && b.synced && (if synced then |b.sheets| == |sheets| else |b.sheets| <= |sheets|)
      && forall i :: 0 <= i < |b.sheets| ==> b.sheets[i] == sheets[i] || (!synced && b.sheets[i] == Torn)
  }

  ghost predicate Crash(a: Disk, b: Disk) {
    CrashImg(a.img, b.img) && CrashCtl(a.ctl, b.ctl) && CrashMem(a.mem, b.mem)
  }

  /* ---- what a patch means ---- */

  /** The last page of a patch that goes to page `i` of the image. */
  function Find(lines: seq<Line>, sheets: seq<Sheet>, i: nat): Option<Sheet>
    requires |lines| == |sheets|
  {
    if |lines| == 0 then None
    else if lines[|lines| - 1].pag == i then Some(sheets[|sheets| - 1])
    else Find(lines[..|lines| - 1], sheets[..|sheets| - 1], i)
  }

  /** A patch: its control block and pages. */
  datatype Patch = Patch(con: Control, sheets: seq<Sheet>)

  predicate SheetOk(sums: Sums, line: Line, sheet: Sheet) {
    sheet.Page? && sums.muk(sheet.data) == line.has
  }

  /** The check that a patch must pass before it is applied. */
  predicate Verified(sums: Sums, con: Control, sheets: seq<Sheet>) {
    && con.ver == VERLAT && con.has == sums.meta(con.tot, con.lines)
    && |sheets| >= |con.lines| && forall i :: 0 <= i < |con.lines| ==> SheetOk(sums, con.lines[i], sheets[i])
  }

  predicate WfPatch(sums: Sums, p: Patch) {
    && |p.sheets| == |p.con.lines| && Verified(sums, p.con, p.sheets)
    && forall i :: 0 <= i < |p.con.lines| ==> p.con.lines[i].pag < p.con.tot
  }

  /** The page that a patch leaves at `i` of an image. */
  function PageAfter(prior: seq<Sheet>, p: Patch, i: nat): Sheet
    requires |p.sheets| == |p.con.lines|
  {
    match Find(p.con.lines, p.sheets, i)
    case Some(s) => s
    case None => if i < |prior| then prior[i] else ZERO
  }

  /** One past the highest page that lines name, or `n` if that is more. */
  function Highest(lines: seq<Line>, n: nat): (top: nat)
    ensures top >= n
  {
    if |lines| == 0 then n
    else
      var top, last := Highest(lines[..|lines| - 1], n), lines[|lines| - 1].pag + 1;
      if last > top then last else top
  }

  /** How many pages the image file has when a patch has been applied to it: it is cut
      to the length the patch says, but it only grows as far as it is written. */
  function Size(prior: seq<Sheet>, p: Patch): nat {
    if p.con.tot <= |prior| then p.con.tot else Highest(p.con.lines, |prior|)
  }

  lemma {:induction false} HighestIs(lines: seq<Line>, sheets: seq<Sheet>, n: nat, tot: nat)
    requires |lines| == |sheets| && n <= tot && forall i :: 0 <= i < |lines| ==> lines[i].pag < tot
    ensures var top := Highest(lines, n);
            && n <= top <= tot && (top > n ==> Find(lines, sheets, top - 1).Some?)
            && forall i: nat :: i >= top ==> Find(lines, sheets, i).None?
  {
    if |lines| > 0 {
      HighestIs(lines[..|lines| - 1], sheets[..|lines| - 1], n, tot);
    }
  }

  /** The file ends with the old image or with the last page of the patch, or where the
      patch says. */
  lemma SizeIs(sums: Sums, prior: seq<Sheet>, p: Patch)
    requires WfPatch(sums, p)
    ensures Size(prior, p) <= p.con.tot && (p.con.tot <= |prior| ==> Size(prior, p) == p.con.tot)
    ensures p.con.tot > |prior| ==>
              && Size(prior, p) >= |prior|
              && (Size(prior, p) > |prior| ==> Find(p.con.lines, p.sheets, Size(prior, p) - 1).Some?)
    ensures forall i: nat :: i >= Size(prior, p) ==> Find(p.con.lines, p.sheets, i).None?
  {
    if p.con.tot > |prior| {
      HighestIs(p.con.lines, p.sheets, |prior|, p.con.tot);
    } else {
      HighestIs(p.con.lines, p.sheets, 0, p.con.tot);
    }
  }

  /** The image a patch makes of an image. */
  function Patched(prior: seq<Sheet>, p: Patch): (now: seq<Sheet>)
    requires |p.sheets| == |p.con.lines|
    ensures |now| == Size(prior, p) && forall i :: 0 <= i < |now| ==> now[i] == PageAfter(prior, p, i)
  {
    seq(Size(prior, p), i requires 0 <= i < Size(prior, p) => PageAfter(prior, p, i))
  }

  /** The patch has its last page, if the image has to grow. */
  predicate Reaches(prior: seq<Sheet>, p: Patch)
    requires |p.sheets| == |p.con.lines|
  {
    p.con.tot <= |prior| || Find(p.con.lines, p.sheets, p.con.tot - 1).Some?
  }

  /** That is when the file gets the length the patch says. */
  lemma ReachesIs(sums: Sums, prior: seq<Sheet>, p: Patch)
    requires WfPatch(sums, p)
    ensures |Patched(prior, p)| == p.con.tot <==> Reaches(prior, p)
  {
    SizeIs(sums, prior, p);
  }

  /** A patch may be applied over again. */
  lemma PatchTwice(sums: Sums, prior: seq<Sheet>, p: Patch)
    requires WfPatch(sums, p)
    ensures Patched(Patched(prior, p), p) == Patched(prior, p)
  {
    SizeIs(sums, prior, p);
    SizeIs(sums, Patched(prior, p), p);
  }

  /* ---- what holds of the disk at every moment ---- */

  /** The image is durably `now`; if the control block can be read it is the
      patch's, and the patch file holds nothing but pages of the patch. */
  ghost predicate Quiet(d: Disk, now: seq<Sheet>, p: Patch) {
    && d.img == Img(now, false, |now|, {})
    && (d.ctl.Ctl? && d.ctl.val.Some? ==> d.ctl.val.value == p.con && (d.mem.Mem? ==> PartOf(d.mem.sheets, p.sheets)))
  }

  ghost predicate PartOf(some: seq<Sheet>, all: seq<Sheet>) {
    |some| <= |all| && forall i :: 0 <= i < |some| ==> some[i] == all[i] || some[i] == Torn
  }

  /** The patch is durable and the image is somewhere between old and new. */
  ghost predicate Applying(d: Disk, prior: seq<Sheet>, p: Patch)
    requires |p.sheets| == |p.con.lines|
  {
    && d.ctl == Ctl(Some(p.con), true) && d.mem == Mem(p.sheets, true)
    && Between(d.img, prior, p)
  }

  ghost predicate Between(img: Img, prior: seq<Sheet>, p: Patch)
    requires |p.sheets| == |p.con.lines|
  {
    var end := Size(prior, p);
    && InRange(|img.cur|, |prior|, end) && InRange(img.base, |prior|, end)
    && (img.ragged || img.base < |img.cur| ==> |prior| < end)
    && (img.ragged ==> |img.cur| < end && Find(p.con.lines, p.sheets, |img.cur|).Some?)
    && (img.base > |img.cur| ==> end <= |prior|)
    && (forall i: nat :: i in img.touched ==> Find(p.con.lines, p.sheets, i).Some?)
    && (forall i :: 0 <= i < |img.cur| && i < end && Find(p.con.lines, p.sheets, i).None? ==>
          img.cur[i] == if i < |prior| then prior[i] else ZERO)
  }

  predicate InRange(n: nat, a: nat, b: nat) {
    a <= n <= b || b <= n <= a
  }

  /** The whole invariant, for a save that goes from `prior` by patch `p`. */
  ghost predicate Safe(sums: Sums, d: Disk, prior: seq<Sheet>, p: Patch) {
    && WfPatch(sums, p)
    && (Quiet(d, prior, p) || Quiet(d, Patched(prior, p), p) || Applying(d, prior, p))
  }

  /** A crash at any moment leaves the disk safe. */
  lemma CrashSafe(sums: Sums, a: Disk, b: Disk, prior: seq<Sheet>, p: Patch)
    requires Safe(sums, a, prior, p) && Crash(a, b)
    ensures Safe(sums, b, prior, p)
  {
    if Quiet(a, prior, p) {
      CrashQuiet(a, b, prior, p);
    } else if Quiet(a, Patched(prior, p), p) {
      CrashQuiet(a, b, Patched(prior, p), p);
    } else {
      CrashApplying(a, b, prior, p);
    }
  }

  lemma CrashQuiet(a: Disk, b: Disk, now: seq<Sheet>, p: Patch)
    requires Quiet(a, now, p) && Crash(a, b)
    ensures Quiet(b, now, p)
  {
    assert b.img.cur == now;
  }

  lemma CrashApplying(a: Disk, b: Disk, prior: seq<Sheet>, p: Patch)
    requires |p.sheets| == |p.con.lines| && Applying(a, prior, p) && Crash(a, b)
    ensures Applying(b, prior, p)
  {
    assert b.mem.sheets == p.sheets;
  }

  /** A durable image that is old or new can take the patch. */
  lemma QuietBetween(sums: Sums, prior: seq<Sheet>, now: seq<Sheet>, p: Patch)
    requires WfPatch(sums, p) && (now == prior || now == Patched(prior, p))
    ensures Between(Img(now, false, |now|, {}), prior, p)
  {
    SizeIs(sums, prior, p);
  }

  /* ---- the image file ---- */

  /** `ftruncate`, when the image shrinks. */
  function Cut(img: Img, tot: nat): Img
    requires tot <= |img.cur|
  {
    img.(cur := img.cur[..tot], ragged := false)
  }

  /** `pwrite` of one page. Past the end the gap is zero, but for a partial page
      that a crash may have left there. */
  function Put(img: Img, pag: nat, sheet: Sheet): Img {
    if pag < |img.cur| then img.(cur := img.cur[pag := sheet], touched := img.touched + {pag})
    else
      var gap := seq(pag - |img.cur|, i => if i == 0 && img.ragged then Torn else ZERO);
      img.(cur := img.cur + gap + [sheet], ragged := false, touched := img.touched + {pag})
  }

  /** What the first `k` lines of a patch leave at page `i`. */
  function FindTo(p: Patch, k: nat, i: nat): Option<Sheet>
    requires k <= |p.sheets| == |p.con.lines|
  {
    Find(p.con.lines[..k], p.sheets[..k], i)
  }

  /** The first `k` pages of the patch are in the image. */
  ghost predicate Written(img: Img, p: Patch, k: nat)
    requires k <= |p.sheets| == |p.con.lines|
  {
    forall i: nat :: FindTo(p, k, i).Some? ==>
      i < |img.cur| && img.cur[i] == FindTo(p, k, i).value
  }

  lemma FindNext(p: Patch, k: nat, i: nat)
    requires k < |p.sheets| == |p.con.lines|
    ensures FindTo(p, k + 1, i) == if p.con.lines[k].pag == i then Some(p.sheets[k]) else FindTo(p, k, i)
  {
    assert p.con.lines[..k + 1][..k] == p.con.lines[..k];
    assert p.sheets[..k + 1][..k] == p.sheets[..k];
  }

  lemma {:induction false} FindLine(lines: seq<Line>, sheets: seq<Sheet>, k: nat)
    requires k < |lines| == |sheets|
    ensures Find(lines, sheets, lines[k].pag).Some?
  {
    if k < |lines| - 1 && lines[|lines| - 1].pag != lines[k].pag {
      FindLine(lines[..|lines| - 1], sheets[..|lines| - 1], k);
    }
  }

  lemma PutBetween(sums: Sums, img: Img, prior: seq<Sheet>, p: Patch, k: nat)
    requires WfPatch(sums, p) && k < |p.sheets| && Between(img, prior, p) && Written(img, p, k)
    ensures var next := Put(img, p.con.lines[k].pag, p.sheets[k]); Between(next, prior, p) && Written(next, p, k + 1)
    ensures |img.cur| <= Size(prior, p) ==> |Put(img, p.con.lines[k].pag, p.sheets[k]).cur| <= Size(prior, p)
  {
    FindLine(p.con.lines, p.sheets, k);
    PutWritten(img, p, k);
    SizeIs(sums, prior, p);
    hide Size, Find, Written, FindTo;
  }

  lemma PutWritten(img: Img, p: Patch, k: nat)
    requires k < |p.sheets| == |p.con.lines| && Written(img, p, k)
    ensures Written(Put(img, p.con.lines[k].pag, p.sheets[k]), p, k + 1)
  {
    hide Find;
    var next, m := Put(img, p.con.lines[k].pag, p.sheets[k]), k + 1;
    forall i: nat | FindTo(p, m, i).Some?
      ensures i < |next.cur| && next.cur[i] == FindTo(p, m, i).value
    {
      FindNext(p, k, i);
    }
    assert Written(next, p, m);
  }

  lemma CutBetween(sums: Sums, img: Img, prior: seq<Sheet>, p: Patch)
    requires WfPatch(sums, p) && Between(img, prior, p) && p.con.tot < |img.cur|
    ensures Between(Cut(img, p.con.tot), prior, p)
  {
    SizeIs(sums, prior, p);
  }

  /** When all of the patch is in, the image is the new one. */
  lemma WrittenAll(sums: Sums, img: Img, prior: seq<Sheet>, p: Patch)
    requires WfPatch(sums, p) && Between(img, prior, p) && Written(img, p, |p.sheets|) && |img.cur| <= Size(prior, p)
    ensures img.cur == Patched(prior, p) && !img.ragged
  {
    assert p.con.lines[..|p.sheets|] == p.con.lines && p.sheets[..|p.sheets|] == p.sheets;
    SizeIs(sums, prior, p);
    var end := Size(prior, p);
    if end > |prior| {
      assert FindTo(p, |p.sheets|, end - 1).Some?;
    }
    assert |img.cur| == end;
    assert forall i: nat :: FindTo(p, |p.sheets|, i) == Find(p.con.lines, p.sheets, i);
    forall i | 0 <= i < |img.cur|
      ensures img.cur[i] == PageAfter(prior, p, i)
    {
    }
  }

  /* ---- composing a patch ---- */

  /** A page of the heap that its directory says is free. */
  predicate Skipped(off: nat, free: seq<bool>, i: nat) {
    i >= off && i - off < |free| && free[i - off]
  }

  /** Memory: its pages, which of them are dirty, where the heap starts and which
      of its pages are free. */
  datatype Loom = Loom(pages: seq<nat>, dirty: seq<bool>, off: nat, free: seq<bool>)

  predicate Chosen(loom: Loom, i: nat)
    requires i < |loom.dirty|
  {
    loom.dirty[i] && !Skipped(loom.off, loom.free, i)
  }

  function LinesTo(sums: Sums, loom: Loom, k: nat): seq<Line>
    requires k <= |loom.pages| == |loom.dirty|
  {
    if k == 0 then []
    else if Chosen(loom, k - 1) then LinesTo(sums, loom, k - 1) + [Line(k - 1, sums.muk(loom.pages[k - 1]))]
    else LinesTo(sums, loom, k - 1)
  }

  function SheetsTo(loom: Loom, k: nat): seq<Sheet>
    requires k <= |loom.pages| == |loom.dirty|
  {
    if k == 0 then []
    else if Chosen(loom, k - 1) then SheetsTo(loom, k - 1) + [Page(loom.pages[k - 1])]
    else SheetsTo(loom, k - 1)
  }

  lemma {:induction false} ComposedFind(sums: Sums, loom: Loom, k: nat, i: nat)
    requires k <= |loom.pages| == |loom.dirty|
    ensures |LinesTo(sums, loom, k)| == |SheetsTo(loom, k)|
    ensures Find(LinesTo(sums, loom, k), SheetsTo(loom, k), i)
            == if i < k && loom.dirty[i] && !(loom.off <= i < loom.off + |loom.free| && loom.free[i - loom.off])
               then Some(Page(loom.pages[i])) else None
  {
    if k > 0 {
      ComposedFind(sums, loom, k - 1, i);
      if Chosen(loom, k - 1) {
        var lines, sheets := LinesTo(sums, loom, k), SheetsTo(loom, k);
        assert lines[..|lines| - 1] == LinesTo(sums, loom, k - 1) && sheets[..|sheets| - 1] == SheetsTo(loom, k - 1);
      }
    }
  }

  lemma {:induction false} ComposedOk(sums: Sums, loom: Loom, k: nat)
    requires k <= |loom.pages| == |loom.dirty|
    ensures var lines, sheets := LinesTo(sums, loom, k), SheetsTo(loom, k);
            |lines| == |sheets| && forall i :: 0 <= i < |lines| ==>
                SheetOk(sums, lines[i], sheets[i]) && lines[i].pag < k
  {
    if k > 0 {
      ComposedOk(sums, loom, k - 1);
    }
  }

  function Composed(sums: Sums, loom: Loom, max: nat): (p: Patch)
    requires max <= |loom.pages| == |loom.dirty|
    ensures |p.sheets| == |p.con.lines| && p.con.tot == max
  {
    ComposedOk(sums, loom, max);
    var lines := LinesTo(sums, loom, max);
    Patch(Control(VERLAT, sums.meta(max, lines), max, lines), SheetsTo(loom, max))
  }

  /** A composed patch is well formed. It reaches the whole new length exactly if
      that does not grow, or the last page is dirty and in use. */
  lemma ComposedWf(sums: Sums, loom: Loom, max: nat, prior: seq<Sheet>)
    requires max <= |loom.pages| == |loom.dirty|
    ensures WfPatch(sums, Composed(sums, loom, max))
    ensures var con := Composed(sums, loom, max).con;
            con.ver == 1 && con.tot == max && con.has == sums.meta(max, con.lines)
    ensures Reaches(prior, Composed(sums, loom, max)) <==>
              max <= |prior|
              || (loom.dirty[max - 1]
                  && !(loom.off <= max - 1 < loom.off + |loom.free| && loom.free[max - 1 - loom.off]))
  {
    ComposedOk(sums, loom, max);
    if max > 0 {
      ComposedFind(sums, loom, max, max - 1);
    }
  }
}
