/** Saving, recovering, and tracking dirty pages. Every step on the disk is
    recorded, so that what is said of the record is said of a crash at any point. */
module Saving {
  import opened Nouns
  import opened Snapshot

  class Store {
    const sums: Sums
    var disk: Disk
    /** The number of image pages, as far as the process knows. */
    var pgs: nat
    var loom: Loom
    /** Every state the disk has been in. */
    ghost var trace: seq<Disk>

    constructor (sums: Sums, disk: Disk, loom: Loom)
      ensures this.sums == sums && this.disk == disk && this.loom == loom && trace == [] && pgs == 0
    {
      this.sums, this.disk, this.loom, this.pgs := sums, disk, loom, 0;
      trace := [];
    }

    /** The disk was safe at every moment since the first `from`. */
    ghost predicate SafeSince(from: nat, prior: seq<Sheet>, p: Patch)
      reads this`trace
    {
      from <= |trace| && forall i :: from <= i < |trace| ==> Safe(sums, trace[i], prior, p)
    }

    /** One step on the disk. */
    method Step(next: Disk)
      modifies this`disk, this`trace
      ensures disk == next && trace == old(trace) + [next]
    {
      disk := next;
      trace := trace + [next];
    }

    /* ---- the patch files ---- */

    /** Create both files; fails if either is there. */
    method PatchCreate(ghost prior: seq<Sheet>, ghost p: Patch) returns (ok: bool)
      requires WfPatch(sums, p) && disk.img == Img(prior, false, |prior|, {})
      requires disk.ctl.Ctl? ==> disk.ctl.val.None?
      modifies this`disk, this`trace
      ensures SafeSince(|old(trace)|, prior, p) && old(trace) <= trace && disk.img == old(disk).img
      ensures ok <==> old(disk.ctl).NoCtl? && old(disk.mem).NoMem?
      ensures ok ==> disk.ctl == Ctl(None, false) && disk.mem == Mem([], false)
      ensures !ok ==> disk.ctl.Ctl? && disk.ctl.val.None?
    {
      if disk.ctl.Ctl? {
        return false;
      }
      Step(disk.(ctl := Ctl(None, false)));
      if disk.mem.Mem? {
        return false;
      }
      Step(disk.(mem := Mem([], false)));
      ok := true;
    }

    /** How many pages the patch will have. */
    method CountPages(max: nat) returns (count: nat)
      requires max <= |loom.pages| == |loom.dirty|
      ensures count == |LinesTo(sums, loom, max)|
    {
      count := 0;
      for i := 0 to max
        invariant count == |LinesTo(sums, loom, i)|
      {
        if Chosen(loom, i) {
          count := count + 1;
        }
      }
    }

    /** Write the chosen pages, then the control block. */
    method WritePatch(max: nat, ghost prior: seq<Sheet>) returns (con: Control)
      requires max <= |loom.pages| == |loom.dirty|
      requires disk.img == Img(prior, false, |prior|, {})
      requires disk.ctl == Ctl(None, false) && disk.mem == Mem([], false)
      modifies this`disk, this`trace
      ensures SafeSince(|old(trace)|, prior, Composed(sums, loom, max)) && old(trace) <= trace
          && disk.img == old(disk).img
      ensures con == Composed(sums, loom, max).con
      ensures disk.ctl == Ctl(Some(con), false) && disk.mem == Mem(Composed(sums, loom, max).sheets, false)
    {
      ghost var p := Composed(sums, loom, max);
      ComposedWf(sums, loom, max, prior);
      var lines := [];
      for i := 0 to max
        invariant lines == LinesTo(sums, loom, i)
        invariant disk.img == Img(prior, false, |prior|, {}) && disk.ctl == Ctl(None, false)
            && disk.mem == Mem(SheetsTo(loom, i), false)
        invariant SafeSince(|old(trace)|, prior, p) && old(trace) <= trace
      {
        if Chosen(loom, i) {
          lines := lines + [Line(i, sums.muk(loom.pages[i]))];
          Step(disk.(mem := Mem(disk.mem.sheets + [Page(loom.pages[i])], false)));
        }
      }
      con := Control(VERLAT, sums.meta(max, lines), max, lines);
      Step(disk.(ctl := Ctl(Some(con), false)));
    }

    /** Flush both files. */
    method PatchSync(ghost prior: seq<Sheet>, ghost p: Patch)
      requires WfPatch(sums, p) && disk.img == Img(prior, false, |prior|, {})
      requires disk.ctl == Ctl(Some(p.con), false) && disk.mem == Mem(p.sheets, false)
      modifies this`disk, this`trace
      ensures SafeSince(|old(trace)|, prior, p) && old(trace) <= trace
      ensures disk == Disk(old(disk).img, Ctl(Some(p.con), true), Mem(p.sheets, true))
    {
      Step(disk.(ctl := disk.ctl.(synced := true)));
      Step(disk.(mem := disk.mem.(synced := true)));
    }

    /** Check the patch: its version, the checksum of its control block, and of every
        page that the block names, which have all to be there and whole. */
    method PatchVerify(con: Control, sheets: seq<Sheet>) returns (ok: bool)
      ensures ok == Verified(sums, con, sheets)
      ensures ok <==>
                && con.ver == 1 && con.has == sums.meta(con.tot, con.lines) && |sheets| >= |con.lines|
                && forall i :: 0 <= i < |con.lines| ==>
                     sheets[i].Page? && sums.muk(sheets[i].data) == con.lines[i].has
    {
      if con.ver != VERLAT || con.has != sums.meta(con.tot, con.lines) {
        return false;
      }
      var i := 0;
      while i < |con.lines|
        invariant i <= |con.lines| && i <= |sheets| && forall j :: 0 <= j < i ==> SheetOk(sums, con.lines[j], sheets[j])
      {
        if i >= |sheets| || !SheetOk(sums, con.lines[i], sheets[i]) {
          return false;
        }
        i := i + 1;
      }
      ok := true;
    }

    /** Write the patch into the image. */
    method PatchApply(con: Control, sheets: seq<Sheet>, ghost prior: seq<Sheet>)
      requires |sheets| == |con.lines| && WfPatch(sums, Patch(con, sheets))
      requires Applying(disk, prior, Patch(con, sheets))
      requires pgs == if disk.img.ragged then 0 else |disk.img.cur|
      modifies this`disk, this`trace, this`pgs
      ensures SafeSince(|old(trace)|, prior, Patch(con, sheets)) && old(trace) <= trace
      ensures Applying(disk, prior, Patch(con, sheets)) && disk.mem == old(disk.mem)
      ensures disk.img.cur == Patched(prior, Patch(con, sheets)) && !disk.img.ragged && pgs == con.tot
    {
      ghost var p := Patch(con, sheets);
      hide Find, Between, WfPatch, Size;
      if pgs > con.tot {
        CutBetween(sums, disk.img, prior, p);
        Step(disk.(img := Cut(disk.img, con.tot)));
      }
      pgs := con.tot;
      NoneWritten(disk.img, p);
      SmallEnough(sums, disk.img, prior, p);
      for k := 0 to |sheets|
        invariant SafeSince(|old(trace)|, prior, p) && old(trace) <= trace
        invariant disk.mem == old(disk.mem)
        invariant Applying(disk, prior, p) && Written(disk.img, p, k) && |disk.img.cur| <= Size(prior, p)
            && pgs == con.tot
      {
        PutBetween(sums, disk.img, prior, p, k);
        Step(disk.(img := Put(disk.img, con.lines[k].pag, sheets[k])));
      }
      WrittenAll(sums, disk.img, prior, p);
    }

    /** Flush the image. */
    method ImageSync(ghost prior: seq<Sheet>, ghost p: Patch)
      requires WfPatch(sums, p) && Applying(disk, prior, p)
      requires disk.img.cur == Patched(prior, p) && !disk.img.ragged
      modifies this`disk, this`trace
      ensures SafeSince(|old(trace)|, prior, p) && old(trace) <= trace && Quiet(disk, Patched(prior, p), p)
      ensures disk.ctl == old(disk.ctl) && disk.mem == old(disk.mem)
    {
      Step(disk.(img := Img(disk.img.cur, false, |disk.img.cur|, {})));
    }

    /** Delete the patch: the control file first. */
    method PatchDelete(ghost prior: seq<Sheet>, ghost now: seq<Sheet>, ghost p: Patch)
      requires WfPatch(sums, p) && (now == prior || now == Patched(prior, p)) && Quiet(disk, now, p)
      modifies this`disk, this`trace
      ensures SafeSince(|old(trace)|, prior, p) && old(trace) <= trace
      ensures disk == Disk(Img(now, false, |now|, {}), NoCtl, NoMem)
      ensures |trace| >= 2 && trace[|trace| - 2] == old(disk).(ctl := NoCtl)
    {
      Step(disk.(ctl := NoCtl));
      Step(disk.(mem := NoMem));
    }

    /* ---- tracking ---- */

    /** A clean page is what the image has; a page outside the image is dirty. */
    ghost predicate Tracked()
      reads this
    {
      && |loom.pages| == |loom.dirty| && |disk.img.cur| == pgs <= |loom.pages| && !disk.img.ragged
      && (forall i :: 0 <= i < pgs ==> disk.img.cur[i].Page?)
      && (forall i :: 0 <= i < |loom.pages| && !loom.dirty[i] ==> i < pgs && disk.img.cur[i] == Page(loom.pages[i]))
    }

    /** At rest, all pages of the image are clean and all others dirty. */
    ghost predicate Resting()
      reads this
    {
      Tracked() && forall i :: 0 <= i < |loom.pages| ==> (loom.dirty[i] <==> i >= pgs)
    }

    /** A write to memory: the first to a clean page faults, and makes it dirty. */
    method Write(i: nat, data: nat)
      requires Tracked() && i < |loom.pages|
      modifies this`loom
      ensures Tracked() && loom == old(loom).(pages := old(loom.pages)[i := data], dirty := old(loom.dirty)[i := true])
    {
      if !loom.dirty[i] {
        Fault(i);
      }
      loom := loom.(pages := loom.pages[i := data]);
    }

    method Fault(i: nat)
      requires Tracked() && i < |loom.pages| && !loom.dirty[i]
      modifies this`loom
      ensures Tracked() && loom == old(loom).(dirty := old(loom.dirty)[i := true])
    {
      loom := loom.(dirty := loom.dirty[i := true]);
    }

    /** Map `pgs` pages of the image, cleanly, into the bottom of memory; what was
        mapped above them is now plain memory, and dirty. If the file is shorter there
        is nothing behind the last of them. */
    method Map(was: nat)
      requires |loom.pages| == |loom.dirty| && |disk.img.cur| <= pgs <= |loom.pages| && was <= |loom.pages|
          && !disk.img.ragged
      requires forall i :: 0 <= i < |disk.img.cur| ==> disk.img.cur[i].Page?
      requires forall i :: 0 <= i < |loom.pages| && !loom.dirty[i] ==> i < was || i < pgs
      modifies this`loom
      ensures Resting() <==> pgs == |disk.img.cur|
      ensures |loom.pages| == |loom.dirty| == |old(loom.pages)| && loom.off == old(loom.off)
          && loom.free == old(loom.free)
      ensures forall i :: 0 <= i < |disk.img.cur| ==> !loom.dirty[i] && disk.img.cur[i] == Page(loom.pages[i])
    {
      var i := 0;
      while i < pgs
        invariant i <= pgs && |loom.pages| == |loom.dirty| == |old(loom.pages)|
        invariant loom.off == old(loom.off) && loom.free == old(loom.free)
        invariant forall j :: 0 <= j < i ==>
            !loom.dirty[j] && (j < |disk.img.cur| ==> disk.img.cur[j] == Page(loom.pages[j]))
        invariant forall j :: i <= j < |loom.pages| ==> loom.dirty[j] == old(loom.dirty)[j]
      {
        if i < |disk.img.cur| {
          loom := loom.(pages := loom.pages[i := disk.img.cur[i].data]);
        }
        loom := loom.(dirty := loom.dirty[i := false]);
        i := i + 1;
      }
      while i < was
        invariant pgs <= i && (i <= was || i == pgs) && |loom.pages| == |loom.dirty| == |old(loom.pages)|
        invariant loom.off == old(loom.off) && loom.free == old(loom.free)
        invariant forall j :: 0 <= j < pgs ==>
            !loom.dirty[j] && (j < |disk.img.cur| ==> disk.img.cur[j] == Page(loom.pages[j]))
        invariant forall j :: pgs <= j < i ==> loom.dirty[j]
        invariant forall j :: i <= j < |loom.pages| ==> loom.dirty[j] == old(loom.dirty)[j]
      {
        loom := loom.(pages := loom.pages[i := 0], dirty := loom.dirty[i := true]);
        i := i + 1;
      }
    }

    /* ---- saving and starting ---- */

    /** Save the pages below `max`. Fails only if there are patch files already. When
        the heap has grown and its last page is free, the image file is left shorter
        than the process takes it to be. */
    method Save(max: nat, ghost prior: seq<Sheet>) returns (ok: bool)
      requires Tracked() && max <= |loom.pages| && disk.img == Img(prior, false, |prior|, {})
      requires disk.ctl.Ctl? ==> disk.ctl.val.None?
      modifies this
      ensures SafeSince(|old(trace)|, prior, old(Composed(sums, loom, max))) && old(trace) <= trace
      ensures ok <==> |old(Composed(sums, loom, max)).sheets| == 0 || (old(disk.ctl).NoCtl? && old(disk.mem).NoMem?)
      ensures ok ==> |loom.pages| == |loom.dirty| == |old(loom.pages)|
      ensures ok ==>
                var off, free := old(loom.off), old(loom.free);
                forall i :: 0 <= i < max && !(off <= i < off + |free| && free[i - off]) ==>
                  SheetAt(disk.img.cur, i) == Some(Page(old(loom.pages)[i])) && loom.pages[i] == old(loom.pages)[i]
      ensures ok && |old(Composed(sums, loom, max)).sheets| > 0 ==>
                var off, free := old(loom.off), old(loom.free);
                forall i :: 0 <= i < |disk.img.cur| && off <= i < off + |free| && free[i - off] ==>
                  disk.img.cur[i] == if i < |prior| then prior[i] else Page(0)
      ensures ok && |old(Composed(sums, loom, max)).sheets| == 0 ==>
          disk == old(disk) && loom == old(loom) && pgs == old(pgs)
      ensures ok && |old(Composed(sums, loom, max)).sheets| > 0 ==>
                var now := Patched(prior, old(Composed(sums, loom, max)));
                && disk == Disk(Img(now, false, |now|, {}), NoCtl, NoMem) && pgs == max
                && var off, free := old(loom.off), old(loom.free);
                && (Resting() <==>
                    max <= |prior| || !(off <= max - 1 < off + |free| && free[max - 1 - off]))
                && |trace| >= 2 && trace[|trace| - 2] == disk.(mem := Mem(old(Composed(sums, loom, max)).sheets, true))
      ensures !ok ==> disk.img == old(disk.img) && loom == old(loom)
    {
      hide Composed, Patched, LinesTo, SheetsTo, Applying, Quiet, Reaches, WfPatch, Verified, Size, Safe, Find;
      hide Between, Skipped, Chosen, Tracked, Resting;
      TrackedIs(this, prior);
      ghost var p := Composed(sums, loom, max);
      ghost var was := loom;
      var before := pgs;
      ComposedWf(sums, loom, max, prior);
      ReachesIs(sums, prior, p);
      AllChosen(this, max);
      var count := CountPages(max);
      CountIs(sums, loom, max);
      if count == 0 {
        NoneChosen(sums, loom, max);
        return true;
      }
      ok := PatchCreate(prior, p);
      if !ok {
        return;
      }
      Commit(max, prior);
      NewPages(sums, was, max, prior);
      AllSaved(this, was, max, prior);
      Map(before);
    }

    /** From empty patch files to a new image: write, flush, check, apply, delete. */
    method Commit(max: nat, ghost prior: seq<Sheet>)
      requires max <= |loom.pages| == |loom.dirty| && |prior| == pgs
      requires disk == Disk(Img(prior, false, |prior|, {}), Ctl(None, false), Mem([], false))
      modifies this`disk, this`trace, this`pgs
      ensures SafeSince(|old(trace)|, prior, Composed(sums, loom, max)) && old(trace) <= trace && pgs == max
      ensures var now := Patched(prior, Composed(sums, loom, max));
          disk == Disk(Img(now, false, |now|, {}), NoCtl, NoMem)
      ensures |trace| >= 2 && trace[|trace| - 2] == disk.(mem := Mem(Composed(sums, loom, max).sheets, true))
    {
      ghost var p := Composed(sums, loom, max);
      hide Composed, Patched, LinesTo, SheetsTo, Reaches, WfPatch, Verified, Size, Between, Find;
      ComposedWf(sums, loom, max, prior);
      var con := WritePatch(max, prior);
      PatchSync(prior, p);
      var sheets := disk.mem.sheets;
      SyncedApplies(sums, disk, prior, p);
      var good := PatchVerify(con, sheets);
      assert good;
      PatchApply(con, sheets, prior);
      ImageSync(prior, p);
      PatchDelete(prior, Patched(prior, p), p);
    }

    /* ---- starting ---- */

    /** Open the patch, if there is one that can be applied; delete any other. */
    method PatchOpen(ghost prior: seq<Sheet>, ghost now: seq<Sheet>, ghost p: Patch) returns (patch: Option<Patch>)
      requires (disk.ctl.Ctl? ==> disk.ctl.synced) && (disk.mem.Mem? ==> disk.mem.synced)
      requires Safe(sums, disk, prior, p)
          && (!Applying(disk, prior, p) ==> Quiet(disk, now, p) && (now == prior || now == Patched(prior, p)))
      modifies this`disk, this`trace
      ensures SafeSince(|old(trace)|, prior, p) && old(trace) <= trace && disk.img == old(disk).img
      ensures patch.Some? ==> patch.value == p && Applying(disk, prior, p)
      ensures old(disk.ctl).NoCtl? ==> patch.None? && disk == old(disk)
      ensures patch.None? ==> Quiet(disk, now, p) && (now == prior || now == Patched(prior, p)) && disk.ctl.NoCtl?
    {
      hide Find, Patched, Between, Size;
      patch := None;
      if disk.ctl.NoCtl? {
        return;
      }
      if disk.mem.Mem? && disk.ctl.val.Some? {
        var con := disk.ctl.val.value;
        var good := PatchVerify(con, disk.mem.sheets);
        if good {
          VerifiedIsPatch(sums, disk, prior, now, p);
          return Some(Patch(con, disk.mem.sheets));
        }
      }
      NotApplying(sums, disk, prior, p);
      PatchDelete(prior, now, p);
    }

    /** Start after a crash: the image is the old one or the new one, no control
        block is left, and memory is at rest, but for a patch just applied that does
        not reach the length it says. */
    method Live(ghost before: Disk, ghost prior: seq<Sheet>, ghost p: Patch) returns (ok: bool)
      requires Safe(sums, before, prior, p) && Crash(before, disk)
      requires (forall i :: 0 <= i < |prior| ==> prior[i].Page?)
      requires |loom.pages| == |loom.dirty| && |prior| <= |loom.pages| && p.con.tot <= |loom.pages|
      modifies this
      ensures ok && SafeSince(|old(trace)|, prior, p) && old(trace) <= trace
      ensures disk.img == Img(prior, false, |prior|, {})
          || disk.img == Img(Patched(prior, p), false, |Patched(prior, p)|, {})
      ensures disk.ctl.NoCtl? && (Resting() <==> pgs == |disk.img.cur|)
      ensures pgs == |disk.img.cur| || (pgs == p.con.tot && !Reaches(prior, p))
      ensures old(disk.ctl).NoCtl? ==> disk == old(disk)
      ensures |loom.pages| == |loom.dirty| == |old(loom.pages)| && loom.off == old(loom.off)
          && loom.free == old(loom.free)
    {
      hide *;
      CrashSafe(sums, before, disk, prior, p);
      PatchedWhole(sums, prior, p);
      ReachesIs(sums, prior, p);
      CrashedSynced(before, disk);
      ghost var now := Restarted(sums, disk, prior, p);
      ok := Recover(prior, now, p);
      loom := loom.(dirty := seq(|loom.dirty|, _ => true));
      Map(0);
    }

    /** Apply the patch, if there is one. */
    method Recover(ghost prior: seq<Sheet>, ghost now: seq<Sheet>, ghost p: Patch) returns (ok: bool)
      requires (disk.ctl.Ctl? ==> disk.ctl.synced) && (disk.mem.Mem? ==> disk.mem.synced)
      requires Safe(sums, disk, prior, p)
      requires !Applying(disk, prior, p) ==> Quiet(disk, now, p) && (now == prior || now == Patched(prior, p))
      modifies this`disk, this`trace, this`pgs
      ensures ok && SafeSince(|old(trace)|, prior, p) && old(trace) <= trace
      ensures disk.img == Img(prior, false, |prior|, {})
          || disk.img == Img(Patched(prior, p), false, |Patched(prior, p)|, {})
      ensures disk.ctl.NoCtl? && (pgs == |disk.img.cur| || (disk.img.cur == Patched(prior, p) && pgs == p.con.tot))
      ensures old(disk.ctl).NoCtl? ==> disk == old(disk)
    {
      hide Patched, Reaches, Find, Between, Size;
      pgs := if disk.img.ragged then 0 else |disk.img.cur|;
      var ragged := disk.img.ragged;
      var patch := PatchOpen(prior, now, p);
      if patch.Some? {
        PatchApply(patch.value.con, patch.value.sheets, prior);
        ImageSync(prior, p);
        PatchDelete(prior, Patched(prior, p), p);
      } else if ragged {
        return false;
      }
      ok := true;
    }
  }

  ghost function Restarted(sums: Sums, d: Disk, prior: seq<Sheet>, p: Patch): (now: seq<Sheet>)
    requires Safe(sums, d, prior, p)
    ensures !Applying(d, prior, p) ==> Quiet(d, now, p) && (now == prior || now == Patched(prior, p))
  {
    if Quiet(d, prior, p) then prior else Patched(prior, p)
  }

  lemma CrashedSynced(a: Disk, b: Disk)
    requires Crash(a, b)
    ensures (b.ctl.Ctl? ==> b.ctl.synced) && (b.mem.Mem? ==> b.mem.synced)
  {
  }

  /** In a safe disk at rest, a patch that passes the check is the patch. */
  lemma VerifiedIsPatch(sums: Sums, d: Disk, prior: seq<Sheet>, now: seq<Sheet>, p: Patch)
    requires Safe(sums, d, prior, p) && d.ctl.Ctl? && d.ctl.synced && d.ctl.val.Some? && d.mem.Mem? && d.mem.synced
    requires Verified(sums, d.ctl.val.value, d.mem.sheets)
    ensures p == Patch(d.ctl.val.value, d.mem.sheets) && Applying(d, prior, p)
  {
    if !Applying(d, prior, p) {
      forall i | 0 <= i < |p.sheets|
        ensures d.mem.sheets[i] == p.sheets[i]
      {
        assert SheetOk(sums, p.con.lines[i], d.mem.sheets[i]);
      }
      assert d.mem.sheets == p.sheets;
      if Quiet(d, prior, p) {
        QuietBetween(sums, prior, prior, p);
      } else {
        QuietBetween(sums, prior, Patched(prior, p), p);
      }
    }
  }

  lemma NotApplying(sums: Sums, d: Disk, prior: seq<Sheet>, p: Patch)
    requires WfPatch(sums, p)
    requires d.ctl.Ctl? && d.mem.Mem? && d.ctl.val.Some? ==> !Verified(sums, d.ctl.val.value, d.mem.sheets)
    ensures !Applying(d, prior, p)
  {
  }

  /** Every page of the new image is whole. */
  lemma PatchedWhole(sums: Sums, prior: seq<Sheet>, p: Patch)
    requires WfPatch(sums, p) && forall i :: 0 <= i < |prior| ==> prior[i].Page?
    ensures forall i :: 0 <= i < |Patched(prior, p)| ==> Patched(prior, p)[i].Page?
    ensures |Patched(prior, p)| <= p.con.tot
  {
    SizeIs(sums, prior, p);
    forall i | 0 <= i < p.con.tot
      ensures PageAfter(prior, p, i).Page?
    {
      FindWhole(sums, p.con.lines, p.sheets, i);
    }
  }

  lemma {:induction false} FindWhole(sums: Sums, lines: seq<Line>, sheets: seq<Sheet>, i: nat)
    requires |lines| == |sheets| && forall k :: 0 <= k < |lines| ==> SheetOk(sums, lines[k], sheets[k])
    ensures Find(lines, sheets, i).Some? ==> Find(lines, sheets, i).value.Page?
  {
    if |lines| > 0 {
      var n := |lines| - 1;
      assert SheetOk(sums, lines[n], sheets[n]);
      forall k | 0 <= k < n
        ensures SheetOk(sums, lines[..n][k], sheets[..n][k])
      {
        assert SheetOk(sums, lines[k], sheets[k]);
      }
      FindWhole(sums, lines[..n], sheets[..n], i);
    }
  }

  /** Every page past the image is dirty, so it is chosen unless it is free. */
  lemma TrackedIs(store: Store, prior: seq<Sheet>)
    requires store.Tracked() && store.disk.img.cur == prior
    ensures |store.loom.pages| == |store.loom.dirty| && |prior| == store.pgs <= |store.loom.pages|
    ensures forall i :: 0 <= i < |prior| ==> prior[i].Page?
    ensures forall i :: 0 <= i < |store.loom.pages| && !store.loom.dirty[i] ==>
              i < |prior| && prior[i] == Page(store.loom.pages[i])
  {
  }

  lemma AllChosen(store: Store, max: nat)
    requires store.Tracked() && max <= |store.loom.pages|
    ensures forall i :: store.pgs <= i < max ==> store.loom.dirty[i]
  {
  }

  lemma CountIs(sums: Sums, loom: Loom, max: nat)
    requires max <= |loom.pages| == |loom.dirty|
    ensures |LinesTo(sums, loom, max)| == |Composed(sums, loom, max).sheets|
  {
  }

  lemma NoneChosen(sums: Sums, loom: Loom, max: nat)
    requires max <= |loom.pages| == |loom.dirty| && |LinesTo(sums, loom, max)| == 0
    ensures forall i :: 0 <= i < max && !(loom.off <= i < loom.off + |loom.free| && loom.free[i - loom.off]) ==>
              !loom.dirty[i]
  {
    hide LinesTo, SheetsTo;
    forall i | 0 <= i < max && !(loom.off <= i < loom.off + |loom.free| && loom.free[i - loom.off])
      ensures !loom.dirty[i]
    {
      ComposedFind(sums, loom, max, i);
    }
  }

  lemma SyncedApplies(sums: Sums, d: Disk, prior: seq<Sheet>, p: Patch)
    requires WfPatch(sums, p) && d == Disk(Img(prior, false, |prior|, {}), Ctl(Some(p.con), true), Mem(p.sheets, true))
    ensures Applying(d, prior, p) && Verified(sums, p.con, p.sheets)
  {
    QuietBetween(sums, prior, prior, p);
  }

  /** The new image has every chosen page of memory, and is whole. */
  lemma NewPages(sums: Sums, loom: Loom, max: nat, prior: seq<Sheet>)
    requires max <= |loom.pages| == |loom.dirty| && forall i :: 0 <= i < |prior| ==> prior[i].Page?
    ensures var newer := Patched(prior, Composed(sums, loom, max));
            && |newer| <= max && (max <= |prior| ==> |newer| == max)
                && (forall i :: 0 <= i < |newer| ==> newer[i].Page?)
            && (max > |prior| ==> |newer| >= |prior|)
            && (forall i :: 0 <= i < |newer| ==>
                  newer[i] == (if loom.dirty[i]
                                  && !(loom.off <= i < loom.off + |loom.free| && loom.free[i - loom.off])
                               then Page(loom.pages[i]) else if i < |prior| then prior[i] else Page(0)))
            && (forall i :: |newer| <= i < max && loom.dirty[i] ==>
                  loom.off <= i < loom.off + |loom.free| && loom.free[i - loom.off])
  {
    var p := Composed(sums, loom, max);
    ComposedWf(sums, loom, max, prior);
    SizeIs(sums, prior, p);
    var newer := Patched(prior, p);
    hide LinesTo, SheetsTo, Find, Size;
    forall i | 0 <= i < |newer|
      ensures newer[i] == (if loom.dirty[i]
                              && !(loom.off <= i < loom.off + |loom.free| && loom.free[i - loom.off])
                           then Page(loom.pages[i]) else if i < |prior| then prior[i] else Page(0))
    {
      ComposedFind(sums, loom, max, i);
    }
    forall i | |newer| <= i < max && loom.dirty[i]
      ensures loom.off <= i < loom.off + |loom.free| && loom.free[i - loom.off]
    {
      ComposedFind(sums, loom, max, i);
    }
  }

  /** Every page that is in use is in the new image as it is in memory. */
  lemma AllSaved(store: Store, was: Loom, max: nat, prior: seq<Sheet>)
    requires max <= |was.pages| == |was.dirty| && forall i :: 0 <= i < |prior| ==> prior[i].Page?
    requires forall i :: 0 <= i < |was.pages| && !was.dirty[i] ==> i < |prior| && prior[i] == Page(was.pages[i])
    ensures var newer := Patched(prior, Composed(store.sums, was, max));
            forall i :: 0 <= i < max && !(was.off <= i < was.off + |was.free| && was.free[i - was.off]) ==>
              SheetAt(newer, i) == Some(Page(was.pages[i]))
  {
    hide Patched, Composed;
    NewPages(store.sums, was, max, prior);
    var newer := Patched(prior, Composed(store.sums, was, max));
    forall i | 0 <= i < max && !(was.off <= i < was.off + |was.free| && was.free[i - was.off])
      ensures SheetAt(newer, i) == Some(Page(was.pages[i]))
    {
      assert was.dirty[i] || !was.dirty[i];
    }
  }

  lemma NoneWritten(img: Img, p: Patch)
    requires |p.sheets| == |p.con.lines|
    ensures Written(img, p, 0)
  {
  }

  lemma SmallEnough(sums: Sums, img: Img, prior: seq<Sheet>, p: Patch)
    requires WfPatch(sums, p) && Between(img, prior, p) && (!img.ragged ==> |img.cur| <= p.con.tot)
    ensures |img.cur| <= Size(prior, p)
  {
    SizeIs(sums, prior, p);
  }

  /** A crash between the two unlinks of a save leaves the memory file. Restart finds
      the new image and no control file, so it leaves that file alone, and the next
      save cannot create its patch. */
  method LeftBehind(sums: Sums) returns (first: Store, second: Store, at: Disk, ok: bool)
    ensures at in first.trace && Crash(at, at) && at == Disk(Img([Page(7)], false, 1, {}), NoCtl, Mem([Page(7)], true))
    ensures second.disk.img == at.img && second.loom.pages == [8] && second.loom.dirty == [true] && !ok
  {
    hide Reaches, Size, Patched, LinesTo, SheetsTo, Find, Composed;
    var loom := Loom([7], [true], 0, []);
    ghost var p := Composed(sums, loom, 1);
    OnePage(sums, 7);
    first := new Store(sums, Disk(Img([], false, 0, {}), NoCtl, NoMem), loom);
    ok := first.Save(1, []);
    at := Disk(Img([Page(7)], false, 1, {}), NoCtl, Mem([Page(7)], true));
    assert first.trace[|first.trace| - 2] == at;
    second := new Store(sums, at, loom);
    ok := second.Live(at, [], p);
    second.Write(0, 8);
    NotEmpty(sums, second.loom, 1, 0);
    ok := second.Save(1, [Page(7)]);
  }

  /** The patch of a memory of one page, dirty. */
  lemma OnePage(sums: Sums, data: nat)
    ensures var p := Composed(sums, Loom([data], [true], 0, []), 1);
            p.sheets == [Page(data)] && Patched([], p) == [Page(data)] && Reaches([], p) && p.con.tot == 1
  {
    var loom := Loom([data], [true], 0, []);
    ComposedWf(sums, loom, 1, []);
    ReachesIs(sums, [], Composed(sums, loom, 1));
    ComposedFind(sums, loom, 1, 0);
    assert SheetsTo(loom, 1) == [Page(data)];
  }

  lemma NotEmpty(sums: Sums, loom: Loom, max: nat, i: nat)
    requires i < max <= |loom.pages| == |loom.dirty| && Chosen(loom, i)
    ensures |Composed(sums, loom, max).sheets| > 0
  {
    CountIs(sums, loom, max);
    ComposedFind(sums, loom, max, i);
  }
}
