/** The list of free page runs: entries linked both ways, with a head and a tail. */
module PageList {

  /** An entry: its neighbours (zero for none), its first page, its size. */
  datatype Dell = Dell(nex: nat, pre: nat, pag: nat, siz: nat)

  function At(order: seq<nat>, i: int): nat {
    if 0 <= i < |order| then order[i] else 0
  }

  predicate LinkAt(dells: map<nat, Dell>, order: seq<nat>, i: nat)
    requires i < |order|
  {
    order[i] != 0 && order[i] in dells && dells[order[i]].nex == At(order, i + 1)
        && dells[order[i]].pre == At(order, i - 1)
  }

  predicate Distinct(order: seq<nat>) {
    forall i, j :: 0 <= i < j < |order| ==> order[i] != order[j]
  }

  /** The links agree with an order of entries. */
  ghost predicate Links(dells: map<nat, Dell>, order: seq<nat>, fre: nat, erf: nat) {
    && Distinct(order) && (forall i :: 0 <= i < |order| ==> LinkAt(dells, order, i))
    && fre == At(order, 0) && erf == At(order, |order| - 1)
  }

  /** Entries keep their runs. */
  predicate SameRuns(was: map<nat, Dell>, now: map<nat, Dell>) {
    forall id :: id in was ==> id in now && now[id].pag == was[id].pag && now[id].siz == was[id].siz
  }

  function SetPre(dells: map<nat, Dell>, id: nat, pre: nat): (r: map<nat, Dell>)
    requires id in dells
    ensures SameRuns(dells, r) && r.Keys == dells.Keys
  {
    dells[id := dells[id].(pre := pre)]
  }

  function SetNex(dells: map<nat, Dell>, id: nat, nex: nat): (r: map<nat, Dell>)
    requires id in dells
    ensures SameRuns(dells, r) && r.Keys == dells.Keys
  {
    dells[id := dells[id].(nex := nex)]
  }

  function Dropped(order: seq<nat>, i: nat): seq<nat>
    requires i < |order|
  {
    order[..i] + order[i + 1..]
  }

  /** One link of the list without entry `i`. */
  lemma DropLink(dells: map<nat, Dell>, order: seq<nat>, fre: nat, erf: nat, i: nat, now: map<nat, Dell>, k: nat)
    requires Links(dells, order, fre, erf) && i < |order| && k < |order| - 1
    requires now.Keys == dells.Keys
    requires forall id :: id in dells && id != At(order, i + 1) && id != At(order, i - 1) ==> now[id] == dells[id]
    requires i + 1 < |order| ==>
        LinkAt(dells, order, i + 1) && now[order[i + 1]].pre == At(order, i - 1)
        && now[order[i + 1]].nex == dells[order[i + 1]].nex
    requires i > 0 ==>
        LinkAt(dells, order, i - 1) && now[order[i - 1]].nex == At(order, i + 1)
        && now[order[i - 1]].pre == dells[order[i - 1]].pre
    ensures LinkAt(now, Dropped(order, i), k)
  {
    var j := if k < i then k else k + 1;
    assert LinkAt(dells, order, j);
    assert Dropped(order, i)[k] == order[j];
    if j == i + 1 {
    } else if j == i - 1 {
    } else {
      assert order[j] != At(order, i + 1) && order[j] != At(order, i - 1);
    }
  }

  lemma DropDistinct(order: seq<nat>, i: nat)
    requires Distinct(order) && i < |order|
    ensures Distinct(Dropped(order, i)) && order[i] !in Dropped(order, i)
  {
  }

  function Added(order: seq<nat>, i: nat, id: nat): seq<nat>
    requires i <= |order|
  {
    order[..i] + [id] + order[i..]
  }

  /** One link of the list with an entry put in at `i`. */
  lemma AddLink(dells: map<nat, Dell>, order: seq<nat>, fre: nat, erf: nat, i: nat, id: nat, now: map<nat, Dell>,
        k: nat)
    requires Links(dells, order, fre, erf) && i <= |order| && k < |order| + 1 && id != 0 && id !in order
    requires id in now && now[id].nex == At(order, i) && now[id].pre == At(order, i - 1)
    requires forall x :: x in dells ==> x in now
    requires forall x :: x in dells && x != id && x != At(order, i) && x != At(order, i - 1) ==> now[x] == dells[x]
    requires i < |order| ==>
        LinkAt(dells, order, i) && now[order[i]].pre == id && now[order[i]].nex == dells[order[i]].nex
    requires i > 0 ==>
        LinkAt(dells, order, i - 1) && now[order[i - 1]].nex == id && now[order[i - 1]].pre == dells[order[i - 1]].pre
    ensures LinkAt(now, Added(order, i, id), k)
  {
    if k != i {
      var j := if k < i then k else k - 1;
      assert LinkAt(dells, order, j);
      assert Added(order, i, id)[k] == order[j];
      if j != i && j != i - 1 {
        assert order[j] != At(order, i) && order[j] != At(order, i - 1);
      }
    }
  }

  /** The whole list with it. */
  lemma AddLinks(dells: map<nat, Dell>, order: seq<nat>, fre: nat, erf: nat, i: nat, id: nat, now: map<nat, Dell>)
    requires Links(dells, order, fre, erf) && i <= |order| && id != 0 && id !in order
    requires id in now && now[id].nex == At(order, i) && now[id].pre == At(order, i - 1)
    requires forall x :: x in dells ==> x in now
    requires forall x :: x in dells && x != id && x != At(order, i) && x != At(order, i - 1) ==> now[x] == dells[x]
    requires i < |order| ==>
        LinkAt(dells, order, i) && now[order[i]].pre == id && now[order[i]].nex == dells[order[i]].nex
    requires i > 0 ==>
        LinkAt(dells, order, i - 1) && now[order[i - 1]].nex == id && now[order[i - 1]].pre == dells[order[i - 1]].pre
    ensures Links(now, Added(order, i, id), if i == 0 then id else fre, if i == |order| then id else erf)
  {
    forall k | 0 <= k < |order| + 1
      ensures LinkAt(now, Added(order, i, id), k)
    {
      hide *;
      AddLink(dells, order, fre, erf, i, id, now, k);
    }
    AddDistinct(order, i, id);
  }

  /** The entries on either side of a place in the list. */
  lemma Around(dells: map<nat, Dell>, order: seq<nat>, fre: nat, erf: nat, i: nat)
    requires Links(dells, order, fre, erf) && i <= |order|
    ensures fre == At(order, 0) && erf == At(order, |order| - 1)
    ensures (i < |order| ==> LinkAt(dells, order, i)) && (i > 0 ==> LinkAt(dells, order, i - 1))
    ensures 0 < i < |order| ==> order[i] != order[i - 1]
  {
  }

  lemma AddDistinct(order: seq<nat>, i: nat, id: nat)
    requires Distinct(order) && i <= |order| && id !in order
    ensures Distinct(Added(order, i, id))
  {
  }

  lemma OrderIn(dells: map<nat, Dell>, order: seq<nat>, fre: nat, erf: nat)
    requires Links(dells, order, fre, erf)
    ensures forall x :: x in order ==> x in dells
  {
    forall k | 0 <= k < |order|
      ensures order[k] in dells
    {
      assert LinkAt(dells, order, k);
    }
  }

  method Unused(dells: map<nat, Dell>) returns (id: nat)
    ensures id != 0 && id !in dells
  {
    var keys := dells.Keys;
    id := 1;
    while keys != {}
      invariant id != 0 && forall k :: k in dells && k !in keys ==> k < id
      decreases keys
    {
      var k: nat :| k in keys;
      id := if k < id then id else k + 1;
      keys := keys - {k};
    }
  }

  class FreeList {
    var dells: map<nat, Dell>
    var fre: nat
    var erf: nat
    ghost var order: seq<nat>

    ghost predicate Linked()
      reads this
    {
      Links(dells, order, fre, erf)
    }

    constructor ()
      ensures Linked() && order == []
    {
      dells, fre, erf, order := map[], 0, 0, [];
    }

    /** Take an entry out of the list. */
    method Unlink(id: nat, ghost i: nat)
      requires Linked() && i < |order| && order[i] == id
      modifies this
      ensures Linked() && order == Dropped(old(order), i) && SameRuns(old(dells), dells)
          && dells.Keys == old(dells).Keys
    {
      ghost var was := dells;
      assert LinkAt(dells, order, i);
      assert i + 1 < |order| ==> LinkAt(dells, order, i + 1);
      assert i > 0 ==> LinkAt(dells, order, i - 1);
      var d := dells[id];
      if d.nex != 0 {
        dells := SetPre(dells, d.nex, d.pre);
      } else {
        erf := d.pre;
      }
      if d.pre != 0 {
        dells := SetNex(dells, d.pre, d.nex);
      } else {
        fre := d.nex;
      }
      forall k | 0 <= k < |order| - 1
        ensures LinkAt(dells, Dropped(order, i), k)
      {
        DropLink(was, order, old(fre), old(erf), i, dells, k);
      }
      DropDistinct(order, i);
      order := Dropped(order, i);
    }

    /** Put a new entry before another, or at the end. */
    method Insert(id: nat, at: nat, pag: nat, siz: nat, ghost i: nat)
      requires Linked() && id != 0 && id !in order && i <= |order| && at == At(order, i)
      modifies this
      ensures Linked() && order == Added(old(order), i, id)
      ensures id in dells && dells[id].pag == pag && dells[id].siz == siz
      ensures forall x :: x in old(order) ==>
          x in old(dells) && x in dells && dells[x].pag == old(dells)[x].pag && dells[x].siz == old(dells)[x].siz
    {
      hide Links, Distinct, Added, SameRuns;
      ghost var was := dells;
      OrderIn(dells, order, fre, erf);
      Around(dells, order, fre, erf, i);
      var pre := if at == 0 then erf else dells[at].pre;
      dells := dells[id := Dell(at, pre, pag, siz)];
      if at != 0 {
        dells := SetPre(dells, at, id);
      } else {
        erf := id;
      }
      if pre != 0 {
        dells := SetNex(dells, pre, id);
      } else {
        fre := id;
      }
      AddLinks(was, order, old(fre), old(erf), i, id, dells);
      order := Added(order, i, id);
    }

    /** Change an entry's run. */
    method Resize(id: nat, pag: nat, siz: nat, ghost i: nat)
      requires Linked() && i < |order| && order[i] == id
      modifies this`dells
      ensures Linked() && id in dells && dells[id].pag == pag && dells[id].siz == siz && dells.Keys == old(dells).Keys
      ensures forall x :: x in old(dells) && x != id ==> dells[x] == old(dells)[x]
    {
      assert LinkAt(dells, order, i);
      ghost var was := dells;
      dells := dells[id := dells[id].(pag := pag, siz := siz)];
      forall k | 0 <= k < |order|
        ensures LinkAt(dells, order, k)
      {
        assert LinkAt(was, order, k);
      }
    }
  }
}
