/** Rebuilding the warm jet state from the cold one: locations come in any order,
    and one can be activated only when its parent has been. */
module Ream {

  /** A location: at the root of a path, or at an axis within its parent. Names and
      hooks are numbers here. */
  datatype Loc = Base(nam: nat, pel: nat, huc: nat) | Kid(axe: nat, up: Loc, nam: nat, huc: nat)

  /** What is registered under a battery: locations at a root, and by axis,
      locations with a parent. */
  datatype Registry = Registry(roots: seq<Loc>, kids: seq<seq<Loc>>)

  /** An active location: the jet it is bound to, and its label. */
  datatype Act = Act(jax: nat, bal: seq<nat>)

  /** The compiled-in jets: the jet of a name within a jet (zero for none). */
  type Hot = (nat, nat) -> nat

  function Label(loc: Loc): seq<nat> {
    match loc
    case Base(nam, _, _) => [nam]
    case Kid(_, up, nam, _) => [nam] + Label(up)
  }

  function Jet(hot: Hot, loc: Loc): nat {
    match loc
    case Base(nam, _, _) => hot(0, nam)
    case Kid(_, up, nam, _) => hot(Jet(hot, up), nam)
  }

  function Depth(loc: Loc): nat {
    if loc.Base? then 0 else 1 + Depth(loc.up)
  }

  predicate WfRegistry(reg: Registry) {
    && (forall i :: 0 <= i < |reg.roots| ==> reg.roots[i].Base?)
    && (forall i, j :: 0 <= i < |reg.kids| && 0 <= j < |reg.kids[i]| ==> reg.kids[i][j].Kid?)
  }

  ghost predicate HasRoot(all: seq<Registry>, loc: Loc) {
    exists i :: 0 <= i < |all| && loc in all[i].roots
  }

  ghost predicate HasKid(all: seq<Registry>, loc: Loc) {
    exists i, j :: 0 <= i < |all| && 0 <= j < |all[i].kids| && loc in all[i].kids[j]
  }

  ghost predicate Registered(all: seq<Registry>, loc: Loc) {
    HasRoot(all, loc) || HasKid(all, loc)
  }

  /** A registered location with all its ancestors registered. */
  ghost predicate Grounded(all: seq<Registry>, loc: Loc) {
    Registered(all, loc) && (loc.Kid? ==> Grounded(all, loc.up))
  }

  /** Every registered location's parent is registered. */
  ghost predicate Closed(all: seq<Registry>) {
    forall loc :: Registered(all, loc) && loc.Kid? ==> Registered(all, loc.up)
  }

  /** What an active location should be. */
  predicate Right(hot: Hot, loc: Loc, act: Act) {
    act == Act(Jet(hot, loc), Label(loc))
  }

  ghost predicate AllRight(hot: Hot, warm: map<Loc, Act>) {
    forall loc :: loc in warm ==> Right(hot, loc, warm[loc])
  }

  function Activate(hot: Hot, warm: map<Loc, Act>, loc: Loc): Act
    requires loc.Kid? ==> loc.up in warm
  {
    if loc.Base? then Act(hot(0, loc.nam), [loc.nam])
    else Act(hot(warm[loc.up].jax, loc.nam), [loc.nam] + warm[loc.up].bal)
  }

  /** The least deep of some locations. */
  lemma {:induction false} Shallowest(lop: seq<Loc>) returns (i: nat)
    requires |lop| > 0
    ensures i < |lop| && forall j :: 0 <= j < |lop| ==> Depth(lop[i]) <= Depth(lop[j])
  {
    if |lop| == 1 {
      i := 0;
    } else {
      i := Shallowest(lop[1..]);
      i := if Depth(lop[0]) <= Depth(lop[i + 1]) then 0 else i + 1;
      forall j | 0 <= j < |lop|
        ensures Depth(lop[i]) <= Depth(lop[j])
      {
        if j > 0 {
          assert lop[j] == lop[1..][j - 1];
        }
      }
    }
  }

  class Dashboard {
    const hot: Hot
    var warm: map<Loc, Act>

    constructor (hot: Hot)
      ensures this.hot == hot && warm == map[]
    {
      this.hot, warm := hot, map[];
    }

    /** Activate a location whose parent is active. */
    method Put(loc: Loc)
      requires AllRight(hot, warm) && (loc.Kid? ==> loc.up in warm)
      modifies this`warm
      ensures AllRight(hot, warm) && warm == old(warm)[loc := Act(Jet(hot, loc), Label(loc))]
      ensures match loc
              case Base(nam, _, _) => warm[loc] == Act(hot(0, nam), [nam])
              case Kid(_, up, nam, _) => warm[loc] == Act(hot(old(warm)[up].jax, nam), [nam] + old(warm)[up].bal)
      ensures Rooted(old(warm)) ==> Rooted(warm)
    {
      warm := warm[loc := Activate(hot, warm, loc)];
    }

    /** Register the roots of one registry. */
    method Roots(roots: seq<Loc>)
      requires AllRight(hot, warm) && forall i :: 0 <= i < |roots| ==> roots[i].Base?
      modifies this`warm
      ensures AllRight(hot, warm) && forall loc :: loc in warm <==> loc in old(warm) || loc in roots
    {
      var j := 0;
      while j < |roots|
        invariant j <= |roots| && AllRight(hot, warm) && forall loc :: loc in warm <==>
            loc in old(warm) || loc in roots[..j]
      {
        Put(roots[j]);
        j := j + 1;
      }
      assert roots[..j] == roots;
    }

    /** One pass over the list: activate what can be, keep the rest for later. */
    method Pass(lop: seq<Loc>) returns (rem: seq<Loc>)
      requires AllRight(hot, warm) && forall i :: 0 <= i < |lop| ==> lop[i].Kid?
      modifies this`warm
      ensures AllRight(hot, warm) && |rem| <= |lop|
      ensures Rooted(old(warm)) ==> Rooted(warm)
      ensures forall loc :: loc in warm ==> loc in old(warm) || loc in lop
      ensures forall loc :: loc in lop ==> loc in warm || loc in rem
      ensures forall loc :: loc in rem ==> loc in lop && loc.up !in old(warm)
      ensures (exists i :: 0 <= i < |lop| && lop[i].up in old(warm)) ==> |rem| < |lop|
      ensures forall loc :: loc in old(warm) ==> loc in warm
    {
      hide AllRight, Rooted, Label, Jet;
      rem := [];
      var i := 0;
      while i < |lop|
        invariant i <= |lop| && AllRight(hot, warm) && |rem| <= i && (Rooted(old(warm)) ==> Rooted(warm))
        invariant forall loc :: loc in old(warm) ==> loc in warm
        invariant forall loc :: loc in warm ==> loc in old(warm) || loc in lop[..i]
        invariant forall loc :: loc in lop[..i] ==> loc in warm || loc in rem
        invariant forall loc :: loc in rem ==> loc in lop[..i] && loc.up !in old(warm)
        invariant (exists k :: 0 <= k < i && lop[k].up in old(warm)) ==> |rem| < i
      {
        if lop[i].up in warm {
          Put(lop[i]);
        } else {
          rem := [lop[i]] + rem;
        }
        i := i + 1;
      }
      assert lop[..i] == lop;
    }

    /** Rebuild. With every parent registered it ends, in whatever order the
        locations come, and activates exactly what is registered, rightly. */
    method Rebuild(all: seq<Registry>)
      requires Closed(all) && forall i :: 0 <= i < |all| ==> WfRegistry(all[i])
      modifies this`warm
      ensures forall loc :: loc in warm <==> Registered(all, loc)
      ensures AllRight(hot, warm)
      ensures forall loc :: loc in warm ==> match loc
          case Base(nam, _, _) => warm[loc] == Act(hot(0, nam), [nam])
          case Kid(_, up, nam, _) => up in warm && warm[loc] == Act(hot(warm[up].jax, nam), [nam] + warm[up].bal)
    {
      hide HasRoot, HasKid, AllRight, WfRegistry, Closed, Rooted;
      warm := map[];
      var lop := Gather(all);
      while |lop| > 0
        invariant AllRight(hot, warm) && Halfway(all, warm, lop)
        decreases |lop|
      {
        lop := Turn(all, lop);
      }
      RightIs(hot, warm);
    }

    /** Rebuild, for so many passes and no more. After as many as there were locations
        to list, none is left if and only if every parent is registered; with a parent
        missing, the list is never empty, and something registered is not active. */
    method RebuildFor(all: seq<Registry>, turns: nat) returns (lop: seq<Loc>, listed: nat)
      requires forall i :: 0 <= i < |all| ==> WfRegistry(all[i])
      modifies this`warm
      ensures AllRight(hot, warm) && Halfway(all, warm, lop)
      ensures lop == [] ==> Closed(all)
      ensures turns >= listed ==> (lop == [] <==> Closed(all))
      ensures (forall loc :: Registered(all, loc) ==> loc in warm) ==> Closed(all)
      ensures forall loc :: loc in warm ==> match loc
          case Base(nam, _, _) => warm[loc] == Act(hot(0, nam), [nam])
          case Kid(_, up, nam, _) => up in warm && warm[loc] == Act(hot(warm[up].jax, nam), [nam] + warm[up].bal)
    {
      hide HasRoot, HasKid, AllRight, WfRegistry, Closed, Rooted;
      warm := map[];
      lop := Gather(all);
      listed := |lop|;
      var n := 0;
      while |lop| > 0 && n < turns
        invariant AllRight(hot, warm) && Halfway(all, warm, lop)
        invariant n <= turns && (Closed(all) ==> |lop| + n <= listed || lop == [])
      {
        lop := Turn(all, lop);
        n := n + 1;
      }
      AllActive(all, warm, lop);
      RightIs(hot, warm);
    }

    /** One pass, in a rebuild: with every parent registered, the list gets shorter. */
    method Turn(all: seq<Registry>, was: seq<Loc>) returns (lop: seq<Loc>)
      requires AllRight(hot, warm) && Halfway(all, warm, was) && |was| > 0
      modifies this`warm
      ensures AllRight(hot, warm) && Halfway(all, warm, lop) && |lop| <= |was| && (Closed(all) ==> |lop| < |was|)
    {
      hide HasRoot, HasKid, AllRight, WfRegistry, Closed, Rooted;
      ghost var k := Shallowest(was);
      if Closed(all) {
        ParentActive(all, was, k);
      }
      lop := Pass(was);
      KidsStill(was, lop);
    }

    /** The first part: roots are activated, all others listed. */
    method Gather(all: seq<Registry>) returns (lop: seq<Loc>)
      requires warm == map[] && forall i :: 0 <= i < |all| ==> WfRegistry(all[i])
      modifies this`warm
      ensures AllRight(hot, warm) && (forall k :: 0 <= k < |lop| ==> lop[k].Kid?)
      ensures (forall loc :: loc in warm <==> HasRoot(all, loc)) && (forall loc :: loc in lop <==> HasKid(all, loc))
      ensures Halfway(all, warm, lop)
    {
      lop := [];
      var i := 0;
      while i < |all|
        invariant i <= |all| && AllRight(hot, warm)
        invariant forall loc :: loc in warm <==> HasRoot(all[..i], loc)
        invariant forall loc :: loc in lop <==> HasKid(all[..i], loc)
      {
        assert WfRegistry(all[i]);
        Roots(all[i].roots);
        var more := List(all[i].kids);
        ghost var was := lop;
        lop := more + lop;
        GatherNext(all, i);
        i := i + 1;
      }
      assert all[..i] == all;
      KidsAreKids(all, lop);
      RootsAreBase(all, warm);
    }
  }

  /** Each active location against its parent. */
  lemma RightIs(hot: Hot, warm: map<Loc, Act>)
    requires AllRight(hot, warm) && Rooted(warm)
    ensures forall loc :: loc in warm ==> match loc
        case Base(nam, _, _) => warm[loc] == Act(hot(0, nam), [nam])
        case Kid(_, up, nam, _) => up in warm && warm[loc] == Act(hot(warm[up].jax, nam), [nam] + warm[up].bal)
  {
    forall loc | loc in warm
      ensures Right(hot, loc, warm[loc]) && (loc.Kid? ==> loc.up in warm && Right(hot, loc.up, warm[loc.up]))
    {
    }
  }

  lemma KidsAreKids(all: seq<Registry>, lop: seq<Loc>)
    requires forall i :: 0 <= i < |all| ==> WfRegistry(all[i])
    requires forall loc :: loc in lop ==> HasKid(all, loc)
    ensures forall k :: 0 <= k < |lop| ==> lop[k].Kid?
  {
    forall k | 0 <= k < |lop|
      ensures lop[k].Kid?
    {
      assert lop[k] in lop && HasKid(all, lop[k]);
      var i, j :| 0 <= i < |all| && 0 <= j < |all[i].kids| && lop[k] in all[i].kids[j];
      assert WfRegistry(all[i]);
    }
  }

  lemma RootsAreBase(all: seq<Registry>, warm: map<Loc, Act>)
    requires forall i :: 0 <= i < |all| ==> WfRegistry(all[i])
    requires forall loc :: loc in warm ==> HasRoot(all, loc)
    ensures Rooted(warm)
  {
    forall loc | loc in warm
      ensures loc.Base?
    {
      assert HasRoot(all, loc);
      var i :| 0 <= i < |all| && loc in all[i].roots;
      assert WfRegistry(all[i]);
    }
  }

  /** Everything is active only with every parent registered. */
  lemma AllActive(all: seq<Registry>, warm: map<Loc, Act>, lop: seq<Loc>)
    requires Halfway(all, warm, lop)
    ensures lop == [] ==> Closed(all)
    ensures (forall loc :: Registered(all, loc) ==> loc in warm) ==> Closed(all)
  {
    hide Registered;
  }

  lemma KidsStill(was: seq<Loc>, now: seq<Loc>)
    requires (forall k :: 0 <= k < |was| ==> was[k].Kid?) && forall loc :: loc in now ==> loc in was
    ensures forall k :: 0 <= k < |now| ==> now[k].Kid?
  {
    forall k | 0 <= k < |now|
      ensures now[k].Kid?
    {
      assert now[k] in now;
    }
  }

  /** The parent of the shallowest location that waits does not wait. */
  lemma ParentActive(all: seq<Registry>, lop: seq<Loc>, k: nat)
    requires Closed(all) && k < |lop| && lop[k].Kid? && Registered(all, lop[k])
    requires forall j :: 0 <= j < |lop| ==> Depth(lop[k]) <= Depth(lop[j])
    ensures Registered(all, lop[k].up) && lop[k].up !in lop
  {
    hide Registered;
    forall j | 0 <= j < |lop|
      ensures lop[j] != lop[k].up
    {
      assert Depth(lop[k]) == 1 + Depth(lop[k].up);
    }
  }

  /** Whatever is active has an active parent. */
  ghost predicate Rooted(warm: map<Loc, Act>) {
    forall loc :: loc in warm && loc.Kid? ==> loc.up in warm
  }

  /** A rebuild under way: what is active is registered and has an active parent; what
      is registered and not active is listed. */
  ghost predicate Halfway(all: seq<Registry>, warm: map<Loc, Act>, lop: seq<Loc>) {
    && Rooted(warm) && (forall k :: 0 <= k < |lop| ==> lop[k].Kid?)
    && (forall loc :: loc in lop ==> Registered(all, loc))
    && (forall loc :: Registered(all, loc) ==> loc in warm || loc in lop)
    && (forall loc :: loc in warm ==> Registered(all, loc))
  }

  /** A registered location with an ancestor that is not is activated by no pass. */
  lemma {:induction false} UngroundedWaits(all: seq<Registry>, warm: map<Loc, Act>, loc: Loc)
    requires Rooted(warm) && (forall l :: l in warm ==> Registered(all, l)) && loc in warm
    ensures Grounded(all, loc)
  {
    if loc.Kid? {
      UngroundedWaits(all, warm, loc.up);
    }
  }

  lemma {:induction false} ClosedGrounds(all: seq<Registry>, loc: Loc)
    requires Closed(all) && Registered(all, loc)
    ensures Grounded(all, loc)
  {
    hide Registered;
    if loc.Kid? {
      ClosedGrounds(all, loc.up);
    }
  }

  /** Parents are registered exactly if everything registered is grounded. */
  lemma ClosedIsGrounded(all: seq<Registry>)
    ensures Closed(all) <==> forall loc :: Registered(all, loc) ==> Grounded(all, loc)
  {
    hide Registered;
    if Closed(all) {
      forall loc | Registered(all, loc)
        ensures Grounded(all, loc)
      {
        ClosedGrounds(all, loc);
      }
    }
    if forall loc :: Registered(all, loc) ==> Grounded(all, loc) {
      forall loc | Registered(all, loc) && loc.Kid?
        ensures Registered(all, loc.up)
      {
        assert Grounded(all, loc) && Grounded(all, loc.up);
      }
    }
  }

  /** The locations of one registry that have parents, last axis first. */
  method List(kids: seq<seq<Loc>>) returns (lop: seq<Loc>)
    ensures forall loc :: loc in lop <==> exists j :: 0 <= j < |kids| && loc in kids[j]
  {
    lop := [];
    var j := 0;
    while j < |kids|
      invariant j <= |kids| && forall loc :: loc in lop <==> exists i :: 0 <= i < j && loc in kids[i]
    {
      ghost var was := lop;
      lop := kids[j] + lop;
      assert forall loc :: loc in lop <==> loc in kids[j] || loc in was;
      j := j + 1;
    }
  }

  lemma GatherNext(all: seq<Registry>, i: nat)
    requires i < |all|
    ensures forall loc :: HasRoot(all[..i + 1], loc) <==> HasRoot(all[..i], loc) || loc in all[i].roots
    ensures forall loc :: HasKid(all[..i + 1], loc) <==> HasKid(all[..i], loc) || exists j ::
        0 <= j < |all[i].kids| && loc in all[i].kids[j]
  {
    var m, n := all[..i], all[..i + 1];
    forall loc
      ensures HasRoot(n, loc) <==> HasRoot(m, loc) || loc in all[i].roots
      ensures HasKid(n, loc) <==> HasKid(m, loc) || exists j :: 0 <= j < |all[i].kids| && loc in all[i].kids[j]
    {
      assert n[i] == all[i] && forall k :: 0 <= k < i ==> n[k] == m[k];
    }
  }
}
