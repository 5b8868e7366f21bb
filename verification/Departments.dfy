/**
Departments: a flat table of rows that point to their parents, and the linked tree that is built from a listing of it.
*/
module Departments {
  import opened Common

  type Id = string

  datatype Department = Department(id: Id, enterpriseId: Id, name: string, parentId: Option<Id>, managerId: Option<Id>)

  // ---------------------------------------------------------------------------------------------
  // Following parents

  /** The parent of every department of a listing. */
  type Parents = map<Id, Option<Id>>

  /** The department reached by following n parents; None once the walk has left the listing at the top. */
  function Climb(ps: Parents, d: Id, n: nat): Option<Id>
    decreases n
  {
    if d !in ps then None
    else if n == 0 then Some(d)
    else match ps[d] { case None => None case Some(p) => Climb(ps, p, n - 1) }
  }

  /** Following parents from d comes to an end. */
  ghost predicate Grounded(ps: Parents, d: Id) {
    exists n: nat :: Climb(ps, d, n) == None
  }

  lemma {:induction false} ClimbStaysOut(ps: Parents, d: Id, n: nat, m: nat)
    requires Climb(ps, d, n) == None && n <= m
    ensures Climb(ps, d, m) == None
    decreases n
  {
    if d in ps && n > 0 && ps[d].Some? { ClimbStaysOut(ps, ps[d].value, n - 1, m - 1); }
  }

  lemma {:induction false} ClimbOnward(ps: Parents, d: Id, n: nat, m: nat)
    requires Climb(ps, d, n).Some?
    ensures Climb(ps, d, n + m) == Climb(ps, Climb(ps, d, n).value, m)
    decreases n
  {
    if n > 0 { ClimbOnward(ps, ps[d].value, n - 1, m); }
  }

  /** The number of steps after which the walk from d has left the listing. */
  ghost function Rank(ps: Parents, d: Id): (n: nat)
    requires Grounded(ps, d)
    ensures Climb(ps, d, n) == None && forall k: nat :: k < n ==> Climb(ps, d, k).Some?
  {
    var n: nat :| Climb(ps, d, n) == None;
    FirstOut(ps, d, n)
  }

  ghost function FirstOut(ps: Parents, d: Id, n: nat): (first: nat)
    requires Climb(ps, d, n) == None
    ensures Climb(ps, d, first) == None && forall k: nat :: k < first ==> Climb(ps, d, k).Some?
  {
    if n == 0 then 0
    else if Climb(ps, d, n - 1) == None then FirstOut(ps, d, n - 1)
    else
      assert forall k: nat :: k < n ==> Climb(ps, d, k).Some? by {
        forall k: nat | k < n ensures Climb(ps, d, k).Some? {
          if Climb(ps, d, k) == None { ClimbStaysOut(ps, d, k, n - 1); }
        }
      }
      n
  }

  lemma RankIs(ps: Parents, d: Id, n: nat)
    requires Climb(ps, d, n) == None && (n == 0 || Climb(ps, d, n - 1).Some?)
    ensures Grounded(ps, d) && Rank(ps, d) == n
  {
    var r := Rank(ps, d);
    if r < n { ClimbStaysOut(ps, d, r, n - 1); }
  }

  /** A child is grounded exactly when its parent is, one step further from the top. */
  lemma ChildRank(ps: Parents, c: Id, p: Id)
    requires c in ps && ps[c] == Some(p) && p in ps
    ensures Grounded(ps, c) <==> Grounded(ps, p)
    ensures Grounded(ps, p) ==> Rank(ps, c) == Rank(ps, p) + 1
  {
    if Grounded(ps, p) {
      var n := Rank(ps, p);
      assert Climb(ps, c, n + 1) == None;
      assert n > 0;
      assert Climb(ps, c, n) == Climb(ps, p, n - 1);
      RankIs(ps, c, n + 1);
    }
    if Grounded(ps, c) {
      var n := Rank(ps, c);
      assert n > 0;
      assert Climb(ps, p, n - 1) == None;
    }
  }

  lemma {:induction false} CycleClimb(ps: Parents, d: Id, n: nat, r: nat)
    requires n > 0 && Climb(ps, d, n) == Some(d)
    ensures Climb(ps, d, r).Some?
    decreases r
  {
    if r < n {
      if Climb(ps, d, r) == None { ClimbStaysOut(ps, d, r, n); }
    } else {
      ClimbOnward(ps, d, n, r - n);
      CycleClimb(ps, d, n, r - n);
    }
  }

  /** From a department on a cycle, following parents never ends. */
  lemma GroundedMeansNoCycle(ps: Parents, d: Id, n: nat)
    requires n > 0 && Climb(ps, d, n) == Some(d)
    ensures !Grounded(ps, d)
  {
    forall r: nat ensures Climb(ps, d, r).Some? { CycleClimb(ps, d, n, r); }
  }

  // ---------------------------------------------------------------------------------------------
  // The tree that a listing stands for

  datatype Tree = Tree(id: Id, children: seq<Tree>)

  ghost predicate Distinct(listing: seq<Department>) {
    forall i, j :: 0 <= i < j < |listing| ==> listing[i].id != listing[j].id
  }

  function Ids(listing: seq<Department>): set<Id> {
    set i | 0 <= i < |listing| :: listing[i].id
  }

  function ParentsOf(listing: seq<Department>): Parents {
    if listing == [] then map[]
    else
      var last := listing[|listing| - 1];
      ParentsOf(listing[..|listing| - 1])[last.id := last.parentId]
  }

  /** Where buildTree hangs a department: under its parent if that is listed, and under the root otherwise. */
  function Place(d: Department, ids: set<Id>): Option<Id> {
    match d.parentId
    case Some(p) => if p in ids then Some(p) else None
    case None => None
  }

  /** The departments hung at one place, in listing order. */
  function HungAt(listing: seq<Department>, ids: set<Id>, place: Option<Id>): seq<Id> {
    if listing == [] then []
    else
      var last := listing[|listing| - 1];
      HungAt(listing[..|listing| - 1], ids, place) + if Place(last, ids) == place then [last.id] else []
  }

  lemma {:induction false} ParentsOfListing(listing: seq<Department>)
    ensures ParentsOf(listing).Keys == Ids(listing)
    ensures Distinct(listing) ==> forall i :: 0 <= i < |listing| ==> ParentsOf(listing)[listing[i].id] == listing[i].parentId
  {
    if listing != [] {
      var n := |listing| - 1;
      var front := listing[..n];
      assert forall i :: 0 <= i < n ==> front[i] == listing[i];
      ParentsOfListing(front);
      IdsGrow(listing, n);
      assert listing[..n + 1] == listing;
    }
  }

  lemma {:induction false} HungAtMembers(listing: seq<Department>, ids: set<Id>, place: Option<Id>)
    ensures forall c :: c in HungAt(listing, ids, place)
              <==> exists i :: 0 <= i < |listing| && listing[i].id == c && Place(listing[i], ids) == place
    ensures Distinct(listing) ==> forall i, j :: 0 <= i < j < |HungAt(listing, ids, place)| ==>
              HungAt(listing, ids, place)[i] != HungAt(listing, ids, place)[j]
  {
    if listing != [] {
      var n := |listing| - 1;
      var front := listing[..n];
      HungAtMembers(front, ids, place);
      assert forall i :: 0 <= i < n ==> front[i] == listing[i];
      var hung := HungAt(front, ids, place);
      forall c ensures c in HungAt(listing, ids, place)
                <==> exists i :: 0 <= i < |listing| && listing[i].id == c && Place(listing[i], ids) == place
      {
        if c in hung {
          var i :| 0 <= i < n && front[i].id == c && Place(front[i], ids) == place;
          assert listing[i].id == c;
        }
      }
      if Distinct(listing) {
        assert forall i :: 0 <= i < |hung| ==> hung[i] in hung;
      }
    }
  }

  // ---------------------------------------------------------------------------------------------
  // Ranks bound the depth of the tree

  ghost function HighestRank(ps: Parents, among: set<Id>): (m: nat)
    ensures forall d :: d in among && Grounded(ps, d) ==> Rank(ps, d) <= m
  {
    if among == {} then 0
    else
      var d :| d in among;
      var m := HighestRank(ps, among - {d});
      if Grounded(ps, d) && Rank(ps, d) > m then Rank(ps, d) else m
  }

  /** Departments of the listing that are grounded and at least `level` steps below the top. */
  ghost predicate Within(ps: Parents, cs: seq<Id>, level: nat) {
    forall i :: 0 <= i < |cs| ==> cs[i] in ps && Grounded(ps, cs[i]) && Rank(ps, cs[i]) >= level
  }

  lemma HungWithin(listing: seq<Department>, place: Option<Id>)
    requires Distinct(listing)
    requires place.Some? ==> place.value in Ids(listing) && Grounded(ParentsOf(listing), place.value)
    ensures var ps := ParentsOf(listing);
            Within(ps, HungAt(listing, Ids(listing), place), match place { case None => 1 case Some(p) => Rank(ps, p) + 1 })
  {
    var ps := ParentsOf(listing);
    var cs := HungAt(listing, Ids(listing), place);
    ParentsOfListing(listing);
    HungAtMembers(listing, Ids(listing), place);
    forall k | 0 <= k < |cs|
      ensures cs[k] in ps && Grounded(ps, cs[k])
           && Rank(ps, cs[k]) >= match place { case None => 1 case Some(p) => Rank(ps, p) + 1 }
    {
      assert cs[k] in cs;
      var i :| 0 <= i < |listing| && listing[i].id == cs[k] && Place(listing[i], Ids(listing)) == place;
      if place.Some? {
        ChildRank(ps, cs[k], place.value);
      } else {
        assert Climb(ps, cs[k], 0).Some? && Climb(ps, cs[k], 1) == None;
        RankIs(ps, cs[k], 1);
      }
    }
  }

  /** The tree below one grounded department. */
  ghost function TreeAt(listing: seq<Department>, x: Id): Tree
    requires Distinct(listing) && x in ParentsOf(listing) && Grounded(ParentsOf(listing), x)
    decreases HighestRank(ParentsOf(listing), Ids(listing)) + 1 - Rank(ParentsOf(listing), x), 0, 0
  {
    ParentsOfListing(listing);
    HungWithin(listing, Some(x));
    Tree(x, TreesAt(listing, HungAt(listing, Ids(listing), Some(x)), Rank(ParentsOf(listing), x) + 1))
  }

  ghost function TreesAt(listing: seq<Department>, cs: seq<Id>, level: nat): seq<Tree>
    requires Distinct(listing) && Within(ParentsOf(listing), cs, level)
    decreases HighestRank(ParentsOf(listing), Ids(listing)) + 1 - level, 1, |cs|
  {
    if cs == [] then []
    else
      var n := |cs| - 1;
      assert forall i :: 0 <= i < n ==> cs[..n][i] == cs[i];
      ParentsOfListing(listing);
      TreesAt(listing, cs[..n], level) + [TreeAt(listing, cs[n])]
  }

  ghost function Forest(listing: seq<Department>): seq<Tree>
    requires Distinct(listing)
  {
    HungWithin(listing, None);
    TreesAt(listing, HungAt(listing, Ids(listing), None), 1)
  }

  // ---------------------------------------------------------------------------------------------
  // How often a department occurs in the tree

  function Count(t: Tree, d: Id): nat {
    (if t.id == d then 1 else 0) + CountAll(t.children, d)
  }

  function CountAll(ts: seq<Tree>, d: Id): nat {
    if ts == [] then 0 else CountAll(ts[..|ts| - 1], d) + Count(ts[|ts| - 1], d)
  }

  /** Following parents from d passes x. */
  ghost predicate Under(ps: Parents, d: Id, x: Id)
    requires Grounded(ps, d)
    decreases Rank(ps, d)
  {
    d in ps && (d == x || (
      match ps[d]
      case None => false
      case Some(p) => p in ps && (ChildRank(ps, d, p); Under(ps, p, x))))
  }

  lemma {:induction false} UnderRank(ps: Parents, d: Id, x: Id)
    requires Grounded(ps, d) && Under(ps, d, x)
    ensures x in ps && Grounded(ps, x) && Rank(ps, x) <= Rank(ps, d)
    ensures Rank(ps, x) == Rank(ps, d) ==> x == d
    decreases Rank(ps, d)
  {
    if d != x {
      ChildRank(ps, d, ps[d].value);
      UnderRank(ps, ps[d].value, x);
    }
  }

  /** A walk passes one department of each rank. */
  lemma {:induction false} UnderUnique(ps: Parents, d: Id, a: Id, b: Id)
    requires Grounded(ps, d) && Under(ps, d, a) && Under(ps, d, b)
    requires (UnderRank(ps, d, a); UnderRank(ps, d, b); Rank(ps, a) == Rank(ps, b))
    ensures a == b
    decreases Rank(ps, d)
  {
    UnderRank(ps, d, a);
    UnderRank(ps, d, b);
    if d != a && d != b {
      ChildRank(ps, d, ps[d].value);
      UnderUnique(ps, ps[d].value, a, b);
    }
  }

  /** The walk from d reaches x through a child of x. */
  lemma {:induction false} UnderChild(ps: Parents, d: Id, x: Id) returns (c: Id)
    requires Grounded(ps, d) && Under(ps, d, x) && d != x
    ensures c in ps && ps[c] == Some(x) && Under(ps, d, c)
    decreases Rank(ps, d)
  {
    var p := ps[d].value;
    ChildRank(ps, d, p);
    if p == x { c := d; } else { c := UnderChild(ps, p, x); }
  }

  lemma {:induction false} UnderParent(ps: Parents, d: Id, c: Id, x: Id)
    requires Grounded(ps, d) && Under(ps, d, c) && c in ps && ps[c] == Some(x) && x in ps
    ensures Under(ps, d, x) && d != x
    decreases Rank(ps, d)
  {
    UnderRank(ps, d, c);
    ChildRank(ps, c, x);
    if d != c {
      ChildRank(ps, d, ps[d].value);
      UnderParent(ps, ps[d].value, c, x);
    }
  }

  /** The walk from d ends in a department whose parent is not listed. */
  lemma {:induction false} UnderTop(ps: Parents, d: Id) returns (c: Id)
    requires d in ps && Grounded(ps, d)
    ensures Under(ps, d, c) && c in ps && (ps[c] == None || ps[c].value !in ps)
    decreases Rank(ps, d)
  {
    if ps[d] == None || ps[d].value !in ps {
      c := d;
    } else {
      ChildRank(ps, d, ps[d].value);
      c := UnderTop(ps, ps[d].value);
    }
  }

  /** The number of departments among `cs` that the walk from d passes. */
  ghost function Passed(ps: Parents, cs: seq<Id>, d: Id): nat {
    if cs == [] then 0
    else Passed(ps, cs[..|cs| - 1], d) + if Grounded(ps, d) && Under(ps, d, cs[|cs| - 1]) then 1 else 0
  }

  lemma {:induction false} PassedNone(ps: Parents, cs: seq<Id>, d: Id)
    requires forall k :: 0 <= k < |cs| ==> !(Grounded(ps, d) && Under(ps, d, cs[k]))
    ensures Passed(ps, cs, d) == 0
  {
    if cs != [] {
      var n := |cs| - 1;
      assert forall k :: 0 <= k < n ==> cs[..n][k] == cs[k];
      PassedNone(ps, cs[..n], d);
    }
  }

  lemma {:induction false} PassedOne(ps: Parents, cs: seq<Id>, d: Id, k: nat)
    requires Grounded(ps, d) && k < |cs| && Under(ps, d, cs[k])
    requires forall j :: 0 <= j < |cs| && j != k ==> !Under(ps, d, cs[j])
    ensures Passed(ps, cs, d) == 1
  {
    var n := |cs| - 1;
    assert forall j :: 0 <= j < n ==> cs[..n][j] == cs[j];
    if k == n { PassedNone(ps, cs[..n], d); } else { PassedOne(ps, cs[..n], d, k); }
  }

  /** At one place, a department is hung under one of the children exactly when it is further down from there. */
  lemma PassedAt(listing: seq<Department>, place: Option<Id>, d: Id)
    requires Distinct(listing)
    requires place.Some? ==> place.value in Ids(listing) && Grounded(ParentsOf(listing), place.value)
    ensures var ps := ParentsOf(listing);
            Passed(ps, HungAt(listing, Ids(listing), place), d)
              == if d in ps && Grounded(ps, d) && (place.Some? ==> d != place.value && Under(ps, d, place.value)) then 1 else 0
  {
    var ps := ParentsOf(listing);
    var cs := HungAt(listing, Ids(listing), place);
    ParentsOfListing(listing);
    HungAtMembers(listing, Ids(listing), place);
    HungWithin(listing, place);
    hide Climb, HungAt;
    if d in ps && Grounded(ps, d) && (place.Some? ==> d != place.value && Under(ps, d, place.value)) {
      var c: Id;
      if place.Some? { c := UnderChild(ps, d, place.value); } else { c := UnderTop(ps, d); }
      UnderRank(ps, d, c);
      assert c in Ids(listing);
      var i :| 0 <= i < |listing| && listing[i].id == c;
      assert Place(listing[i], Ids(listing)) == place;
      assert c in cs;
      var k :| 0 <= k < |cs| && cs[k] == c;
      forall j | 0 <= j < |cs| && j != k ensures !Under(ps, d, cs[j]) {
        if Under(ps, d, cs[j]) { SameRankAt(listing, place, cs[j], c); UnderRank(ps, d, cs[j]); UnderUnique(ps, d, cs[j], c); }
      }
      PassedOne(ps, cs, d, k);
    } else {
      forall k | 0 <= k < |cs| ensures !(Grounded(ps, d) && Under(ps, d, cs[k])) {
        assert cs[k] in cs;
        var i :| 0 <= i < |listing| && listing[i].id == cs[k] && Place(listing[i], Ids(listing)) == place;
        if Grounded(ps, d) && Under(ps, d, cs[k]) {
          if place.Some? { UnderParent(ps, d, cs[k], place.value); }
        }
      }
      PassedNone(ps, cs, d);
    }
  }

  /** Departments hung at one place have the same rank. */
  lemma SameRankAt(listing: seq<Department>, place: Option<Id>, a: Id, b: Id)
    requires Distinct(listing)
    requires place.Some? ==> place.value in Ids(listing) && Grounded(ParentsOf(listing), place.value)
    requires a in HungAt(listing, Ids(listing), place) && b in HungAt(listing, Ids(listing), place)
    ensures var ps := ParentsOf(listing); Grounded(ps, a) && Grounded(ps, b) && Rank(ps, a) == Rank(ps, b)
  {
    var ps := ParentsOf(listing);
    ParentsOfListing(listing);
    HungAtMembers(listing, Ids(listing), place);
    forall c | c in HungAt(listing, Ids(listing), place)
      ensures Grounded(ps, c) && Rank(ps, c) == match place { case None => 1 case Some(p) => Rank(ps, p) + 1 }
    {
      var i :| 0 <= i < |listing| && listing[i].id == c && Place(listing[i], Ids(listing)) == place;
      if place.Some? {
        ChildRank(ps, c, place.value);
      } else {
        assert Climb(ps, c, 0).Some? && Climb(ps, c, 1) == None;
        RankIs(ps, c, 1);
      }
    }
  }

  /** A department occurs in the tree below x once if x is on its way to the top, and not at all otherwise. */
  lemma {:induction false} CountAt(listing: seq<Department>, x: Id, d: Id)
    requires Distinct(listing) && x in ParentsOf(listing) && Grounded(ParentsOf(listing), x)
    ensures var ps := ParentsOf(listing);
            Count(TreeAt(listing, x), d) == if Grounded(ps, d) && Under(ps, d, x) then 1 else 0
    decreases HighestRank(ParentsOf(listing), Ids(listing)) + 1 - Rank(ParentsOf(listing), x), 0, 0
  {
    var ps := ParentsOf(listing);
    ParentsOfListing(listing);
    HungWithin(listing, Some(x));
    CountsAt(listing, HungAt(listing, Ids(listing), Some(x)), Rank(ps, x) + 1, d);
    PassedAt(listing, Some(x), d);
  }

  lemma {:induction false} CountsAt(listing: seq<Department>, cs: seq<Id>, level: nat, d: Id)
    requires Distinct(listing) && Within(ParentsOf(listing), cs, level)
    ensures CountAll(TreesAt(listing, cs, level), d) == Passed(ParentsOf(listing), cs, d)
    decreases HighestRank(ParentsOf(listing), Ids(listing)) + 1 - level, 1, |cs|
  {
    hide Grounded, Under, TreeAt, TreesAt, Count, ParentsOf, Ids, Rank, HighestRank, Distinct;
    TreesOneMore(listing, cs, level);
    if cs != [] {
      var n := |cs| - 1;
      ParentsOfListing(listing);
      CountsAt(listing, cs[..n], level, d);
      CountAt(listing, cs[n], d);
      CountOneMore(TreesAt(listing, cs[..n], level), TreeAt(listing, cs[n]), d);
    }
  }

  lemma CountOneMore(ts: seq<Tree>, t: Tree, d: Id)
    ensures CountAll(ts + [t], d) == CountAll(ts, d) + Count(t, d)
  {
    assert (ts + [t])[..|ts|] == ts;
  }

  lemma TreesOneMore(listing: seq<Department>, cs: seq<Id>, level: nat)
    requires Distinct(listing) && Within(ParentsOf(listing), cs, level)
    ensures cs == [] ==> TreesAt(listing, cs, level) == []
    ensures cs != [] ==>
              var n := |cs| - 1;
              && Within(ParentsOf(listing), cs[..n], level)
              && TreesAt(listing, cs, level) == TreesAt(listing, cs[..n], level) + [TreeAt(listing, cs[n])]
  {
    if cs != [] {
      var n := |cs| - 1;
      assert forall i :: 0 <= i < n ==> cs[..n][i] == cs[i];
    }
  }

  /** The tree built from a listing holds a listed department exactly once if following its parents comes to an end,
      and not at all if it hangs on a cycle; it holds nothing else. */
  lemma ForestHoldsGroundedOnce(listing: seq<Department>, d: Id)
    requires Distinct(listing)
    ensures CountAll(Forest(listing), d) == if d in Ids(listing) && Grounded(ParentsOf(listing), d) then 1 else 0
  {
    ParentsOfListing(listing);
    HungWithin(listing, None);
    CountsAt(listing, HungAt(listing, Ids(listing), None), 1, d);
    PassedAt(listing, None, d);
  }

  /** Below every department hang the listed departments whose parent it is, in listing order; at the top hang those
      whose parent is not listed. */
  lemma {:induction false} TreesKeepOrder(listing: seq<Department>, cs: seq<Id>, level: nat)
    requires Distinct(listing) && Within(ParentsOf(listing), cs, level)
    ensures |TreesAt(listing, cs, level)| == |cs|
    ensures forall k :: 0 <= k < |cs| ==> TreesAt(listing, cs, level)[k] == TreeAt(listing, cs[k])
    decreases |cs|
  {
    hide Grounded, TreeAt, TreesAt, ParentsOf, Ids, Rank, HighestRank, Distinct;
    TreesOneMore(listing, cs, level);
    if cs != [] {
      var n := |cs| - 1;
      TreesKeepOrder(listing, cs[..n], level);
      forall k | 0 <= k < |cs| ensures TreesAt(listing, cs, level)[k] == TreeAt(listing, cs[k]) {
        if k < n { assert cs[..n][k] == cs[k]; }
      }
    }
  }

  /** The tree below a department: its id, and the trees of the departments hung at it, in listing order. */
  lemma TreeBelow(listing: seq<Department>, x: Id)
    requires Distinct(listing) && x in ParentsOf(listing) && Grounded(ParentsOf(listing), x)
    ensures x in Ids(listing) && TreeAt(listing, x).id == x
    ensures var cs := HungAt(listing, Ids(listing), Some(x)); var ps := ParentsOf(listing);
            && |TreeAt(listing, x).children| == |cs|
            && forall k :: 0 <= k < |cs| ==>
                 && cs[k] in ps && Grounded(ps, cs[k]) && Rank(ps, x) < Rank(ps, cs[k]) <= HighestRank(ps, Ids(listing))
                 && TreeAt(listing, x).children[k] == TreeAt(listing, cs[k])
  {
    ParentsOfListing(listing);
    HungWithin(listing, Some(x));
    TreesKeepOrder(listing, HungAt(listing, Ids(listing), Some(x)), Rank(ParentsOf(listing), x) + 1);
  }

  // ---------------------------------------------------------------------------------------------
  // Building the tree in place

  const NO_DEPARTMENT := Department("", "", "", None, None)

  class TreeNode {
    const department: Department
    var children: seq<TreeNode>

    constructor (department: Department)
      ensures this.department == department && children == []
    {
      this.department := department;
      children := [];
    }
  }

  /** The children are the nodes of these departments, in this order. */
  ghost predicate AreNodes(nodes: map<Id, TreeNode>, children: seq<TreeNode>, ids: seq<Id>) {
    |children| == |ids| && forall k :: 0 <= k < |ids| ==> ids[k] in nodes && children[k] == nodes[ids[k]]
  }

  /** The linked nodes from `node` on have the shape and the departments of the tree. */
  ghost predicate Shows(all: set<TreeNode>, node: TreeNode, t: Tree)
    reads all
    decreases t
  {
    && node in all && node.department.id == t.id && |node.children| == |t.children|
    && forall k :: 0 <= k < |t.children| ==> Shows(all, node.children[k], t.children[k])
  }

  /** The nodes are linked as the first part of a listing with these ids says. */
  ghost predicate Linked(listing: seq<Department>, ids: set<Id>, nodes: map<Id, TreeNode>)
    reads nodes.Values
  {
    forall id :: id in nodes ==>
      && nodes[id].department.id == id
      && AreNodes(nodes, nodes[id].children, HungAt(listing, ids, Some(id)))
  }

  /** Linked nodes show the tree of every grounded department. */
  lemma {:induction false} LinkedShows(listing: seq<Department>, nodes: map<Id, TreeNode>, x: Id)
    requires Distinct(listing) && nodes.Keys == Ids(listing) && Linked(listing, Ids(listing), nodes)
    requires x in ParentsOf(listing) && Grounded(ParentsOf(listing), x)
    ensures x in nodes && Shows(nodes.Values, nodes[x], TreeAt(listing, x))
    decreases HighestRank(ParentsOf(listing), Ids(listing)) + 1 - Rank(ParentsOf(listing), x)
  {
    hide TreeAt, TreesAt, HungAt, Ids, ParentsOf, Grounded;
    TreeBelow(listing, x);
    var cs := HungAt(listing, Ids(listing), Some(x));
    var t := TreeAt(listing, x);
    forall k | 0 <= k < |cs|
      ensures Shows(nodes.Values, nodes[x].children[k], t.children[k])
    {
      LinkedShows(listing, nodes, cs[k]);
    }
  }

  lemma IdsGrow(listing: seq<Department>, i: nat)
    requires i < |listing|
    ensures Ids(listing[..i + 1]) == Ids(listing[..i]) + {listing[i].id}
  {
    var before, after := listing[..i], listing[..i + 1];
    forall k | 0 <= k < i ensures listing[k].id in Ids(before) && listing[k].id in Ids(after) {
      assert before[k] == listing[k] && after[k] == listing[k];
    }
    assert after[i] == listing[i];
  }

  lemma HungGrows(listing: seq<Department>, i: nat, ids: set<Id>, place: Option<Id>)
    requires i < |listing|
    ensures HungAt(listing[..i + 1], ids, place)
         == HungAt(listing[..i], ids, place) + if Place(listing[i], ids) == place then [listing[i].id] else []
  {
    assert listing[..i + 1][..i] == listing[..i];
  }

  /** The first loop of buildTree: a node without children for every department. */
  method MakeNodes(departments: seq<Department>) returns (nodeMap: map<Id, TreeNode>)
    ensures nodeMap.Keys == Ids(departments) && fresh(nodeMap.Values)
    ensures forall id :: id in nodeMap ==> nodeMap[id].department.id == id && nodeMap[id].children == []
    ensures Distinct(departments) ==>
              forall k :: 0 <= k < |departments| ==> departments[k].id in nodeMap && nodeMap[departments[k].id].department == departments[k]
  {
    nodeMap := map[];
    for i := 0 to |departments|
      invariant nodeMap.Keys == Ids(departments[..i])
      invariant fresh(nodeMap.Values)
      invariant forall id :: id in nodeMap ==> nodeMap[id].department.id == id && nodeMap[id].children == []
      invariant Distinct(departments) ==>
                  forall k :: 0 <= k < i ==> departments[k].id in nodeMap && nodeMap[departments[k].id].department == departments[k]
    {
      var node := new TreeNode(departments[i]);
      IdsGrow(departments, i);
      ghost var before := nodeMap;
      nodeMap := nodeMap[departments[i].id := node];
      assert nodeMap.Values <= before.Values + {node};
    }
    assert departments[..|departments|] == departments;
  }

  /** buildTree. The nodes are linked in listing order, each under its parent's node if the parent is listed and under
      the root otherwise; so the root's children show exactly the forest of the listing. */
  method BuildTree(departments: seq<Department>) returns (root: TreeNode, ghost nodes: map<Id, TreeNode>)
    ensures fresh(root) && fresh(nodes.Values) && root !in nodes.Values && root.department == NO_DEPARTMENT
    ensures nodes.Keys == Ids(departments) && Linked(departments, Ids(departments), nodes)
    ensures Distinct(departments) ==> forall k :: 0 <= k < |departments| ==> nodes[departments[k].id].department == departments[k]
    ensures AreNodes(nodes, root.children, HungAt(departments, Ids(departments), None))
    ensures Distinct(departments) ==>
              && |root.children| == |Forest(departments)|
              && forall k :: 0 <= k < |root.children| ==> Shows(nodes.Values, root.children[k], Forest(departments)[k])
  {
    var nodeMap := MakeNodes(departments);
    root := new TreeNode(NO_DEPARTMENT);
    ghost var ids := Ids(departments);
    assert forall place :: HungAt(departments[..0], ids, place) == [];
    hide HungAt, Ids, Forest, Shows;
    for i := 0 to |departments|
      invariant Linked(departments[..i], ids, nodeMap)
      invariant AreNodes(nodeMap, root.children, HungAt(departments[..i], ids, None))
    {
      LinkOne(departments, i, nodeMap, root);
    }
    assert departments[..|departments|] == departments;
    nodes := nodeMap;
    if Distinct(departments) { ForestShown(departments, nodes, root); }
  }

  /** The body of the second loop. */
  method LinkOne(departments: seq<Department>, i: nat, nodeMap: map<Id, TreeNode>, root: TreeNode)
    requires i < |departments| && nodeMap.Keys == Ids(departments) && root !in nodeMap.Values
    requires Linked(departments[..i], Ids(departments), nodeMap)
    requires AreNodes(nodeMap, root.children, HungAt(departments[..i], Ids(departments), None))
    modifies nodeMap.Values, root
    ensures Linked(departments[..i + 1], Ids(departments), nodeMap)
    ensures AreNodes(nodeMap, root.children, HungAt(departments[..i + 1], Ids(departments), None))
  {
    var dept := departments[i];
    ghost var ids := Ids(departments);
    assert dept.id in ids;
    hide HungAt, Ids, AreNodes;
    var node := nodeMap[dept.id];
    var parent := root;
    if dept.parentId.Some? {
      if dept.parentId.value in nodeMap {
        parent := nodeMap[dept.parentId.value];
      }
    }
    parent.children := parent.children + [node];
    forall id | id in nodeMap
      ensures AreNodes(nodeMap, nodeMap[id].children, HungAt(departments[..i + 1], ids, Some(id)))
    {
      HungOneMore(departments, i, ids, Some(id), nodeMap, old(nodeMap[id].children));
    }
    HungOneMore(departments, i, ids, None, nodeMap, old(root.children));
  }

  lemma HungOneMore(listing: seq<Department>, i: nat, ids: set<Id>, place: Option<Id>, nodes: map<Id, TreeNode>,
                    children: seq<TreeNode>)
    requires i < |listing| && listing[i].id in nodes && AreNodes(nodes, children, HungAt(listing[..i], ids, place))
    ensures AreNodes(nodes, if Place(listing[i], ids) == place then children + [nodes[listing[i].id]] else children,
                     HungAt(listing[..i + 1], ids, place))
  {
    HungGrows(listing, i, ids, place);
  }

  lemma ForestShown(listing: seq<Department>, nodes: map<Id, TreeNode>, root: TreeNode)
    requires Distinct(listing) && nodes.Keys == Ids(listing) && Linked(listing, Ids(listing), nodes)
    requires AreNodes(nodes, root.children, HungAt(listing, Ids(listing), None))
    ensures |root.children| == |Forest(listing)|
    ensures forall k :: 0 <= k < |root.children| ==> Shows(nodes.Values, root.children[k], Forest(listing)[k])
  {
    HungWithin(listing, None);
    var cs := HungAt(listing, Ids(listing), None);
    TreesKeepOrder(listing, cs, 1);
    forall k | 0 <= k < |cs| ensures Shows(nodes.Values, root.children[k], Forest(listing)[k]) {
      LinkedShows(listing, nodes, cs[k]);
    }
  }
}
