/**
The department table under its service calls.

Every call is a few statements: a look at the table, then a write decided on what was seen. `Move` lets the statements of
any number of calls interleave; a call that nothing interrupts is three moves in a row.
*/
module DepartmentTable {
  import opened Common
  import opened Departments

  datatype Row = Row(department: Department, deleted: bool)
  type Table = map<Id, Row>

  // ---------------------------------------------------------------------------------------------
  // Statements

  predicate Live(rows: Table, id: Id, enterprise: Id) {
    id in rows && !rows[id].deleted && rows[id].department.enterpriseId == enterprise
  }

  function Found(rows: Table, id: Id, enterprise: Id): Option<Department> {
    if Live(rows, id, enterprise) then Some(rows[id].department) else None
  }

  /** INSERT; a row with this id already there makes it fail. */
  function Inserted(rows: Table, d: Department): Table {
    if d.id in rows then rows else rows[d.id := Row(d, false)]
  }

  /** Writing a whole row back. A row deleted meanwhile is either missed or, with `revives`, brought back. */
  function Rewritten(rows: Table, d: Department, revives: bool): Table {
    if d.id !in rows || (rows[d.id].deleted && !revives) then rows else rows[d.id := Row(d, false)]
  }

  function MarkedDeleted(rows: Table, id: Id, enterprise: Id): Table {
    if id in rows && rows[id].department.enterpriseId == enterprise then rows[id := rows[id].(deleted := true)] else rows
  }

  function LiveChildren(rows: Table, parent: Id): set<Id> {
    set id | id in rows && !rows[id].deleted && rows[id].department.parentId == Some(parent)
  }

  // ---------------------------------------------------------------------------------------------
  // Calls in progress

  datatype Call =
    | CreateReady(department: Department)
    | SaveReady(department: Department)
    | DeleteFound(id: Id, enterprise: Id)
    | DeleteReady(id: Id, enterprise: Id)
    | Over

  datatype World = World(rows: Table, calls: seq<Call>)

  /** A changed field of a loaded row; None keeps the stored value. */
  datatype Edit = Edit(name: Option<string>, manager: Option<Option<Id>>)

  datatype Event =
    | StartCreate(enterprise: Id, id: Id, name: string, parent: Option<Id>)
    | StartEdit(enterprise: Id, id: Id, edit: Edit)
    | StartDelete(enterprise: Id, id: Id)
    | Continue(call: nat, revives: bool)

  function Edited(d: Department, edit: Edit): Department {
    d.(name := edit.name.GetOr(d.name), managerId := edit.manager.GetOr(d.managerId))
  }

  function Move(w: World, e: Event): World {
    match e
    case StartCreate(enterprise, id, name, parent) =>
      if parent.Some? && Found(w.rows, parent.value, enterprise) == None then w.(calls := w.calls + [Over])
      else w.(calls := w.calls + [CreateReady(Department(id, enterprise, name, parent, None))])
    case StartEdit(enterprise, id, edit) =>
      (match Found(w.rows, id, enterprise)
       case None => w.(calls := w.calls + [Over])
       case Some(d) => w.(calls := w.calls + [SaveReady(Edited(d, edit))]))
    case StartDelete(enterprise, id) =>
      w.(calls := w.calls + [if Found(w.rows, id, enterprise) == None then Over else DeleteFound(id, enterprise)])
    case Continue(i, revives) =>
      if i >= |w.calls| then w
      else
        match w.calls[i]
        case CreateReady(d) => World(Inserted(w.rows, d), w.calls[i := Over])
        case SaveReady(d) => World(Rewritten(w.rows, d, revives), w.calls[i := Over])
        case DeleteFound(id, enterprise) =>
          w.(calls := w.calls[i := if LiveChildren(w.rows, id) == {} then DeleteReady(id, enterprise) else Over])
        case DeleteReady(id, enterprise) => World(MarkedDeleted(w.rows, id, enterprise), w.calls[i := Over])
        case Over => w
  }

  function Moves(w: World, events: seq<Event>): World
    decreases |events|
  {
    if events == [] then w else Moves(Move(w, events[0]), events[1..])
  }

  /** One call that nothing interrupts, from an idle table. */
  function Serial(rows: Table, start: Event): Table {
    Move(Move(Move(World(rows, []), start), Continue(0, false)), Continue(0, false)).rows
  }

  function Serials(rows: Table, starts: seq<Event>): Table
    decreases |starts|
  {
    if starts == [] then rows else Serials(Serial(rows, starts[0]), starts[1..])
  }

  // ---------------------------------------------------------------------------------------------
  // The parent pointers of the table

  function AllParents(rows: Table): Parents {
    map id | id in rows :: rows[id].department.parentId
  }

  /** The parent was a department of the same enterprise; it may have been deleted since. */
  predicate ParentKnown(rows: Table, d: Department) {
    match d.parentId
    case None => true
    case Some(p) => p in rows && rows[p].department.enterpriseId == d.enterpriseId
  }

  ghost predicate TableOk(rows: Table) {
    && (forall id :: id in rows ==> rows[id].department.id == id && ParentKnown(rows, rows[id].department))
    && (forall id :: id in rows ==> Grounded(AllParents(rows), id))
  }

  predicate CallOk(rows: Table, c: Call) {
    match c
    case CreateReady(d) => ParentKnown(rows, d)
    case SaveReady(d) =>
      && d.id in rows && rows[d.id].department.enterpriseId == d.enterpriseId && rows[d.id].department.parentId == d.parentId
    case _ => true
  }

  ghost predicate WorldOk(w: World) {
    TableOk(w.rows) && forall i :: 0 <= i < |w.calls| ==> CallOk(w.rows, w.calls[i])
  }

  /** Rows stay, with their enterprise and their parent. */
  predicate Kept(before: Table, after: Table) {
    forall id :: id in before ==>
      && id in after && after[id].department.enterpriseId == before[id].department.enterpriseId
      && after[id].department.parentId == before[id].department.parentId
  }

  lemma {:induction false} ClimbInLarger(ps: Parents, larger: Parents, d: Id, n: nat)
    requires forall id :: id in ps ==> id in larger && larger[id] == ps[id]
    requires forall id :: id in ps && ps[id].Some? ==> ps[id].value in ps
    requires d in ps
    ensures Climb(larger, d, n) == Climb(ps, d, n)
    decreases n
  {
    if n > 0 && ps[d].Some? { ClimbInLarger(ps, larger, ps[d].value, n - 1); }
  }

  lemma {:induction false} ClimbInSmaller(ps: Parents, smaller: Parents, d: Id, n: nat)
    requires forall id :: id in smaller ==> id in ps && smaller[id] == ps[id]
    requires Climb(ps, d, n) == None
    ensures Climb(smaller, d, n) == None
    decreases n
  {
    if d in smaller && n > 0 && ps[d].Some? { ClimbInSmaller(ps, smaller, ps[d].value, n - 1); }
  }

  /** A new department below a known one leaves every walk to the top finite. */
  lemma InsertKeepsTable(rows: Table, d: Department)
    requires TableOk(rows) && ParentKnown(rows, d)
    ensures TableOk(Inserted(rows, d))
  {
    if d.id !in rows {
      var after := Inserted(rows, d);
      var ps, larger := AllParents(rows), AllParents(after);
      forall id | id in rows ensures Grounded(larger, id) {
        var n: nat :| Climb(ps, id, n) == None;
        ClimbInLarger(ps, larger, id, n);
      }
      if d.parentId.Some? {
        var n: nat :| Climb(larger, d.parentId.value, n) == None;
        assert Climb(larger, d.id, n + 1) == None;
      } else {
        assert Climb(larger, d.id, 1) == None;
      }
      forall id | id in after ensures ParentKnown(after, after[id].department) {}
    }
  }

  /** A write that keeps the parents keeps the table in order. */
  lemma SameParentsKeepTable(rows: Table, after: Table)
    requires TableOk(rows) && Kept(rows, after) && after.Keys == rows.Keys
    requires forall id :: id in after ==> after[id].department.id == id
    ensures TableOk(after)
  {
    assert AllParents(after) == AllParents(rows);
    forall id | id in after ensures ParentKnown(after, after[id].department) {
      assert ParentKnown(rows, rows[id].department);
    }
  }

  lemma CallOkKept(rows: Table, after: Table, c: Call)
    requires CallOk(rows, c) && Kept(rows, after)
    ensures CallOk(after, c)
  {}

  lemma SaveKeepsTable(rows: Table, d: Department, revives: bool)
    requires TableOk(rows) && CallOk(rows, SaveReady(d))
    ensures TableOk(Rewritten(rows, d, revives)) && Kept(rows, Rewritten(rows, d, revives))
  {
    SameParentsKeepTable(rows, Rewritten(rows, d, revives));
  }

  lemma DeleteKeepsTable(rows: Table, id: Id, enterprise: Id)
    requires TableOk(rows)
    ensures TableOk(MarkedDeleted(rows, id, enterprise)) && Kept(rows, MarkedDeleted(rows, id, enterprise))
  {
    SameParentsKeepTable(rows, MarkedDeleted(rows, id, enterprise));
  }

  lemma ContinueKeepsTable(w: World, i: nat, revives: bool)
    requires WorldOk(w) && i < |w.calls|
    ensures TableOk(Move(w, Continue(i, revives)).rows) && Kept(w.rows, Move(w, Continue(i, revives)).rows)
  {
    assert CallOk(w.rows, w.calls[i]);
    hide TableOk, Inserted, Rewritten, MarkedDeleted;
    match w.calls[i]
    case CreateReady(d) => InsertKeepsTable(w.rows, d); InsertKeepsRows(w.rows, d);
    case SaveReady(d) => SaveKeepsTable(w.rows, d, revives);
    case DeleteReady(id, enterprise) => DeleteKeepsTable(w.rows, id, enterprise);
    case _ =>
  }

  lemma InsertKeepsRows(rows: Table, d: Department)
    ensures Kept(rows, Inserted(rows, d))
  {}

  lemma MoveKeepsWorld(w: World, e: Event)
    requires WorldOk(w)
    ensures WorldOk(Move(w, e)) && Kept(w.rows, Move(w, e).rows)
  {
    var v := Move(w, e);
    if e.Continue? && e.call < |w.calls| { ContinueKeepsTable(w, e.call, e.revives); }
    assert TableOk(v.rows) && Kept(w.rows, v.rows);
    hide TableOk, Inserted, Rewritten, MarkedDeleted;
    forall i | 0 <= i < |w.calls| ensures CallOk(v.rows, w.calls[i]) { CallOkKept(w.rows, v.rows, w.calls[i]); }
  }

  lemma {:induction false} MovesKeepWorld(w: World, events: seq<Event>)
    requires WorldOk(w)
    ensures WorldOk(Moves(w, events))
    decreases |events|
  {
    if events != [] {
      MoveKeepsWorld(w, events[0]);
      MovesKeepWorld(Move(w, events[0]), events[1..]);
    }
  }

  // ---------------------------------------------------------------------------------------------
  // Listings and trees

  /** The live departments of one enterprise, each once, in some order. */
  ghost predicate IsListing(rows: Table, enterprise: Id, listing: seq<Department>) {
    && Distinct(listing)
    && (forall i :: 0 <= i < |listing| ==>
          Live(rows, listing[i].id, enterprise) && listing[i] == rows[listing[i].id].department)
    && (forall id :: Live(rows, id, enterprise) ==> id in Ids(listing))
  }

  lemma ListingIsGrounded(rows: Table, enterprise: Id, listing: seq<Department>, id: Id)
    requires TableOk(rows) && IsListing(rows, enterprise, listing) && id in Ids(listing)
    ensures Grounded(ParentsOf(listing), id)
  {
    ParentsOfListing(listing);
    var ps, smaller := AllParents(rows), ParentsOf(listing);
    forall d | d in smaller ensures d in ps && smaller[d] == ps[d] {
      var i :| 0 <= i < |listing| && listing[i].id == d;
    }
    var j :| 0 <= j < |listing| && listing[j].id == id;
    var n: nat :| Climb(ps, id, n) == None;
    ClimbInSmaller(ps, smaller, id, n);
  }

  /** However create, edit and delete calls interleave, the tree of an enterprise holds each of its live departments
      exactly once and nothing else: no department is lost, even one whose parent was deleted under it. */
  lemma TreeLosesNothing(events: seq<Event>, enterprise: Id, listing: seq<Department>, d: Id)
    requires IsListing(Moves(World(map[], []), events).rows, enterprise, listing)
    ensures CountAll(Forest(listing), d) == if Live(Moves(World(map[], []), events).rows, d, enterprise) then 1 else 0
  {
    var rows := Moves(World(map[], []), events).rows;
    MovesKeepWorld(World(map[], []), events);
    ForestHoldsGroundedOnce(listing, d);
    if d in Ids(listing) {
      ListingIsGrounded(rows, enterprise, listing, d);
      var i :| 0 <= i < |listing| && listing[i].id == d;
    }
  }

  /** In every reachable table a department lies on no cycle of parents. */
  lemma NoCycleOfParents(events: seq<Event>, d: Id, n: nat)
    requires n > 0
    ensures Climb(AllParents(Moves(World(map[], []), events).rows), d, n) != Some(d)
  {
    var rows := Moves(World(map[], []), events).rows;
    MovesKeepWorld(World(map[], []), events);
    if Climb(AllParents(rows), d, n) == Some(d) {
      GroundedMeansNoCycle(AllParents(rows), d, n);
    }
  }

  // ---------------------------------------------------------------------------------------------
  // When parents stay live

  /** Every live department's parent is live and of the same enterprise. */
  ghost predicate ParentsLive(rows: Table) {
    forall id :: id in rows && !rows[id].deleted && rows[id].department.parentId.Some? ==>
      Live(rows, rows[id].department.parentId.value, rows[id].department.enterpriseId)
  }

  predicate ParentGone(rows: Table, d: Department) {
    d.parentId.Some? && !Live(rows, d.parentId.value, d.enterpriseId)
  }

  /** The call's next write goes ahead on a table that has changed since the call looked at it: the parent of the new
      department is gone, a department is brought back whose parent is gone, or one is deleted that has got a child. */
  predicate Orphans(w: World, e: Event) {
    && e.Continue? && e.call < |w.calls|
    && match w.calls[e.call]
       case CreateReady(d) => d.id !in w.rows && ParentGone(w.rows, d)
       case SaveReady(d) => e.revives && d.id in w.rows && w.rows[d.id].deleted && ParentGone(w.rows, d)
       case DeleteReady(id, enterprise) => Live(w.rows, id, enterprise) && LiveChildren(w.rows, id) != {}
       case _ => false
  }

  lemma NoOwnParent(rows: Table, id: Id)
    requires TableOk(rows) && id in rows
    ensures rows[id].department.parentId != Some(id)
  {
    if rows[id].department.parentId == Some(id) {
      assert Climb(AllParents(rows), id, 0) == Some(id);
      assert Climb(AllParents(rows), id, 1) == Some(id);
      GroundedMeansNoCycle(AllParents(rows), id, 1);
    }
  }

  lemma WrittenParentsLiveIff(rows: Table, d: Department)
    requires ParentsLive(rows) && d.parentId != Some(d.id)
    requires d.id in rows ==> rows[d.id].department.enterpriseId == d.enterpriseId
    ensures ParentsLive(rows[d.id := Row(d, false)]) <==> !ParentGone(rows, d)
  {
    var after := rows[d.id := Row(d, false)];
    forall id, enterprise | Live(rows, id, enterprise) ensures Live(after, id, enterprise) {}
    assert after[d.id].department == d && !after[d.id].deleted;
    if ParentGone(rows, d) { assert !Live(after, d.parentId.value, d.enterpriseId); }
  }

  lemma DeletedParentsLiveIff(rows: Table, id: Id, enterprise: Id)
    requires TableOk(rows) && ParentsLive(rows)
    ensures ParentsLive(MarkedDeleted(rows, id, enterprise)) <==> !(Live(rows, id, enterprise) && LiveChildren(rows, id) != {})
  {
    var after := MarkedDeleted(rows, id, enterprise);
    if Live(rows, id, enterprise) {
      NoOwnParent(rows, id);
      if LiveChildren(rows, id) != {} {
        var child :| child in LiveChildren(rows, id);
        assert !after[child].deleted && after[child].department.parentId == Some(id);
      } else {
        forall c | c in rows && !rows[c].deleted ensures rows[c].department.parentId != Some(id) {
          assert c !in LiveChildren(rows, id);
        }
      }
    }
  }

  /** From a reachable table in which parents are live, one statement of one call keeps them live exactly when it is not
      one of the three overtaken writes. */
  lemma MoveKeepsParentsLiveIff(w: World, e: Event)
    requires WorldOk(w) && ParentsLive(w.rows)
    ensures ParentsLive(Move(w, e).rows) <==> !Orphans(w, e)
  {
    if e.Continue? && e.call < |w.calls| {
      assert CallOk(w.rows, w.calls[e.call]);
      match w.calls[e.call]
      case CreateReady(d) => if d.id !in w.rows { WrittenParentsLiveIff(w.rows, d); }
      case SaveReady(d) =>
        NoOwnParent(w.rows, d.id);
        WrittenParentsLiveIff(w.rows, d);
      case DeleteReady(id, enterprise) => DeletedParentsLiveIff(w.rows, id, enterprise);
      case _ =>
    }
  }

  /** The table and the calls after the first k events, from an empty table. */
  function Reached(events: seq<Event>, k: nat): World
    requires k <= |events|
  {
    Moves(World(map[], []), events[..k])
  }

  lemma {:induction false} MovesLast(w: World, events: seq<Event>, e: Event)
    ensures Moves(w, events + [e]) == Move(Moves(w, events), e)
    decreases |events|
  {
    hide Move;
    if events == [] {
      assert [e][1..] == [] && [] + [e] == [e];
      assert Moves(Move(w, e), []) == Move(w, e);
    } else {
      assert (events + [e])[1..] == events[1..] + [e];
      MovesLast(Move(w, events[0]), events[1..], e);
    }
  }

  lemma ReachedStep(events: seq<Event>, k: nat)
    requires k < |events|
    ensures Reached(events, k + 1) == Move(Reached(events, k), events[k])
    ensures WorldOk(Reached(events, k))
  {
    assert events[..k + 1] == events[..k] + [events[k]];
    MovesLast(World(map[], []), events[..k], events[k]);
    MovesKeepWorld(World(map[], []), events[..k]);
  }

  lemma {:induction false} ParentsLiveUpTo(events: seq<Event>, k: nat)
    requires k <= |events| && forall j :: 0 <= j < k ==> !Orphans(Reached(events, j), events[j])
    ensures ParentsLive(Reached(events, k).rows)
  {
    hide Orphans, WorldOk, Move;
    if k == 0 {
      assert Reached(events, 0).rows == map[];
    } else {
      hide Reached, ParentsLive;
      ParentsLiveUpTo(events, k - 1);
      ReachedStep(events, k - 1);
      MoveKeepsParentsLiveIff(Reached(events, k - 1), events[k - 1]);
    }
  }

  /** Throughout a run, however its calls interleave, every live department's parent is live exactly when no call's
      write has been overtaken. */
  lemma ParentsStayLiveIff(events: seq<Event>)
    ensures (forall k :: 0 <= k <= |events| ==> ParentsLive(Reached(events, k).rows))
       <==> forall k :: 0 <= k < |events| ==> !Orphans(Reached(events, k), events[k])
  {
    hide Orphans, WorldOk, Move, Reached, ParentsLive;
    if forall k :: 0 <= k < |events| ==> !Orphans(Reached(events, k), events[k]) {
      forall k | 0 <= k <= |events| ensures ParentsLive(Reached(events, k).rows) { ParentsLiveUpTo(events, k); }
    } else {
      var k :| 0 <= k < |events| && Orphans(Reached(events, k), events[k]);
      ReachedStep(events, k);
      if ParentsLive(Reached(events, k).rows) { MoveKeepsParentsLiveIff(Reached(events, k), events[k]); }
      assert !(ParentsLive(Reached(events, k).rows) && ParentsLive(Reached(events, k + 1).rows));
    }
  }

  /** Then every listed department with a parent hangs under that parent. */
  lemma TreesFollowParents(events: seq<Event>, enterprise: Id, listing: seq<Department>, i: nat)
    requires forall k :: 0 <= k < |events| ==> !Orphans(Reached(events, k), events[k])
    requires IsListing(Moves(World(map[], []), events).rows, enterprise, listing) && i < |listing|
    ensures Place(listing[i], Ids(listing)) == listing[i].parentId
  {
    ParentsLiveUpTo(events, |events|);
    assert events[..|events|] == events;
    hide Orphans, Moves;
    assert Live(Moves(World(map[], []), events).rows, listing[i].id, enterprise);
  }

  // ---------------------------------------------------------------------------------------------
  // Calls that do not overlap

  /** What one uninterrupted call does to the table. */
  lemma SerialIs(rows: Table, start: Event)
    ensures Serial(rows, start) ==
            match start
            case StartCreate(enterprise, id, name, parent) =>
              if parent.Some? && !Live(rows, parent.value, enterprise) then rows
              else Inserted(rows, Department(id, enterprise, name, parent, None))
            case StartEdit(enterprise, id, edit) =>
              if Live(rows, id, enterprise) then Rewritten(rows, Edited(rows[id].department, edit), false) else rows
            case StartDelete(enterprise, id) =>
              if Live(rows, id, enterprise) && LiveChildren(rows, id) == {} then MarkedDeleted(rows, id, enterprise) else rows
            case Continue(_, _) => rows
  {}

  lemma SerialKeepsTable(rows: Table, start: Event)
    requires TableOk(rows)
    ensures TableOk(Serial(rows, start))
  {
    hide TableOk;
    var w1 := Move(World(rows, []), start);
    MoveKeepsWorld(World(rows, []), start);
    MoveKeepsWorld(w1, Continue(0, false));
    MoveKeepsWorld(Move(w1, Continue(0, false)), Continue(0, false));
  }

  lemma SerialKeepsParentsLive(rows: Table, start: Event)
    requires TableOk(rows) && ParentsLive(rows) && !start.Continue?
    ensures TableOk(Serial(rows, start)) && ParentsLive(Serial(rows, start))
  {
    SerialKeepsTable(rows, start);
    SerialIs(rows, start);
    hide Serial;
    var after := Serial(rows, start);
    if start.StartDelete? && Live(rows, start.id, start.enterprise) && LiveChildren(rows, start.id) == {} {
      forall id | id in rows && !rows[id].deleted ensures rows[id].department.parentId != Some(start.id) {
        assert id !in LiveChildren(rows, start.id);
      }
    }
  }

  lemma {:induction false} SerialsKeepParentsLive(rows: Table, starts: seq<Event>)
    requires TableOk(rows) && ParentsLive(rows) && forall k :: 0 <= k < |starts| ==> !starts[k].Continue?
    ensures TableOk(Serials(rows, starts)) && ParentsLive(Serials(rows, starts))
    decreases |starts|
  {
    if starts != [] {
      SerialKeepsParentsLive(rows, starts[0]);
      SerialsKeepParentsLive(Serial(rows, starts[0]), starts[1..]);
    }
  }

  /** After every run of calls one after the other, a listed department with a parent hangs under that parent. */
  lemma SerialTreesFollowParents(starts: seq<Event>, enterprise: Id, listing: seq<Department>, i: nat)
    requires forall k :: 0 <= k < |starts| ==> !starts[k].Continue?
    requires IsListing(Serials(map[], starts), enterprise, listing) && i < |listing|
    ensures Place(listing[i], Ids(listing)) == listing[i].parentId
  {
    SerialsKeepParentsLive(map[], starts);
    assert Live(Serials(map[], starts), listing[i].id, enterprise);
  }

  /** When calls overlap, a parent can be deleted between the check and the insertion of its child: the child is live,
      its parent is not, and the tree shows the child at the top. */
  lemma OverlapCanOrphan()
    ensures var w := Moves(World(map[], []), [StartCreate("e", "a", "A", None), Continue(0, false),
                                              StartCreate("e", "b", "B", Some("a")), StartDelete("e", "a"),
                                              Continue(2, false), Continue(2, false), Continue(1, false)]);
            Live(w.rows, "b", "e") && w.rows["b"].department.parentId == Some("a") && !Live(w.rows, "a", "e")
  {}

  // ---------------------------------------------------------------------------------------------
  // The repository and the service

  datatype Error = Validation(field: string) | NotFound | BadRequest | Internal

  /** A text argument that is empty, is no UUID, or is one. */
  datatype Argument = Blank | Malformed | Given(id: Id)

  /** The database's order of names: any total order up to ties. */
  type Collation = (string, string) -> bool

  ghost predicate Collates(atMost: Collation) {
    && (forall a, b :: atMost(a, b) || atMost(b, a))
    && (forall a, b, c :: atMost(a, b) && atMost(b, c) ==> atMost(a, c))
  }

  ghost predicate ByName(listing: seq<Department>, atMost: Collation) {
    forall i, j :: 0 <= i < j < |listing| ==> atMost(listing[i].name, listing[j].name)
  }

  lemma InsertedMembers(listing: seq<Department>, d: Department, k: nat)
    requires k <= |listing| && Distinct(listing) && d.id !in Ids(listing)
    ensures var longer := listing[..k] + [d] + listing[k..];
            && Distinct(longer) && Ids(longer) == Ids(listing) + {d.id}
            && forall i :: 0 <= i < |longer| ==> longer[i] == d || longer[i] in listing
  {
    var longer := listing[..k] + [d] + listing[k..];
    assert forall i :: 0 <= i < |longer| ==> longer[i] == if i < k then listing[i] else if i == k then d else listing[i - 1];
    forall i | 0 <= i < |listing| ensures listing[i].id in Ids(listing) && listing[i].id in Ids(longer) {
      assert longer[if i < k then i else i + 1] == listing[i];
    }
    assert longer[k] == d;
  }

  lemma InsertedByName(listing: seq<Department>, d: Department, k: nat, atMost: Collation)
    requires k <= |listing| && ByName(listing, atMost)
    requires forall i :: 0 <= i < k ==> atMost(listing[i].name, d.name)
    requires forall i :: k <= i < |listing| ==> atMost(d.name, listing[i].name)
    ensures ByName(listing[..k] + [d] + listing[k..], atMost)
  {
    var longer := listing[..k] + [d] + listing[k..];
    forall i, j | 0 <= i < j < |longer| ensures atMost(longer[i].name, longer[j].name) {
      assert longer[i] == if i < k then listing[i] else if i == k then d else listing[i - 1];
      assert longer[j] == if j < k then listing[j] else if j == k then d else listing[j - 1];
    }
  }

  /** Siblings stand in the order of the listing, so by name. */
  lemma {:induction false} SiblingsByName(listing: seq<Department>, ids: set<Id>, place: Option<Id>, atMost: Collation, i: nat, j: nat)
    returns (p: nat, q: nat)
    requires ByName(listing, atMost) && i < j < |HungAt(listing, ids, place)|
    ensures p < q < |listing| && atMost(listing[p].name, listing[q].name)
    ensures listing[p].id == HungAt(listing, ids, place)[i] && listing[q].id == HungAt(listing, ids, place)[j]
    decreases |listing|
  {
    var n := |listing| - 1;
    var front := listing[..n];
    var before := HungAt(front, ids, place);
    if j == |before| {
      HungAtMembers(front, ids, place);
      assert before[i] in before;
      p :| 0 <= p < n && front[p].id == before[i];
      q := n;
    } else {
      p, q := SiblingsByName(front, ids, place, atMost, i, j);
    }
  }

  class DepartmentRepo {
    var rows: Table
    const atMost: Collation

    constructor (atMost: Collation)
      ensures rows == map[] && this.atMost == atMost
    {
      rows := map[];
      this.atMost := atMost;
    }

    method Create(d: Department) returns (ok: bool)
      modifies this
      ensures rows == Inserted(old(rows), d) && (ok <==> d.id !in old(rows))
    {
      ok := d.id !in rows;
      if ok { rows := rows[d.id := Row(d, false)]; }
    }

    /** `revives`: a library that finds no live row to update inserts the copy, over the deleted row. */
    method Update(d: Department, revives: bool)
      modifies this
      ensures rows == Rewritten(old(rows), d, revives)
    {
      if d.id in rows && (revives || !rows[d.id].deleted) { rows := rows[d.id := Row(d, false)]; }
    }

    /** Soft deletion. */
    method Delete(id: Id, enterprise: Id)
      modifies this
      ensures rows == MarkedDeleted(old(rows), id, enterprise)
    {
      if id in rows && rows[id].department.enterpriseId == enterprise { rows := rows[id := rows[id].(deleted := true)]; }
    }

    method FindByID(id: Id, enterprise: Id) returns (d: Option<Department>)
      ensures d == Found(rows, id, enterprise)
    {
      if id in rows && !rows[id].deleted && rows[id].department.enterpriseId == enterprise {
        return Some(rows[id].department);
      }
      return None;
    }

    method CountByParent(parent: Id) returns (count: nat)
      ensures count == |LiveChildren(rows, parent)|
    {
      return |set id | id in rows && !rows[id].deleted && rows[id].department.parentId == Some(parent)|;
    }

    /** The live departments of the enterprise, by name. */
    method ListByEnterprise(enterprise: Id) returns (listing: seq<Department>)
      requires forall id :: id in rows ==> rows[id].department.id == id
      requires Collates(atMost)
      ensures IsListing(rows, enterprise, listing) && ByName(listing, atMost)
    {
      listing := [];
      var rest := rows.Keys;
      while rest != {}
        invariant rest <= rows.Keys && Distinct(listing) && ByName(listing, atMost)
        invariant forall i :: 0 <= i < |listing| ==> listing[i].id !in rest && Live(rows, listing[i].id, enterprise)
                                                     && listing[i] == rows[listing[i].id].department
        invariant forall id :: Live(rows, id, enterprise) && id !in rest ==> id in Ids(listing)
        decreases rest
      {
        var id :| id in rest;
        if !rows[id].deleted && rows[id].department.enterpriseId == enterprise {
          var k := FindPlace(listing, rows[id].department);
          InsertedMembers(listing, rows[id].department, k);
          InsertedByName(listing, rows[id].department, k, atMost);
          listing := listing[..k] + [rows[id].department] + listing[k..];
        }
        rest := rest - {id};
      }
    }

    method FindPlace(listing: seq<Department>, d: Department) returns (k: nat)
      requires ByName(listing, atMost) && Collates(atMost)
      ensures k <= |listing|
      ensures forall i :: 0 <= i < k ==> atMost(listing[i].name, d.name)
      ensures forall i :: k <= i < |listing| ==> atMost(d.name, listing[i].name)
    {
      k := 0;
      while k < |listing| && atMost(listing[k].name, d.name)
        invariant k <= |listing|
        invariant forall i :: 0 <= i < k ==> atMost(listing[i].name, d.name)
      {
        k := k + 1;
      }
      forall i | k <= i < |listing| ensures atMost(d.name, listing[i].name) {
        assert atMost(d.name, listing[k].name);
        assert i > k ==> atMost(listing[k].name, listing[i].name);
      }
    }
  }

  class DepartmentService {
    const repo: DepartmentRepo

    constructor (repo: DepartmentRepo)
      ensures this.repo == repo
    {
      this.repo := repo;
    }

    ghost predicate Valid()
      reads this, repo
    {
      TableOk(repo.rows) && ParentsLive(repo.rows)
    }

    /** `id` is the new row's UUID. */
    method Create(enterprise: Argument, id: Id, name: string, parent: Argument) returns (result: Result<Department, Error>)
      requires Valid()
      modifies repo
      ensures Valid()
      ensures result.Ok? <==>
                && enterprise.Given? && name != "" && !parent.Malformed?
                && (parent.Given? ==> Live(old(repo.rows), parent.id, enterprise.id)) && id !in old(repo.rows)
      ensures result.Ok? ==>
                && repo.rows == Serial(old(repo.rows), StartCreate(enterprise.id, id, name, if parent.Given? then Some(parent.id) else None))
                && Live(repo.rows, id, enterprise.id) && repo.rows[id].department == result.value
                && result.value == Department(id, enterprise.id, name, if parent.Given? then Some(parent.id) else None, None)
      ensures result.Err? ==> repo.rows == old(repo.rows)
      ensures result.Err? ==>
                result.error == if !enterprise.Given? then Validation("enterprise_id")
                                else if name == "" then Validation("name")
                                else if parent.Malformed? then Validation("parent_id")
                                else if parent.Given? && !Live(old(repo.rows), parent.id, enterprise.id) then NotFound
                                else Internal
    {
      if !enterprise.Given? { return Err(Validation("enterprise_id")); }
      if name == "" { return Err(Validation("name")); }
      var dept := Department(id, enterprise.id, name, None, None);
      if !parent.Blank? {
        if parent.Malformed? { return Err(Validation("parent_id")); }
        var found := repo.FindByID(parent.id, enterprise.id);
        if found.None? { return Err(NotFound); }
        dept := dept.(parentId := Some(parent.id));
      }
      ghost var start := StartCreate(enterprise.id, id, name, dept.parentId);
      SerialIs(repo.rows, start);
      SerialKeepsParentsLive(repo.rows, start);
      var ok := repo.Create(dept);
      if !ok { return Err(Internal); }
      return Ok(dept);
    }

    /** Loads the row, changes fields of the copy and writes the copy back. */
    method Change(enterprise: Argument, department: Argument, field: string, manager: Argument, edit: Edit)
      returns (result: Result<Department, Error>)
      requires Valid()
      modifies repo
      ensures Valid()
      ensures result.Ok? <==>
                && enterprise.Given? && department.Given?
                && Live(old(repo.rows), department.id, enterprise.id) && !manager.Malformed?
      ensures result.Ok? ==>
                && repo.rows == Serial(old(repo.rows), StartEdit(enterprise.id, department.id, edit))
                && Live(repo.rows, department.id, enterprise.id) && repo.rows[department.id].department == result.value
                && result.value == Edited(old(repo.rows)[department.id].department, edit)
      ensures result.Err? ==> repo.rows == old(repo.rows)
      ensures result.Err? ==>
                result.error == if !enterprise.Given? then Validation("enterprise_id")
                                else if !department.Given? then Validation("department_id")
                                else if !Live(old(repo.rows), department.id, enterprise.id) then NotFound
                                else Validation(field)
    {
      if !enterprise.Given? { return Err(Validation("enterprise_id")); }
      if !department.Given? { return Err(Validation("department_id")); }
      var found := repo.FindByID(department.id, enterprise.id);
      if found.None? { return Err(NotFound); }
      if manager.Malformed? { return Err(Validation(field)); }
      ghost var start := StartEdit(enterprise.id, department.id, edit);
      SerialIs(repo.rows, start);
      SerialKeepsParentsLive(repo.rows, start);
      var dept := found.value.(name := edit.name.GetOr(found.value.name), managerId := edit.manager.GetOr(found.value.managerId));
      repo.Update(dept, false);
      return Ok(dept);
    }

    /** An empty name or manager keeps the stored one; the parent is never touched. */
    method Update(enterprise: Argument, department: Argument, name: string, manager: Argument)
      returns (result: Result<Department, Error>)
      requires Valid()
      modifies repo
      ensures Valid()
      ensures result.Ok? <==>
                && enterprise.Given? && department.Given?
                && Live(old(repo.rows), department.id, enterprise.id) && !manager.Malformed?
      ensures result.Err? ==> repo.rows == old(repo.rows)
      ensures result.Err? ==>
                result.error == if !enterprise.Given? then Validation("enterprise_id")
                                else if !department.Given? then Validation("department_id")
                                else if !Live(old(repo.rows), department.id, enterprise.id) then NotFound
                                else Validation("manager_id")
      ensures result.Ok? ==>
                && department.id in old(repo.rows)
                && (var was := old(repo.rows)[department.id].department;
                    && result.value.name == (if name == "" then was.name else name)
                    && result.value.managerId == (if manager.Given? then Some(manager.id) else was.managerId)
                    && result.value.id == was.id && result.value.enterpriseId == was.enterpriseId
                    && result.value.parentId == was.parentId)
                && repo.rows == old(repo.rows)[department.id := Row(result.value, false)]
    {
      var edit := Edit(if name == "" then None else Some(name), if manager.Given? then Some(Some(manager.id)) else None);
      if department.Given? && enterprise.Given? { SerialIs(repo.rows, StartEdit(enterprise.id, department.id, edit)); }
      result := Change(enterprise, department, "manager_id", manager, edit);
    }

    /** An empty employee clears the manager. */
    method SetManager(enterprise: Argument, department: Argument, employee: Argument)
      returns (result: Result<Department, Error>)
      requires Valid()
      modifies repo
      ensures Valid()
      ensures result.Ok? <==>
                && enterprise.Given? && department.Given?
                && Live(old(repo.rows), department.id, enterprise.id) && !employee.Malformed?
      ensures result.Err? ==> repo.rows == old(repo.rows)
      ensures result.Err? ==>
                result.error == if !enterprise.Given? then Validation("enterprise_id")
                                else if !department.Given? then Validation("department_id")
                                else if !Live(old(repo.rows), department.id, enterprise.id) then NotFound
                                else Validation("employee_id")
      ensures result.Ok? ==>
                && department.id in old(repo.rows)
                && result.value == old(repo.rows)[department.id].department.(
                                     managerId := if employee.Given? then Some(employee.id) else None)
                && repo.rows == old(repo.rows)[department.id := Row(result.value, false)]
    {
      var edit := Edit(None, Some(if employee.Given? then Some(employee.id) else None));
      if department.Given? && enterprise.Given? { SerialIs(repo.rows, StartEdit(enterprise.id, department.id, edit)); }
      result := Change(enterprise, department, "employee_id", employee, edit);
    }

    method Delete(enterprise: Argument, department: Argument) returns (error: Option<Error>)
      requires Valid()
      modifies repo
      ensures Valid()
      ensures error == None <==>
                && enterprise.Given? && department.Given?
                && Live(old(repo.rows), department.id, enterprise.id) && LiveChildren(old(repo.rows), department.id) == {}
      ensures error == None ==>
                && repo.rows == Serial(old(repo.rows), StartDelete(enterprise.id, department.id))
                && !Live(repo.rows, department.id, enterprise.id)
      ensures error.Some? ==> repo.rows == old(repo.rows)
      ensures error.Some? ==>
                error.value == if !enterprise.Given? then Validation("enterprise_id")
                               else if !department.Given? then Validation("department_id")
                               else if !Live(old(repo.rows), department.id, enterprise.id) then NotFound else BadRequest
    {
      if !enterprise.Given? { return Some(Validation("enterprise_id")); }
      if !department.Given? { return Some(Validation("department_id")); }
      var found := repo.FindByID(department.id, enterprise.id);
      if found.None? { return Some(NotFound); }
      var childCount := repo.CountByParent(department.id);
      if childCount > 0 { return Some(BadRequest); }
      ghost var start := StartDelete(enterprise.id, department.id);
      SerialIs(repo.rows, start);
      SerialKeepsParentsLive(repo.rows, start);
      repo.Delete(department.id, enterprise.id);
      return None;
    }

    /** On every reachable table the linked tree shows the forest of a listing of the enterprise, and that forest holds
        every live department exactly once, also those whose parent has been deleted. */
    method GetTree(enterprise: Id) returns (root: TreeNode, ghost listing: seq<Department>, ghost nodes: map<Id, TreeNode>)
      requires TableOk(repo.rows) && Collates(repo.atMost)
      ensures IsListing(repo.rows, enterprise, listing) && ByName(listing, repo.atMost)
      ensures |root.children| == |Forest(listing)|
      ensures forall k :: 0 <= k < |root.children| ==> Shows(nodes.Values, root.children[k], Forest(listing)[k])
      ensures forall d :: CountAll(Forest(listing), d) == if Live(repo.rows, d, enterprise) then 1 else 0
    {
      var departments := repo.ListByEnterprise(enterprise);
      listing := departments;
      root, nodes := BuildTree(departments);
      forall d ensures CountAll(Forest(listing), d) == if Live(repo.rows, d, enterprise) then 1 else 0 {
        ForestHoldsGroundedOnce(listing, d);
        if d in Ids(listing) {
          ListingIsGrounded(repo.rows, enterprise, listing, d);
          var i :| 0 <= i < |listing| && listing[i].id == d;
        }
      }
    }
  }
}
