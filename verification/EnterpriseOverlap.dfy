/**
Calls on enterprises that overlap. A call loads a copy of the row, decides on it, and later writes the whole copy back;
a change of status then inserts its log row. Every database statement is one step.
*/
module EnterpriseOverlap {
  import opened Common
  import opened EnterpriseLifecycle

  /** What the database answers: the statement ran; it was refused; or it ran but its answer was lost. */
  datatype Db = Ran | Refused | ReplyLost

  /** A call in progress: it has loaded and checked a row for a change of status; it is about to write a whole row back,
      for a change of status or not; it is about to insert a log row; or it is over. */
  datatype Call =
    | Checked(id: Id, snap: Enterprise, to: string, reason: string, operator: Id)
    | Saving(id: Id, row: Enterprise, change: Option<LogRow>)
    | Logging(logRow: LogRow)
    | Over

  datatype System = System(now: int, rows: map<Id, Enterprise>, logs: seq<LogRow>, calls: seq<Call>)

  datatype Action =
    | Tick(seconds: nat)
    | StartCreate(id: Id, groupId: string, name: string, code: string, schemaName: string)
    | StartRename(id: Id, name: string)
    | StartChange(id: Id, to: string, reason: string, operator: Id)
    | Continue(call: nat, db: Db)

  /** The next step of one call. */
  function Advance(s: System, c: Call, db: Db): (System, Call) {
    match c
    case Checked(id, snap, to, reason, operator) =>
      (s, Saving(id, Moved(snap, to, reason, operator, s.now), Some(LogRow(id, operator, snap.status, to, reason, s.now))))
    case Saving(id, row, change) =>
      if db == Refused then (s, Over)
      else (s.(rows := s.rows[id := row]), if db == Ran && change.Some? then Logging(change.value) else Over)
    case Logging(logRow) =>
      if db == Refused then (s, Over) else (s.(logs := s.logs + [logRow.(createdAt := s.now)]), Over)
    case Over => (s, Over)
  }

  function Step(s: System, a: Action): System {
    match a
    case Tick(seconds) => s.(now := s.now + seconds)
    case StartCreate(id, groupId, name, code, schemaName) =>
      if name == "" || code == "" || groupId == "" || CodeTaken(s.rows, code) || id in s.rows then s
      else
        s.(rows := s.rows[id := Fresh(groupId, name, code, "")],
           calls := s.calls + [Saving(id, Fresh(groupId, name, code, schemaName), None)])
    case StartRename(id, name) =>
      if id !in s.rows then s
      else s.(calls := s.calls + [Saving(id, if name == "" then s.rows[id] else s.rows[id].(name := name), None)])
    case StartChange(id, to, reason, operator) =>
      if id !in s.rows || !ValidTransition(s.rows[id].status, to) then s
      else s.(calls := s.calls + [Checked(id, s.rows[id], to, reason, operator)])
    case Continue(i, db) =>
      if i >= |s.calls| then s
      else
        var (t, c) := Advance(s, s.calls[i], db);
        t.(calls := s.calls[i := c])
  }

  function Run(s: System, actions: seq<Action>): System
    decreases |actions|
  {
    if actions == [] then s else Run(Step(s, actions[0]), actions[1..])
  }

  // ---------------------------------------------------------------------------------------------
  // When cancelled is final

  /** The call will write a status other than cancelled to this enterprise's row, unless the database refuses. */
  predicate Revives(c: Call, id: Id) {
    || (c.Checked? && c.id == id && c.to != "cancelled")
    || (c.Saving? && c.id == id && c.row.status != "cancelled")
  }

  ghost predicate Settled(s: System, id: Id) {
    && id in s.rows && s.rows[id].status == "cancelled"
    && forall i :: 0 <= i < |s.calls| ==> !Revives(s.calls[i], id)
  }

  lemma CancelledAdmitsNothing(to: string)
    ensures !ValidTransition("cancelled", to)
  {}

  lemma StepKeepsSettled(s: System, a: Action, id: Id)
    requires Settled(s, id)
    ensures Settled(Step(s, a), id)
  {
    if a.StartChange? { CancelledAdmitsNothing(a.to); }
    hide ValidTransition, CodeTaken;
    var t := Step(s, a);
    forall i | 0 <= i < |t.calls| ensures !Revives(t.calls[i], id) {
      if i < |s.calls| { assert !Revives(s.calls[i], id); }
    }
  }

  lemma {:induction false} RunKeepsSettled(s: System, actions: seq<Action>, id: Id)
    requires Settled(s, id)
    ensures Settled(Run(s, actions), id)
    decreases |actions|
  {
    hide Settled;
    if actions != [] {
      StepKeepsSettled(s, actions[0], id);
      RunKeepsSettled(Step(s, actions[0]), actions[1..], id);
    }
  }

  predicate IsCancelled(s: System, id: Id) {
    id in s.rows && s.rows[id].status == "cancelled"
  }

  /** A cancelled enterprise stays cancelled however the run goes on exactly when no call in progress still holds a row
      of it that is not cancelled, or a target status other than cancelled. */
  lemma CancelledStaysIff(s: System, id: Id)
    requires IsCancelled(s, id)
    ensures (forall actions :: IsCancelled(Run(s, actions), id))
       <==> forall i :: 0 <= i < |s.calls| ==> !Revives(s.calls[i], id)
  {
    if forall i :: 0 <= i < |s.calls| ==> !Revives(s.calls[i], id) {
      forall actions ensures IsCancelled(Run(s, actions), id) { RunKeepsSettled(s, actions, id); }
    } else {
      var i :| 0 <= i < |s.calls| && Revives(s.calls[i], id);
      var actions := if s.calls[i].Checked? then [Continue(i, Ran), Continue(i, Ran)] else [Continue(i, Ran)];
      PendingWriteRevives(s, i, id);
      assert !IsCancelled(Run(s, actions), id);
    }
  }

  lemma PendingWriteRevives(s: System, i: nat, id: Id)
    requires i < |s.calls| && Revives(s.calls[i], id)
    ensures var actions := if s.calls[i].Checked? then [Continue(i, Ran), Continue(i, Ran)] else [Continue(i, Ran)];
            !IsCancelled(Run(s, actions), id)
  {
    var go := Continue(i, Ran);
    var t := Step(s, go);
    assert [go][1..] == [] && [go, go][1..] == [go];
    assert Run(t, []) == t && Run(s, [go]) == Run(t, []);
    if s.calls[i].Checked? {
      var u := Step(t, go);
      assert Run(u, []) == u && Run(t, [go]) == Run(u, []);
      assert Run(s, [go, go]) == Run(t, [go]);
      assert u.rows[id].status == s.calls[i].to;
    } else {
      assert t.rows[id].status == s.calls[i].row.status;
    }
  }

  /** Such a call can be in progress: of two changes that overlap, the one that loaded the row before the cancellation
      makes the enterprise active again after it. */
  lemma OverlapRevives()
    ensures var s := Run(System(0, map[], [], []),
                         [StartCreate("e", "g", "n", "c", "s"), StartChange("e", "active", "", "op"),
                          StartChange("e", "cancelled", "", "op"), Continue(2, Ran), Continue(2, Ran)]);
            IsCancelled(s, "e") && !IsCancelled(Run(s, [Continue(1, Ran), Continue(1, Ran)]), "e")
  {
    var start := System(0, map[], [], []);
    var row := Fresh("g", "n", "c", "");
    var s1 := Step(start, StartCreate("e", "g", "n", "c", "s"));
    assert s1.rows == map["e" := row] && |s1.calls| == 1;
    var s2 := Step(s1, StartChange("e", "active", "", "op"));
    assert s2.rows == s1.rows && s2.calls == s1.calls + [Checked("e", row, "active", "", "op")];
    var s3 := Step(s2, StartChange("e", "cancelled", "", "op"));
    assert s3.rows == s1.rows && s3.calls == s2.calls + [Checked("e", row, "cancelled", "", "op")];
    var s4 := Step(s3, Continue(2, Ran));
    var s5 := Step(s4, Continue(2, Ran));
    assert IsCancelled(s5, "e") && s5.calls[1] == Checked("e", row, "active", "", "op");
    RunFive(start, StartCreate("e", "g", "n", "c", "s"), StartChange("e", "active", "", "op"),
            StartChange("e", "cancelled", "", "op"), Continue(2, Ran), Continue(2, Ran));
    PendingWriteRevives(s5, 1, "e");
  }

  lemma RunFive(s: System, a: Action, b: Action, c: Action, d: Action, e: Action)
    ensures Run(s, [a, b, c, d, e]) == Step(Step(Step(Step(Step(s, a), b), c), d), e)
  {
    hide Step;
    var s1 := Step(s, a);
    var s2 := Step(s1, b);
    var s3 := Step(s2, c);
    var s4 := Step(s3, d);
    assert [a, b, c, d, e][1..] == [b, c, d, e] && [b, c, d, e][1..] == [c, d, e] && [c, d, e][1..] == [d, e]
        && [d, e][1..] == [e] && [e][1..] == [];
    assert Run(s3, [d, e]) == Run(s4, [e]);
    assert Run(s1, [b, c, d, e]) == Run(s2, [c, d, e]);
  }

  // ---------------------------------------------------------------------------------------------
  // Calls that nothing interrupts

  /** How the statements of an uninterrupted change of status are answered. */
  function Answers(writes: Writes): (Db, Db) {
    match writes
    case Stored => (Ran, Ran)
    case UpdateFailed => (Refused, Ran)
    case LogFailed => (Ran, Refused)
  }

  /** From any system without calls, the steps of one change of status do what the call does as a whole. */
  lemma UndisturbedChange(s: System, id: Id, to: string, reason: string, operator: Id, delay: nat, writes: Writes)
    requires s.calls == []
    ensures var (save, log) := Answers(writes);
            var t := Run(s, [StartChange(id, to, reason, operator), Continue(0, Ran), Continue(0, save), Tick(delay),
                             Continue(0, log)]);
            Store(t.rows, t.logs) == Apply(Store(s.rows, s.logs), ChangeStatus(id, to, reason, operator, s.now, delay, writes))
  {
    var (save, log) := Answers(writes);
    RunFive(s, StartChange(id, to, reason, operator), Continue(0, Ran), Continue(0, save), Tick(delay), Continue(0, log));
    hide Moved, ValidTransition, Run;
    var s1 := Step(s, StartChange(id, to, reason, operator));
    if id in s.rows && ValidTransition(s.rows[id].status, to) {
      assert s1.calls == [Checked(id, s.rows[id], to, reason, operator)];
    } else {
      assert s1 == s;
    }
  }

  /** So do the steps of one creation. */
  lemma UndisturbedCreate(s: System, id: Id, groupId: string, name: string, code: string, schemaName: string, saved: bool, ready: bool)
    requires s.calls == []
    ensures var t := Step(Step(s, StartCreate(id, groupId, name, code, schemaName)), Continue(0, if saved then Ran else Refused));
            Store(t.rows, t.logs) == Apply(Store(s.rows, s.logs), Create(id, groupId, name, code, schemaName, Setup(saved, ready)))
  {}

  /** A log row is only ever inserted for a change that the transition table permits, whatever overlaps. */
  ghost predicate Permitted(s: System) {
    && (forall k :: 0 <= k < |s.logs| ==> ValidTransition(s.logs[k].from, s.logs[k].to))
    && (forall i :: 0 <= i < |s.calls| ==>
          match s.calls[i]
          case Checked(_, snap, to, _, _) => ValidTransition(snap.status, to)
          case Saving(_, _, Some(row)) => ValidTransition(row.from, row.to)
          case Logging(row) => ValidTransition(row.from, row.to)
          case _ => true)
  }

  lemma {:induction false} LogsStayPermitted(s: System, actions: seq<Action>)
    requires Permitted(s)
    ensures Permitted(Run(s, actions))
    decreases |actions|
  {
    hide ValidTransition, Moved, CodeTaken;
    if actions != [] {
      assert Permitted(Step(s, actions[0]));
      LogsStayPermitted(Step(s, actions[0]), actions[1..]);
    }
  }
}
