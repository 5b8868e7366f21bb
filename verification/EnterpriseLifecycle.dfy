/**
The enterprise lifecycle: status changes along a fixed table of transitions, and the log of those changes. A run is a
sequence of calls that do not overlap; any of their writes may fail. A log row's time is read when the row is inserted,
after the reading that the record keeps.
*/
module EnterpriseLifecycle {
  import opened Common

  type Id = string

  const TRANSITIONS: map<string, seq<string>> := map[
    "trial" := ["active", "expired", "cancelled"],
    "active" := ["suspended", "frozen", "expired", "cancelled"],
    "suspended" := ["active", "frozen", "cancelled"],
    "frozen" := ["active", "cancelled"],
    "expired" := ["active", "cancelled"],
    "cancelled" := []
  ]

  predicate ValidTransition(from: string, to: string) {
    from in TRANSITIONS && to in TRANSITIONS[from]
  }

  datatype Enterprise = Enterprise(groupId: string, name: string, code: string, schemaName: string,
                                   status: string, statusReason: string,
                                   statusChangedAt: Option<int>, statusChangedBy: Option<Id>,
                                   suspendedAt: Option<int>, frozenAt: Option<int>,
                                   subscribedAt: Option<int>, expiresAt: Option<int>)

  datatype LogRow = LogRow(enterpriseId: Id, operatorId: Id, from: string, to: string, reason: string, createdAt: int)

  datatype Store = Store(rows: map<Id, Enterprise>, logs: seq<LogRow>)

  /** Whether the writes of a status change succeed: all of them, not even the first, or the first without the log. */
  datatype Writes = Stored | UpdateFailed | LogFailed

  /** What follows the insertion of an enterprise: saving the name of its schema, a failure of which goes unnoticed, and
      creating and migrating the schema. */
  datatype Setup = Setup(nameSaved: bool, schemaReady: bool)

  /** `at` is the reading of the clock that a status change keeps, and `delay` how much later its log row is inserted. */
  datatype Event =
    | Create(id: Id, groupId: string, name: string, code: string, schemaName: string, setup: Setup)
    | ChangeStatus(id: Id, to: string, reason: string, operator: Id, at: int, delay: nat, writes: Writes)

  function Fresh(groupId: string, name: string, code: string, schemaName: string): Enterprise {
    Enterprise(groupId, name, code, schemaName, "trial", "", None, None, None, None, None, None)
  }

  predicate CodeTaken(rows: map<Id, Enterprise>, code: string) {
    exists id :: id in rows && rows[id].code == code
  }

  /** The record after a status change: the first subscription and the first expiry are kept, suspensions and freezes
      are overwritten. */
  function Moved(e: Enterprise, to: string, reason: string, operator: Id, at: int): Enterprise {
    var f := e.(status := to, statusReason := reason, statusChangedAt := Some(at), statusChangedBy := Some(operator));
    if to == "active" then (if f.subscribedAt == None then f.(subscribedAt := Some(at)) else f)
    else if to == "suspended" then f.(suspendedAt := Some(at))
    else if to == "frozen" then f.(frozenAt := Some(at))
    else if to == "expired" then (if f.expiresAt == None then f.(expiresAt := Some(at)) else f)
    else f
  }

  function Apply(st: Store, e: Event): Store {
    match e
    case Create(id, groupId, name, code, schemaName, setup) =>
      if name == "" || code == "" || groupId == "" || CodeTaken(st.rows, code) || id in st.rows then st
      else st.(rows := st.rows[id := Fresh(groupId, name, code, if setup.nameSaved then schemaName else "")])
    case ChangeStatus(id, to, reason, operator, at, delay, writes) =>
      if id !in st.rows || !ValidTransition(st.rows[id].status, to) || writes == UpdateFailed then st
      else
        var moved := st.rows[id := Moved(st.rows[id], to, reason, operator, at)];
        if writes == LogFailed then st.(rows := moved)
        else Store(moved, st.logs + [LogRow(id, operator, st.rows[id].status, to, reason, at + delay)])
  }

  function After(events: seq<Event>): Store
    decreases |events|
  {
    if events == [] then Store(map[], []) else Apply(After(events[..|events| - 1]), events[|events| - 1])
  }

  // ---------------------------------------------------------------------------------------------
  // The changes of a run

  /** A stored change of status: the reading it kept, and when its log row was to be inserted. */
  datatype Change = Change(from: string, to: string, reason: string, operatorId: Id, at: int, createdAt: int)

  /** The event stores a change of this enterprise's status. */
  predicate Saves(st: Store, e: Event, id: Id) {
    && e.ChangeStatus? && e.id == id && id in st.rows
    && ValidTransition(st.rows[id].status, e.to) && e.writes != UpdateFailed
  }

  /** The event stores a change whose log row is not written. */
  predicate LosesLog(st: Store, e: Event, id: Id) {
    Saves(st, e, id) && e.writes == LogFailed
  }

  function ChangeMade(st: Store, e: Event, id: Id): Change
    requires Saves(st, e, id)
  {
    Change(st.rows[id].status, e.to, e.reason, e.operator, e.at, e.at + e.delay)
  }

  /** The stored changes of one enterprise, oldest first, whether or not they were logged. */
  function ChangesOf(events: seq<Event>, id: Id): seq<Change>
    decreases |events|
  {
    if events == [] then []
    else
      var front, last := events[..|events| - 1], events[|events| - 1];
      ChangesOf(front, id) + if Saves(After(front), last, id) then [ChangeMade(After(front), last, id)] else []
  }

  function RowOf(c: Change, id: Id): LogRow {
    LogRow(id, c.operatorId, c.from, c.to, c.reason, c.createdAt)
  }

  function RowsOf(changes: seq<Change>, id: Id): (rows: seq<LogRow>)
    ensures |rows| == |changes| && forall k :: 0 <= k < |changes| ==> rows[k] == RowOf(changes[k], id)
  {
    seq(|changes|, k requires 0 <= k < |changes| => RowOf(changes[k], id))
  }

  /** The log rows of one enterprise, oldest first. */
  function LogOf(logs: seq<LogRow>, id: Id): seq<LogRow> {
    if logs == [] then []
    else LogOf(logs[..|logs| - 1], id) + if logs[|logs| - 1].enterpriseId == id then [logs[|logs| - 1]] else []
  }

  lemma LogAppend(logs: seq<LogRow>, row: LogRow, id: Id)
    ensures LogOf(logs + [row], id) == LogOf(logs, id) + if row.enterpriseId == id then [row] else []
  {
    assert (logs + [row])[..|logs|] == logs;
  }

  /** How one event extends the log of one enterprise. */
  lemma LogStep(st: Store, e: Event, id: Id)
    ensures LogOf(Apply(st, e).logs, id)
         == LogOf(st.logs, id) + if Saves(st, e, id) && e.writes == Stored then [RowOf(ChangeMade(st, e, id), id)] else []
  {
    hide LogOf, Moved, ValidTransition, CodeTaken;
    var after := Apply(st, e);
    if |after.logs| > |st.logs| { LogAppend(st.logs, after.logs[|st.logs|], id); }
    assert LogOf(st.logs, id) + [] == LogOf(st.logs, id);
  }

  // ---------------------------------------------------------------------------------------------
  // The record against the changes

  /** An unbroken walk through the transition table from trial to `status`. */
  ghost predicate IsPath(log: seq<LogRow>, status: string) {
    && (forall k :: 0 <= k < |log| ==> ValidTransition(log[k].from, log[k].to))
    && (forall k :: 0 < k < |log| ==> log[k].from == log[k - 1].to)
    && (if log == [] then status == "trial" else log[0].from == "trial" && log[|log| - 1].to == status)
  }

  /** `time` is the reading kept by the first change to the status, if there is one. */
  ghost predicate FirstEntry(changes: seq<Change>, status: string, time: Option<int>) {
    match time
    case None => forall k :: 0 <= k < |changes| ==> changes[k].to != status
    case Some(at) =>
      exists k :: 0 <= k < |changes| && changes[k].to == status && changes[k].at == at
                  && forall j :: 0 <= j < k ==> changes[j].to != status
  }

  /** `time` is the reading kept by the last change to the status, if there is one. */
  ghost predicate LastEntry(changes: seq<Change>, status: string, time: Option<int>) {
    match time
    case None => forall k :: 0 <= k < |changes| ==> changes[k].to != status
    case Some(at) =>
      exists k :: 0 <= k < |changes| && changes[k].to == status && changes[k].at == at
                  && forall j :: k < j < |changes| ==> changes[j].to != status
  }

  /** The record is what the changes make of it. */
  ghost predicate Replays(e: Enterprise, changes: seq<Change>, id: Id) {
    && IsPath(RowsOf(changes, id), e.status)
    && FirstEntry(changes, "active", e.subscribedAt) && FirstEntry(changes, "expired", e.expiresAt)
    && LastEntry(changes, "suspended", e.suspendedAt) && LastEntry(changes, "frozen", e.frozenAt)
    && (changes == [] ==> e.statusChangedAt == None && e.statusChangedBy == None)
    && (changes != [] ==>
          var last := changes[|changes| - 1];
          e.statusChangedAt == Some(last.at) && e.statusChangedBy == Some(last.operatorId) && e.statusReason == last.reason)
  }

  lemma PathAppend(log: seq<LogRow>, status: string, row: LogRow)
    requires IsPath(log, status) && row.from == status && ValidTransition(status, row.to)
    ensures IsPath(log + [row], row.to)
  {
    hide ValidTransition;
  }

  lemma FirstEntryAppend(changes: seq<Change>, status: string, time: Option<int>, c: Change)
    requires FirstEntry(changes, status, time)
    ensures FirstEntry(changes + [c], status, if time == None && c.to == status then Some(c.at) else time)
  {
    var longer := changes + [c];
    if time.Some? {
      var k :| 0 <= k < |changes| && changes[k].to == status && changes[k].at == time.value
               && forall j :: 0 <= j < k ==> changes[j].to != status;
      assert longer[k] == changes[k];
    } else {
      assert longer[|changes|] == c;
    }
  }

  lemma LastEntryAppend(changes: seq<Change>, status: string, time: Option<int>, c: Change)
    requires LastEntry(changes, status, time)
    ensures LastEntry(changes + [c], status, if c.to == status then Some(c.at) else time)
  {
    var longer := changes + [c];
    assert longer[|changes|] == c;
    if time.Some? && c.to != status {
      var k :| 0 <= k < |changes| && changes[k].to == status && changes[k].at == time.value
               && forall j :: k < j < |changes| ==> changes[j].to != status;
      assert longer[k] == changes[k];
    }
  }

  lemma MoveReplays(e: Enterprise, changes: seq<Change>, c: Change, id: Id)
    requires Replays(e, changes, id) && c.from == e.status && ValidTransition(e.status, c.to)
    ensures Replays(Moved(e, c.to, c.reason, c.operatorId, c.at), changes + [c], id)
  {
    hide IsPath, FirstEntry, LastEntry, ValidTransition, RowsOf;
    PathAppend(RowsOf(changes, id), e.status, RowOf(c, id));
    RowsAppend(changes, c, id);
    FirstEntryAppend(changes, "active", e.subscribedAt, c);
    FirstEntryAppend(changes, "expired", e.expiresAt, c);
    LastEntryAppend(changes, "suspended", e.suspendedAt, c);
    LastEntryAppend(changes, "frozen", e.frozenAt, c);
  }

  lemma RowsAppend(changes: seq<Change>, c: Change, id: Id)
    ensures RowsOf(changes + [c], id) == RowsOf(changes, id) + [RowOf(c, id)]
  {}

  lemma FreshReplays(groupId: string, name: string, code: string, schemaName: string, id: Id)
    ensures Replays(Fresh(groupId, name, code, schemaName), [], id)
  {}

  /** Over every run, whatever writes fail: an enterprise's stored changes are an unbroken walk in the transition table
      from trial to its status, and its record is what they make of it, with each time the reading that one of them
      kept: subscribed and expired from the first, suspended and frozen from the last. */
  lemma {:induction false} RecordReplaysChanges(events: seq<Event>, id: Id)
    ensures id in After(events).rows ==> Replays(After(events).rows[id], ChangesOf(events, id), id)
    ensures id !in After(events).rows ==> ChangesOf(events, id) == []
    decreases |events|
  {
    hide Replays, Moved, ValidTransition, Fresh, CodeTaken;
    if events != [] {
      var front, last := events[..|events| - 1], events[|events| - 1];
      RecordReplaysChanges(front, id);
      var st := After(front);
      if Saves(st, last, id) {
        MoveReplays(st.rows[id], ChangesOf(front, id), ChangeMade(st, last, id), id);
      } else {
        assert ChangesOf(front, id) + [] == ChangesOf(front, id);
        if last.Create? {
          FreshReplays(last.groupId, last.name, last.code, if last.setup.nameSaved then last.schemaName else "", id);
        }
      }
    }
  }

  // ---------------------------------------------------------------------------------------------
  // The log against the changes

  ghost predicate NoLogLost(events: seq<Event>, id: Id) {
    forall k :: 0 <= k < |events| ==> !LosesLog(After(events[..k]), events[k], id)
  }

  lemma NoLogLostStep(events: seq<Event>, id: Id)
    requires events != []
    ensures var n := |events| - 1;
            NoLogLost(events, id) <==> NoLogLost(events[..n], id) && !LosesLog(After(events[..n]), events[n], id)
  {
    hide LosesLog, After;
    var n := |events| - 1;
    assert forall k :: 0 <= k < n ==> events[..n][k] == events[k] && events[..n][..k] == events[..k];
    if NoLogLost(events, id) {
      assert forall k :: 0 <= k < n ==> !LosesLog(After(events[..n][..k]), events[..n][k], id);
    }
    if NoLogLost(events[..n], id) {
      forall k | 0 <= k < n ensures !LosesLog(After(events[..k]), events[k], id) {
        assert !LosesLog(After(events[..n][..k]), events[..n][k], id);
      }
    }
  }

  /** An enterprise's log holds every stored change exactly when no log write of its own failed; what happened to other
      enterprises plays no part. */
  lemma {:induction false} LogHoldsChangesIff(events: seq<Event>, id: Id)
    ensures LogOf(After(events).logs, id) == RowsOf(ChangesOf(events, id), id) <==> NoLogLost(events, id)
    ensures |LogOf(After(events).logs, id)| <= |ChangesOf(events, id)|
    ensures !NoLogLost(events, id) ==> |LogOf(After(events).logs, id)| < |ChangesOf(events, id)|
    decreases |events|
  {
    hide Apply, LogOf, NoLogLost, ChangeMade;
    if events == [] {
      NothingLogged(id);
    } else {
      var front, last := events[..|events| - 1], events[|events| - 1];
      LogHoldsChangesIff(front, id);
      NoLogLostStep(events, id);
      LogStep(After(front), last, id);
      var log, changes := LogOf(After(front).logs, id), ChangesOf(front, id);
      if Saves(After(front), last, id) {
        var c := ChangeMade(After(front), last, id);
        RowsAppend(changes, c, id);
        if last.writes == Stored && log + [RowOf(c, id)] == RowsOf(changes, id) + [RowOf(c, id)] {
          assert log == (log + [RowOf(c, id)])[..|log|];
          assert RowsOf(changes, id) == (RowsOf(changes, id) + [RowOf(c, id)])[..|changes|];
        }
      } else {
        assert changes + [] == changes && log + [] == log;
      }
    }
  }

  lemma NothingLogged(id: Id)
    ensures LogOf(After([]).logs, id) == [] && RowsOf([], id) == [] && NoLogLost([], id)
  {}

  /** The log of a stored enterprise leads from trial to its status. */
  ghost predicate LogLeadsToStatus(st: Store, id: Id) {
    id in st.rows ==> IsPath(LogOf(st.logs, id), st.rows[id].status)
  }

  /** A status change whose log write fails leaves a gap: the log no longer leads to the stored status. */
  lemma FailedLogWriteLeavesGap(st: Store, e: Event, id: Id)
    requires LogLeadsToStatus(st, id) && LosesLog(st, e, id)
    ensures !LogLeadsToStatus(Apply(st, e), id)
  {
    LogStep(st, e, id);
    hide LogOf, IsPath;
    NoSelfTransition(st.rows[id].status, e.to);
    OneStatusPerLog(LogOf(st.logs, id), st.rows[id].status, e.to);
  }

  lemma NoSelfTransition(from: string, to: string)
    requires ValidTransition(from, to)
    ensures from != to
  {}

  lemma OneStatusPerLog(log: seq<LogRow>, status: string, other: string)
    requires IsPath(log, status) && other != status
    ensures !IsPath(log, other)
  {}

  /** Throughout a run an enterprise's log leads to its status exactly when no log write of its own fails. */
  lemma LogLeadsToStatusIff(events: seq<Event>, id: Id)
    ensures (forall k :: 0 <= k <= |events| ==> LogLeadsToStatus(After(events[..k]), id)) <==> NoLogLost(events, id)
  {
    if NoLogLost(events, id) {
      forall k | 0 <= k <= |events| ensures LogLeadsToStatus(After(events[..k]), id) {
        forall j | 0 <= j < k ensures !LosesLog(After(events[..k][..j]), events[..k][j], id) {
          assert events[..k][..j] == events[..j];
        }
        LogHoldsChangesIff(events[..k], id);
        RecordReplaysChanges(events[..k], id);
      }
    } else {
      var k :| 0 <= k < |events| && LosesLog(After(events[..k]), events[k], id);
      assert events[..k + 1][..k] == events[..k];
      hide LogLeadsToStatus, LosesLog, Apply;
      assert After(events[..k + 1]) == Apply(After(events[..k]), events[k]);
      if LogLeadsToStatus(After(events[..k]), id) { FailedLogWriteLeavesGap(After(events[..k]), events[k], id); }
    }
  }

  /** `time` is not later than the insertion of log row k, the first into the status. */
  ghost predicate AtFirstRow(log: seq<LogRow>, status: string, time: int, k: int) {
    0 <= k < |log| && log[k].to == status && time <= log[k].createdAt && forall j :: 0 <= j < k ==> log[j].to != status
  }

  ghost predicate AtLastRow(log: seq<LogRow>, status: string, time: int, k: int) {
    0 <= k < |log| && log[k].to == status && time <= log[k].createdAt && forall j :: k < j < |log| ==> log[j].to != status
  }

  /** A record has a time for a status exactly when its log holds a row into it, and each time is not later than the
      insertion of that row: the first into active and expired, the last into suspended and frozen. */
  ghost predicate TimesAgree(e: Enterprise, log: seq<LogRow>) {
    && (e.subscribedAt.Some? ==> exists k :: AtFirstRow(log, "active", e.subscribedAt.value, k))
    && (e.expiresAt.Some? ==> exists k :: AtFirstRow(log, "expired", e.expiresAt.value, k))
    && (e.suspendedAt.Some? ==> exists k :: AtLastRow(log, "suspended", e.suspendedAt.value, k))
    && (e.frozenAt.Some? ==> exists k :: AtLastRow(log, "frozen", e.frozenAt.value, k))
    && (forall k :: 0 <= k < |log| ==>
          && (log[k].to == "active" ==> e.subscribedAt.Some?) && (log[k].to == "expired" ==> e.expiresAt.Some?)
          && (log[k].to == "suspended" ==> e.suspendedAt.Some?) && (log[k].to == "frozen" ==> e.frozenAt.Some?))
    && (if log == [] then e.statusChangedAt == None
        else e.statusChangedAt.Some? && e.statusChangedAt.value <= log[|log| - 1].createdAt)
  }

  lemma {:induction false} LoggedNoEarlier(events: seq<Event>, id: Id)
    ensures forall k :: 0 <= k < |ChangesOf(events, id)| ==> ChangesOf(events, id)[k].at <= ChangesOf(events, id)[k].createdAt
    decreases |events|
  {
    hide After;
    if events != [] { LoggedNoEarlier(events[..|events| - 1], id); }
  }

  lemma FirstEntryInLog(changes: seq<Change>, id: Id, status: string, time: Option<int>)
    requires FirstEntry(changes, status, time) && forall k :: 0 <= k < |changes| ==> changes[k].at <= changes[k].createdAt
    ensures time.Some? ==> exists k :: AtFirstRow(RowsOf(changes, id), status, time.value, k)
    ensures time == None ==> forall k :: 0 <= k < |changes| ==> RowsOf(changes, id)[k].to != status
  {
    if time.Some? {
      var k :| 0 <= k < |changes| && changes[k].to == status && changes[k].at == time.value
               && forall j :: 0 <= j < k ==> changes[j].to != status;
      assert AtFirstRow(RowsOf(changes, id), status, time.value, k);
    }
  }

  lemma LastEntryInLog(changes: seq<Change>, id: Id, status: string, time: Option<int>)
    requires LastEntry(changes, status, time) && forall k :: 0 <= k < |changes| ==> changes[k].at <= changes[k].createdAt
    ensures time.Some? ==> exists k :: AtLastRow(RowsOf(changes, id), status, time.value, k)
    ensures time == None ==> forall k :: 0 <= k < |changes| ==> RowsOf(changes, id)[k].to != status
  {
    if time.Some? {
      var k :| 0 <= k < |changes| && changes[k].to == status && changes[k].at == time.value
               && forall j :: k < j < |changes| ==> changes[j].to != status;
      assert AtLastRow(RowsOf(changes, id), status, time.value, k);
    }
  }

  /** Without a lost log write of its own, an enterprise's times agree with its log. */
  lemma TimesAgreeWithLog(events: seq<Event>, id: Id)
    requires id in After(events).rows && NoLogLost(events, id)
    ensures TimesAgree(After(events).rows[id], LogOf(After(events).logs, id))
  {
    RecordReplaysChanges(events, id);
    LogHoldsChangesIff(events, id);
    LoggedNoEarlier(events, id);
    hide After, ChangesOf, LogOf, FirstEntry, LastEntry, AtFirstRow, AtLastRow, IsPath;
    var e, changes := After(events).rows[id], ChangesOf(events, id);
    FirstEntryInLog(changes, id, "active", e.subscribedAt);
    FirstEntryInLog(changes, id, "expired", e.expiresAt);
    LastEntryInLog(changes, id, "suspended", e.suspendedAt);
    LastEntryInLog(changes, id, "frozen", e.frozenAt);
  }

  /** Nothing in a log follows the entry to cancelled, and no entry leads back to trial. */
  lemma PathsEndInCancelled(log: seq<LogRow>, status: string, k: nat)
    requires IsPath(log, status) && k < |log|
    ensures log[k].to == "cancelled" ==> k == |log| - 1
    ensures log[k].to != "trial"
  {
    if k + 1 < |log| { assert ValidTransition(log[k + 1].from, log[k + 1].to); }
    assert ValidTransition(log[k].from, log[k].to);
  }

  lemma StepKeepsCancelled(st: Store, e: Event, id: Id)
    requires id in st.rows && st.rows[id].status == "cancelled"
    ensures id in Apply(st, e).rows && Apply(st, e).rows[id] == st.rows[id]
    ensures LogOf(Apply(st, e).logs, id) == LogOf(st.logs, id)
  {
    LogStep(st, e, id);
    hide LogOf;
  }

  /** Whatever writes fail, a cancelled enterprise and its log stay as they are for the rest of a run of calls that do
      not overlap. */
  lemma {:induction false} CancelledIsFinal(events: seq<Event>, more: seq<Event>, id: Id)
    requires id in After(events).rows && After(events).rows[id].status == "cancelled"
    ensures id in After(events + more).rows && After(events + more).rows[id] == After(events).rows[id]
    ensures LogOf(After(events + more).logs, id) == LogOf(After(events).logs, id)
    decreases |more|
  {
    hide Apply, LogOf;
    if more == [] {
      assert events + more == events;
    } else {
      var n := |more| - 1;
      CancelledIsFinal(events, more[..n], id);
      assert (events + more)[..|events + more| - 1] == events + more[..n];
      StepKeepsCancelled(After(events + more[..n]), more[n], id);
    }
  }

  // ---------------------------------------------------------------------------------------------
  // Who an enterprise is

  /** Event k is the creation that stored this enterprise. */
  predicate Creates(events: seq<Event>, k: nat, id: Id)
    requires k < |events|
  {
    events[k].Create? && events[k].id == id && id !in After(events[..k]).rows && id in After(events[..k + 1]).rows
  }

  /** The enterprise's group, name and code are those that the creation asked for. */
  predicate AsAsked(e: Enterprise, asked: Event) {
    asked.Create? && e.groupId == asked.groupId && e.name == asked.name && e.code == asked.code
  }

  lemma CreatedAsAsked(st: Store, e: Event, id: Id)
    requires id in Apply(st, e).rows && id !in st.rows
    ensures e.Create? && e.id == id && AsAsked(Apply(st, e).rows[id], e)
    ensures forall other :: other in st.rows ==> Apply(st, e).rows[other] == st.rows[other] && st.rows[other].code != e.code
  {}

  lemma ApplyKeepsIdentity(st: Store, e: Event, id: Id)
    requires id in st.rows
    ensures id in Apply(st, e).rows
    ensures Apply(st, e).rows[id].groupId == st.rows[id].groupId && Apply(st, e).rows[id].name == st.rows[id].name
    ensures Apply(st, e).rows[id].code == st.rows[id].code
  {
    hide ValidTransition;
  }

  /** Over every run, a stored enterprise has the group, name and code of the creation that stored it. */
  lemma {:induction false} IdentityIsAsAsked(events: seq<Event>, id: Id) returns (k: nat)
    requires id in After(events).rows
    ensures k < |events| && Creates(events, k, id) && AsAsked(After(events).rows[id], events[k])
    decreases |events|
  {
    hide Apply;
    var n := |events| - 1;
    var front := events[..n];
    assert events[..n + 1] == events;
    if id in After(front).rows {
      k := IdentityIsAsAsked(front, id);
      assert front[..k] == events[..k] && front[..k + 1] == events[..k + 1];
      ApplyKeepsIdentity(After(front), events[n], id);
    } else {
      k := n;
      CreatedAsAsked(After(front), events[n], id);
    }
  }

  ghost predicate CodesDiffer(rows: map<Id, Enterprise>) {
    forall a, b :: a in rows && b in rows && a != b ==> rows[a].code != rows[b].code
  }

  lemma ApplyKeepsCodes(st: Store, e: Event)
    requires CodesDiffer(st.rows)
    ensures CodesDiffer(Apply(st, e).rows)
  {
    hide Apply;
    var after := Apply(st, e).rows;
    forall a, b | a in after && b in after && a != b ensures after[a].code != after[b].code {
      if a in st.rows { ApplyKeepsIdentity(st, e, a); } else { CreatedAsAsked(st, e, a); }
      if b in st.rows { ApplyKeepsIdentity(st, e, b); } else { CreatedAsAsked(st, e, b); }
    }
  }

  /** Over every run, no two stored enterprises have the same code. */
  lemma {:induction false} CodesStayDifferent(events: seq<Event>)
    ensures CodesDiffer(After(events).rows)
    decreases |events|
  {
    hide Apply;
    if events != [] {
      CodesStayDifferent(events[..|events| - 1]);
      ApplyKeepsCodes(After(events[..|events| - 1]), events[|events| - 1]);
    }
  }

  /** The transition table, said by where a status is entered from. */
  lemma TransitionsByTarget(from: string, to: string)
    ensures ValidTransition(from, to) <==>
              || (to == "active" && from in {"trial", "suspended", "frozen", "expired"})
              || (to == "suspended" && from == "active")
              || (to == "frozen" && from in {"active", "suspended"})
              || (to == "expired" && from in {"trial", "active"})
              || (to == "cancelled" && from in {"trial", "active", "suspended", "frozen", "expired"})
  {}

  // ---------------------------------------------------------------------------------------------
  // The service

  datatype Error = Validation(field: string) | NotFound | DuplicateEntry | InvalidTransition | Internal

  class EnterpriseService {
    var rows: map<Id, Enterprise>
    var logs: seq<LogRow>

    constructor ()
      ensures Snapshot() == After([])
    {
      rows := map[];
      logs := [];
    }

    function Snapshot(): Store
      reads this
    {
      Store(rows, logs)
    }

    /** When the schema cannot be set up, the caller is told of an error although the enterprise is stored. */
    method Create(id: Id, groupId: string, name: string, code: string, schemaName: string, setup: Setup)
      returns (result: Result<Enterprise, Error>)
      modifies this
      ensures Snapshot() == Apply(old(Snapshot()), Event.Create(id, groupId, name, code, schemaName, setup))
      ensures result.Ok? <==> name != "" && code != "" && groupId != "" && !CodeTaken(old(rows), code) && id !in old(rows)
                              && setup.schemaReady
      ensures result.Ok? ==>
                && result.value.groupId == groupId && result.value.name == name && result.value.code == code
                && result.value.schemaName == schemaName && result.value.status == "trial"
                && id in rows && rows[id] == result.value.(schemaName := if setup.nameSaved then schemaName else "")
                && rows == old(rows)[id := rows[id]]
      ensures result.Err? ==>
                result.error == if name == "" then Validation("name") else if code == "" then Validation("code")
                                else if groupId == "" then Validation("group_id")
                                else if exists other :: other in old(rows) && old(rows)[other].code == code then DuplicateEntry
                                else Internal
    {
      if name == "" { return Err(Validation("name")); }
      if code == "" { return Err(Validation("code")); }
      if groupId == "" { return Err(Validation("group_id")); }
      if CodeTaken(rows, code) { return Err(DuplicateEntry); }
      if id in rows { return Err(Internal); }
      var enterprise := Enterprise(groupId, name, code, "", "trial", "", None, None, None, None, None, None);
      rows := rows[id := enterprise];
      enterprise := enterprise.(schemaName := schemaName);
      if setup.nameSaved { rows := rows[id := enterprise]; }
      if !setup.schemaReady { return Err(Internal); }
      return Ok(enterprise);
    }

    /** An argument that is no UUID is None. */
    method ChangeStatus(id: Option<Id>, newStatus: string, reason: string, operator: Option<Id>, now: int, delay: nat,
                        writes: Writes)
      returns (result: Result<Enterprise, Error>)
      modifies this
      ensures id.Some? && operator.Some? ==>
                Snapshot() == Apply(old(Snapshot()),
                                    Event.ChangeStatus(id.value, newStatus, reason, operator.value, now, delay, writes))
      ensures id.None? || operator.None? ==> Snapshot() == old(Snapshot())
      ensures result.Ok? <==> id.Some? && operator.Some? && id.value in old(rows)
                              && ValidTransition(old(rows)[id.value].status, newStatus) && writes == Stored
      ensures result.Ok? ==>
                && id.value in rows && rows[id.value] == result.value && result.value.status == newStatus
                && result.value.statusReason == reason && result.value.statusChangedAt == Some(now)
                && result.value.statusChangedBy == Some(operator.value)
                && logs == old(logs) + [LogRow(id.value, operator.value, old(rows)[id.value].status, newStatus, reason, now + delay)]
      ensures result.Err? ==>
                result.error == if id.None? then Validation("enterprise_id") else if operator.None? then Validation("operator_id")
                                else if id.value !in old(rows) then NotFound
                                else if !ValidTransition(old(rows)[id.value].status, newStatus) then InvalidTransition
                                else Internal
    {
      if id.None? { return Err(Validation("enterprise_id")); }
      if operator.None? { return Err(Validation("operator_id")); }
      if id.value !in rows { return Err(NotFound); }
      var enterprise := rows[id.value];
      if !ValidTransition(enterprise.status, newStatus) { return Err(InvalidTransition); }
      var fromStatus := enterprise.status;
      enterprise := enterprise.(status := newStatus, statusReason := reason, statusChangedAt := Some(now),
                                statusChangedBy := Some(operator.value));
      if newStatus == "active" {
        if enterprise.subscribedAt == None { enterprise := enterprise.(subscribedAt := Some(now)); }
      } else if newStatus == "suspended" {
        enterprise := enterprise.(suspendedAt := Some(now));
      } else if newStatus == "frozen" {
        enterprise := enterprise.(frozenAt := Some(now));
      } else if newStatus == "expired" {
        if enterprise.expiresAt == None { enterprise := enterprise.(expiresAt := Some(now)); }
      }
      if writes == UpdateFailed { return Err(Internal); }
      rows := rows[id.value := enterprise];
      if writes == LogFailed { return Err(Internal); }
      logs := logs + [LogRow(id.value, operator.value, fromStatus, newStatus, reason, now + delay)];
      return Ok(enterprise);
    }
  }
}
