/**
Subscriptions: creation, renewal, the scheduler's grace period pass, and changes of plan.

A run is a sequence of events on a store whose statements do not fail. `After` is the specification of a run; the
service methods are proved to do one event each.
*/
module Billing {
  import opened Common
  import opened Calendar
  import opened Proration

  const GRACE_SECONDS: int := 7 * 24 * 3600

  datatype Record = Record(subId: Id, amount: real, kind: string, status: string,
                           periodStart: Option<Moment>, periodEnd: Option<Moment>, dueDate: Option<Moment>)

  datatype Store = Store(plans: map<Id, Plan>, subs: map<Id, Sub>, records: seq<Record>)

  /** The two clock readings that a pass takes while it looks at one subscription. */
  datatype Readings = Readings(first: int, second: int)
  type Clock = Id -> Readings

  /** A change of plan reads the clock twice: for the quote and for the record. */
  datatype Event =
    | Subscribed(id: Id, enterprise: Id, planId: Id, cycle: string, at: Moment)
    | Renewed(id: Id, at: Moment)
    | Passed(clock: Clock)
    | Upgraded(id: Id, planId: Id, quotedAt: int, at: Moment)
    | Downgraded(id: Id, planId: Id, quotedAt: int, at: Moment)

  // ---------------------------------------------------------------------------------------------
  // Single rows

  /** What `SaveSubscription` writes: every column but the plan and the enterprise. */
  function Saved(stored: Sub, sub: Sub): Sub {
    stored.(status := sub.status, startAt := sub.startAt, endAt := sub.endAt, autoRenew := sub.autoRenew,
            periodStart := sub.periodStart, periodEnd := sub.periodEnd, graceEnd := sub.graceEnd, cycle := sub.cycle)
  }

  /** Saving a loaded copy, whatever the row has become meanwhile. */
  function SavedBack(subs: map<Id, Sub>, id: Id, sub: Sub): map<Id, Sub> {
    if id in subs then subs[id := Saved(subs[id], sub)] else subs
  }

  function PeriodEnd(start: Moment, cycle: string): Moment {
    if cycle == "yearly" then AddDateTo(start, 1, 0) else AddDateTo(start, 0, 1)
  }

  function NewSub(enterprise: Id, planId: Id, cycle: string, at: Moment): Sub {
    var end := PeriodEnd(at, cycle);
    Sub(enterprise, planId, "active", Some(At(at)), Some(At(end)), true, Some(At(at)), Some(At(end)), None,
        if cycle == "" then "monthly" else cycle)
  }

  function RenewalStart(sub: Sub, at: Moment): Moment {
    match sub.periodEnd
    case Some(At(end)) => end
    case _ => at
  }

  function RenewedSub(sub: Sub, at: Moment): Sub {
    var start := RenewalStart(sub, at);
    sub.(periodStart := Some(At(start)), periodEnd := Some(At(PeriodEnd(start, sub.cycle))), status := "active",
         graceEnd := None)
  }

  function Charge(id: Id, plan: Plan, cycle: string, start: Moment): Record {
    Record(id, EffectivePrice(plan, cycle), "charge", "pending", Some(start), Some(PeriodEnd(start, cycle)), Some(start))
  }

  function UpgradeRecord(id: Id, sub: Sub, was: Plan, becomes: Plan, quotedAt: int, at: Moment): Record {
    Record(id, CalculateProration(sub, was, becomes, quotedAt), "upgrade_charge", "pending", Some(at), None, None)
  }

  function DowngradeRecord(id: Id, sub: Sub, was: Plan, becomes: Plan, quotedAt: int, at: Moment): Record {
    var quote := CalculateProration(sub, was, becomes, quotedAt);
    Record(id, Abs(quote), if quote > 0.0 then "downgrade_charge" else "downgrade_credit", "pending", Some(at), None, None)
  }

  /** The amount a record stands for: credits count against the charge. */
  function Signed(record: Record): real {
    if record.kind == "downgrade_credit" then -record.amount else record.amount
  }

  /** A downgrade record never holds a negative amount, and with its kind it encodes exactly the signed quote. */
  lemma DowngradeEncodesQuote(id: Id, sub: Sub, was: Plan, becomes: Plan, quotedAt: int, at: Moment)
    ensures var record := DowngradeRecord(id, sub, was, becomes, quotedAt, at);
            && record.amount >= 0.0
            && Signed(record) == CalculateProration(sub, was, becomes, quotedAt)
            && (record.kind == "downgrade_charge"
                <==> Price(sub, becomes) > Price(sub, was) && (Timed(sub) ==> quotedAt < sub.periodEnd.value.moment.utc))
  {
    QuoteSign(sub, was, becomes, quotedAt);
  }

  // ---------------------------------------------------------------------------------------------
  // The grace period pass

  predicate Billable(sub: Sub) {
    sub.status == "active" || sub.status == "past_due"
  }

  function GraceStep(sub: Sub, r: Readings): Sub {
    match sub.periodEnd
    case Some(At(end)) =>
      if r.first > end.utc && sub.status == "active" then
        sub.(graceEnd := Some(At(end.(utc := end.utc + GRACE_SECONDS))), status := "past_due")
      else if sub.status == "past_due" then
        (match sub.graceEnd
         case Some(At(grace)) => if r.second > grace.utc then sub.(status := "suspended") else sub
         case _ => sub)
      else sub
    case _ => sub
  }

  /** What the pass does with one of its copies, whatever the row has become meanwhile. */
  function PassSaved(subs: map<Id, Sub>, id: Id, loaded: Sub, r: Readings): map<Id, Sub> {
    if GraceStep(loaded, r).status == loaded.status then subs else SavedBack(subs, id, GraceStep(loaded, r))
  }

  /** The pass, done so far for the subscriptions in `done`. */
  function PassOver(subs: map<Id, Sub>, clock: Clock, done: set<Id>): map<Id, Sub> {
    map id | id in subs :: if id in done && Billable(subs[id]) then GraceStep(subs[id], clock(id)) else subs[id]
  }

  function Pass(subs: map<Id, Sub>, clock: Clock): map<Id, Sub> {
    PassOver(subs, clock, subs.Keys)
  }

  function Changed(before: map<Id, Sub>, after: map<Id, Sub>): set<Id> {
    set id | id in before && id in after && before[id].status != after[id].status
  }

  lemma PassOneMore(subs: map<Id, Sub>, clock: Clock, done: set<Id>, id: Id)
    requires id in subs && id !in done && Billable(subs[id])
    ensures var midway := PassOver(subs, clock, done);
            && midway[id] == subs[id]
            && PassOver(subs, clock, done + {id}) == midway[id := GraceStep(subs[id], clock(id))]
            && |Changed(subs, PassOver(subs, clock, done + {id}))|
                 == |Changed(subs, midway)| + if GraceStep(subs[id], clock(id)).status != subs[id].status then 1 else 0
  {
    hide GraceStep;
    var midway := PassOver(subs, clock, done);
    assert PassOver(subs, clock, done + {id}) == midway[id := GraceStep(subs[id], clock(id))];
    ChangedOneMore(subs, midway, id, GraceStep(subs[id], clock(id)));
  }

  lemma ChangedOneMore(before: map<Id, Sub>, after: map<Id, Sub>, id: Id, sub: Sub)
    requires id in before && id in after && after[id] == before[id]
    ensures |Changed(before, after[id := sub])| == |Changed(before, after)| + if sub.status != before[id].status then 1 else 0
  {
    assert Changed(before, after[id := sub])
        == Changed(before, after) + if sub.status != before[id].status then {id} else {};
  }

  /** A copy that is up to date is saved as the row. */
  lemma CopyStillStands(subs: map<Id, Sub>, id: Id, loaded: Sub, r: Readings)
    requires id in subs && subs[id] == loaded
    ensures PassSaved(subs, id, loaded, r) == subs[id := GraceStep(loaded, r)]
  {}

  lemma PassDone(subs: map<Id, Sub>, clock: Clock, done: set<Id>)
    requires forall id :: id in subs && Billable(subs[id]) ==> id in done
    ensures PassOver(subs, clock, done) == Pass(subs, clock)
  {}

  /** Two passes at one instant settle every subscription: a third changes nothing and counts nothing. */
  lemma TwoPassesSettle(subs: map<Id, Sub>, now: int)
    ensures var clock: Clock := (id: Id) => Readings(now, now);
            var twice := Pass(Pass(subs, clock), clock);
            Pass(twice, clock) == twice && Changed(twice, Pass(twice, clock)) == {}
  {
    var clock: Clock := (id: Id) => Readings(now, now);
    var twice := Pass(Pass(subs, clock), clock);
    forall id | id in subs ensures Pass(twice, clock)[id] == twice[id] {}
  }

  predicate HasEnd(sub: Sub) {
    sub.periodEnd.Some? && sub.periodEnd.value.At?
  }

  /** One pass is enough exactly when no active subscription is more than the grace period overdue. */
  lemma OnePassSettlesIff(subs: map<Id, Sub>, now: int)
    ensures var clock: Clock := (id: Id) => Readings(now, now);
            Pass(Pass(subs, clock), clock) == Pass(subs, clock)
            <==> forall id :: id in subs && subs[id].status == "active" && HasEnd(subs[id]) ==>
                   now <= subs[id].periodEnd.value.moment.utc + GRACE_SECONDS
  {}

  // ---------------------------------------------------------------------------------------------
  // Runs

  function Apply(st: Store, e: Event): Store {
    match e
    case Subscribed(id, enterprise, planId, cycle, at) =>
      if planId !in st.plans || id in st.subs then st
      else
        st.(subs := st.subs[id := NewSub(enterprise, planId, cycle, at)],
            records := st.records + [Charge(id, st.plans[planId], cycle, at)])
    case Renewed(id, at) =>
      if id !in st.subs || st.subs[id].planId !in st.plans then st
      else
        var sub := st.subs[id];
        st.(subs := st.subs[id := RenewedSub(sub, at)],
            records := st.records + [Charge(id, st.plans[sub.planId], sub.cycle, RenewalStart(sub, at))])
    case Passed(clock) => st.(subs := Pass(st.subs, clock))
    case Upgraded(id, planId, quotedAt, at) =>
      if id !in st.subs || st.subs[id].planId !in st.plans || planId !in st.plans then st
      else st.(records := st.records + [UpgradeRecord(id, st.subs[id], st.plans[st.subs[id].planId], st.plans[planId], quotedAt, at)])
    case Downgraded(id, planId, quotedAt, at) =>
      if id !in st.subs || st.subs[id].planId !in st.plans || planId !in st.plans then st
      else st.(records := st.records + [DowngradeRecord(id, st.subs[id], st.plans[st.subs[id].planId], st.plans[planId], quotedAt, at)])
  }

  function After(plans: map<Id, Plan>, events: seq<Event>): Store
    decreases |events|
  {
    if events == [] then Store(plans, map[], [])
    else Apply(After(plans, events[..|events| - 1]), events[|events| - 1])
  }

  /** Active rows have no grace end; past due and suspended rows have one seven days after the period end. */
  predicate SubOk(sub: Sub) {
    && sub.periodStart.Some? && sub.periodStart.value.At?
    && sub.periodEnd.Some? && sub.periodEnd.value.At?
    && sub.status in ["active", "past_due", "suspended"]
    && (sub.status == "active" ==> sub.graceEnd == None)
    && (sub.status != "active" ==>
          var end := sub.periodEnd.value.moment;
          sub.graceEnd == Some(At(end.(utc := end.utc + 7 * 86400))))
  }

  lemma GraceStepKeeps(sub: Sub, r: Readings)
    requires SubOk(sub)
    ensures SubOk(GraceStep(sub, r))
  {}

  ghost predicate RowsOk(subs: map<Id, Sub>) {
    forall id :: id in subs ==> SubOk(subs[id])
  }

  lemma ApplyKeepsRows(st: Store, e: Event)
    requires RowsOk(st.subs)
    ensures RowsOk(Apply(st, e).subs)
  {
    match e
    case Passed(clock) =>
      forall id | id in st.subs ensures SubOk(Pass(st.subs, clock)[id]) {
        GraceStepKeeps(st.subs[id], clock(id));
      }
    case _ =>
  }

  /** Over every run of subscribing, renewing, passing and changing plan, every stored row is in order. */
  lemma {:induction false} RowsStayInOrder(plans: map<Id, Plan>, events: seq<Event>)
    ensures RowsOk(After(plans, events).subs)
    decreases |events|
  {
    if events != [] {
      RowsStayInOrder(plans, events[..|events| - 1]);
      ApplyKeepsRows(After(plans, events[..|events| - 1]), events[|events| - 1]);
    }
  }

  // ---------------------------------------------------------------------------------------------
  // Why a subscription is past due or suspended

  function RowAt(plans: map<Id, Plan>, events: seq<Event>, k: nat, id: Id): Option<Sub>
    requires k <= |events|
  {
    var subs := After(plans, events[..k]).subs;
    if id in subs then Some(subs[id]) else None
  }

  predicate HasStatus(row: Option<Sub>, status: string, end: Moment) {
    row.Some? && row.value.status == status && row.value.periodEnd == Some(At(end))
  }

  /** Event k is a pass that found the active row overdue and made it past due. */
  predicate FellDue(plans: map<Id, Plan>, events: seq<Event>, k: nat, id: Id, end: Moment)
    requires k < |events|
  {
    && events[k].Passed? && events[k].clock(id).first > end.utc
    && HasStatus(RowAt(plans, events, k, id), "active", end)
    && HasStatus(RowAt(plans, events, k + 1, id), "past_due", end)
  }

  /** Event k is a pass later than the grace end that suspended the past due row. */
  predicate FellSuspended(plans: map<Id, Plan>, events: seq<Event>, k: nat, id: Id, end: Moment)
    requires k < |events|
  {
    && events[k].Passed? && events[k].clock(id).second > end.utc + 7 * 86400
    && HasStatus(RowAt(plans, events, k, id), "past_due", end)
    && HasStatus(RowAt(plans, events, k + 1, id), "suspended", end)
  }

  lemma NoRowsAtStart(plans: map<Id, Plan>, events: seq<Event>, id: Id)
    ensures RowAt(plans, events, 0, id) == None
  {}

  lemma PrefixRows(plans: map<Id, Plan>, events: seq<Event>, n: nat, k: nat, id: Id)
    requires k <= n <= |events|
    ensures RowAt(plans, events[..n], k, id) == RowAt(plans, events, k, id)
  {
    assert events[..n][..k] == events[..k];
  }

  /** How one event can leave a row past due or suspended. */
  lemma StepIntoGrace(st: Store, e: Event, id: Id, end: Moment)
    requires RowsOk(st.subs) && id in Apply(st, e).subs && Apply(st, e).subs[id].periodEnd == Some(At(end))
    ensures var status := Apply(st, e).subs[id].status;
            && (status != "active" ==> id in st.subs && st.subs[id].periodEnd == Some(At(end)))
            && (status == "past_due" ==>
                  || st.subs[id].status == "past_due"
                  || (st.subs[id].status == "active" && e.Passed? && e.clock(id).first > end.utc))
            && (status == "suspended" ==>
                  || st.subs[id].status == "suspended"
                  || (st.subs[id].status == "past_due" && e.Passed? && e.clock(id).second > end.utc + GRACE_SECONDS))
  {
    if id in st.subs { assert SubOk(st.subs[id]); }
  }

  /** The last event on a run, seen from the row it leaves behind. */
  lemma LastEvent(plans: map<Id, Plan>, events: seq<Event>, id: Id, end: Moment)
    requires events != []
    ensures var n := |events| - 1;
            && (HasStatus(RowAt(plans, events, n + 1, id), "past_due", end) ==>
                  HasStatus(RowAt(plans, events, n, id), "past_due", end) || FellDue(plans, events, n, id, end))
            && (HasStatus(RowAt(plans, events, n + 1, id), "suspended", end) ==>
                  HasStatus(RowAt(plans, events, n, id), "suspended", end) || FellSuspended(plans, events, n, id, end))
  {
    var n := |events| - 1;
    assert events[..n + 1] == events;
    var st := After(plans, events[..n]);
    RowsStayInOrder(plans, events[..n]);
    if id in Apply(st, events[n]).subs && Apply(st, events[n]).subs[id].periodEnd == Some(At(end)) {
      StepIntoGrace(st, events[n], id, end);
    }
  }

  lemma {:induction false} PastDueHistory(plans: map<Id, Plan>, events: seq<Event>, id: Id, end: Moment) returns (i: nat)
    requires HasStatus(RowAt(plans, events, |events|, id), "past_due", end)
    ensures i < |events| && FellDue(plans, events, i, id, end)
    ensures forall k :: i < k <= |events| ==> HasStatus(RowAt(plans, events, k, id), "past_due", end)
    decreases |events|
  {
    hide After, Apply, RowAt;
    NoRowsAtStart(plans, events, id);
    assert events[..|events|] == events;
    LastEvent(plans, events, id, end);
    i := |events| - 1;
    if !FellDue(plans, events, i, id, end) {
      var n := i;
      PrefixRows(plans, events, n, n, id);
      i := PastDueHistory(plans, events[..n], id, end);
      PrefixRows(plans, events, n, i, id);
      PrefixRows(plans, events, n, i + 1, id);
      forall k | i < k <= n ensures HasStatus(RowAt(plans, events, k, id), "past_due", end) {
        PrefixRows(plans, events, n, k, id);
      }
    }
  }

  /** A suspended subscription was first made past due by one pass after its period end, stayed past due without a
      renewal, and was then suspended by another pass more than seven days after that same period end. */
  lemma {:induction false} SuspensionHistory(plans: map<Id, Plan>, events: seq<Event>, id: Id, end: Moment) returns (i: nat, j: nat)
    requires HasStatus(RowAt(plans, events, |events|, id), "suspended", end)
    ensures i < j < |events| && FellDue(plans, events, i, id, end) && FellSuspended(plans, events, j, id, end)
    ensures forall k :: i < k <= j ==> HasStatus(RowAt(plans, events, k, id), "past_due", end)
    ensures forall k :: j < k <= |events| ==> HasStatus(RowAt(plans, events, k, id), "suspended", end)
    decreases |events|
  {
    hide After, Apply, RowAt;
    NoRowsAtStart(plans, events, id);
    assert events[..|events|] == events;
    LastEvent(plans, events, id, end);
    var n := |events| - 1;
    PrefixRows(plans, events, n, n, id);
    if FellSuspended(plans, events, n, id, end) {
      j := n;
      i := PastDueHistory(plans, events[..n], id, end);
    } else {
      i, j := SuspensionHistory(plans, events[..n], id, end);
      PrefixRows(plans, events, n, j, id);
      PrefixRows(plans, events, n, j + 1, id);
    }
    PrefixRows(plans, events, n, i, id);
    PrefixRows(plans, events, n, i + 1, id);
    forall k | i < k <= n ensures RowAt(plans, events[..n], k, id) == RowAt(plans, events, k, id) {
      PrefixRows(plans, events, n, k, id);
    }
  }

  // ---------------------------------------------------------------------------------------------
  // Charges tile time

  function Charges(records: seq<Record>, id: Id): seq<Record> {
    if records == [] then []
    else
      var last := records[|records| - 1];
      Charges(records[..|records| - 1], id) + if last.subId == id && last.kind == "charge" then [last] else []
  }

  /** A period lasts as many whole days as its first month or year has. */
  lemma PeriodLength(start: Moment, cycle: string)
    ensures var t := DateOf(LocalDay(start)).t;
            PeriodEnd(start, cycle).utc - start.utc ==
            86400 * (if cycle != "yearly" then Length(t) else if IsLeap(FebruaryYear(t)) then 366 else 365)
    ensures PeriodEnd(start, cycle).utc > start.utc
  {
    MonthLater(LocalDay(start));
    YearLater(LocalDay(start));
  }

  predicate Covers(charge: Record, instant: int) {
    charge.periodStart.Some? && charge.periodEnd.Some?
    && charge.periodStart.value.utc <= instant < charge.periodEnd.value.utc
  }

  /** Consecutive charges: each lasts one period and starts where the one before ends. */
  predicate Tiles(charges: seq<Record>, cycle: string) {
    && charges != []
    && (forall k :: 0 <= k < |charges| ==>
          charges[k].periodStart.Some? && charges[k].periodEnd == Some(PeriodEnd(charges[k].periodStart.value, cycle)))
    && (forall k :: 0 < k < |charges| ==> charges[k].periodStart == charges[k - 1].periodEnd)
  }

  ghost predicate CoveredOnce(charges: seq<Record>, instant: int) {
    && (exists k :: 0 <= k < |charges| && Covers(charges[k], instant))
    && (forall j, k :: 0 <= j < |charges| && 0 <= k < |charges| && Covers(charges[j], instant) && Covers(charges[k], instant)
          ==> j == k)
  }

  /** Tiling charges cover every instant from the first start to the last end once, and no other instant. */
  lemma {:induction false} TilesCoverOnce(charges: seq<Record>, cycle: string, instant: int)
    requires Tiles(charges, cycle)
    ensures var first, last := charges[0].periodStart.value.utc, charges[|charges| - 1].periodEnd.value.utc;
            && first < last
            && (first <= instant < last ==> CoveredOnce(charges, instant))
            && (!(first <= instant < last) ==> forall k :: 0 <= k < |charges| ==> !Covers(charges[k], instant))
    decreases |charges|
  {
    hide PeriodEnd;
    var n := |charges| - 1;
    PeriodLength(charges[n].periodStart.value, cycle);
    if n > 0 {
      var front := charges[..n];
      assert forall k :: 0 <= k < n ==> front[k] == charges[k];
      TilesCoverOnce(front, cycle, instant);
      var split := charges[n].periodStart.value.utc;
      assert split == front[n - 1].periodEnd.value.utc;
      if instant < split && charges[0].periodStart.value.utc <= instant {
        var k :| 0 <= k < n && Covers(front[k], instant);
        assert Covers(charges[k], instant);
      } else if split <= instant < charges[n].periodEnd.value.utc {
        assert Covers(charges[n], instant);
      }
    } else if Covers(charges[0], instant) {
      assert CoveredOnce(charges, instant);
    }
  }

  /** The charges of one subscription tile time, and the last of them is the stored period. */
  ghost predicate ChargesMatch(row: Option<Sub>, charges: seq<Record>) {
    match row
    case None => charges == []
    case Some(sub) =>
      && SubOk(sub) && Tiles(charges, sub.cycle)
      && sub.periodStart == Some(At(charges[|charges| - 1].periodStart.value))
      && sub.periodEnd == Some(At(charges[|charges| - 1].periodEnd.value))
  }

  function Row(st: Store, id: Id): Option<Sub> {
    if id in st.subs then Some(st.subs[id]) else None
  }

  ghost predicate ChargesOk(st: Store) {
    forall id :: ChargesMatch(Row(st, id), Charges(st.records, id))
  }

  lemma ChargesAppend(records: seq<Record>, record: Record, id: Id)
    ensures Charges(records + [record], id)
         == Charges(records, id) + if record.subId == id && record.kind == "charge" then [record] else []
  {
    assert (records + [record])[..|records|] == records;
  }

  lemma NoRowNoCharges(charges: seq<Record>)
    requires ChargesMatch(None, charges)
    ensures charges == []
  {}

  lemma FirstCharge(id: Id, enterprise: Id, planId: Id, plan: Plan, cycle: string, at: Moment, charges: seq<Record>)
    requires charges == [Charge(id, plan, cycle, at)]
    ensures ChargesMatch(Some(NewSub(enterprise, planId, cycle, at)), charges)
  {
    CycleDefault(at);
    hide PeriodEnd;
  }

  lemma NextCharge(id: Id, sub: Sub, plan: Plan, at: Moment, charges: seq<Record>)
    requires ChargesMatch(Some(sub), charges)
    ensures ChargesMatch(Some(RenewedSub(sub, at)), charges + [Charge(id, plan, sub.cycle, RenewalStart(sub, at))])
  {
    hide PeriodEnd;
  }

  lemma PassMatches(sub: Sub, r: Readings, charges: seq<Record>)
    requires ChargesMatch(Some(sub), charges)
    ensures ChargesMatch(Some(GraceStep(sub, r)), charges)
  {
    hide PeriodEnd;
    GraceStepKeeps(sub, r);
  }

  lemma ApplyKeepsMatch(st: Store, e: Event, id: Id)
    requires ChargesMatch(Row(st, id), Charges(st.records, id))
    ensures ChargesMatch(Row(Apply(st, e), id), Charges(Apply(st, e).records, id))
  {
    hide ChargesMatch, Charges, PeriodEnd, GraceStep, CalculateProration, EffectivePrice, NewSub, RenewedSub, RenewalStart, Abs;
    var before := Charges(st.records, id);
    assert before + [] == before;
    match e
    case Subscribed(added, enterprise, planId, cycle, at) =>
      if planId in st.plans && added !in st.subs {
        var charge := Charge(added, st.plans[planId], cycle, at);
        ChargesAppend(st.records, charge, id);
        if added == id {
          NoRowNoCharges(before);
          FirstCharge(id, enterprise, planId, st.plans[planId], cycle, at, before + [charge]);
        }
      }
    case Renewed(renewed, at) =>
      if renewed in st.subs && st.subs[renewed].planId in st.plans {
        var sub := st.subs[renewed];
        ChargesAppend(st.records, Charge(renewed, st.plans[sub.planId], sub.cycle, RenewalStart(sub, at)), id);
        if renewed == id { NextCharge(id, sub, st.plans[sub.planId], at, before); }
      }
    case Passed(clock) =>
      if id in st.subs { PassMatches(st.subs[id], clock(id), before); }
    case Upgraded(changed, planId, _, _) => ChangeKeepsCharges(st, e, id);
    case Downgraded(changed, planId, _, _) => ChangeKeepsCharges(st, e, id);
  }

  lemma ChangeKeepsCharges(st: Store, e: Event, id: Id)
    requires e.Upgraded? || e.Downgraded?
    ensures Row(Apply(st, e), id) == Row(st, id) && Charges(Apply(st, e).records, id) == Charges(st.records, id)
  {
    hide Charges, CalculateProration, Abs;
    var after := Apply(st, e);
    if |after.records| > |st.records| {
      ChargesAppend(st.records, after.records[|st.records|], id);
    }
  }

  lemma ApplyKeepsCharges(st: Store, e: Event)
    requires ChargesOk(st)
    ensures ChargesOk(Apply(st, e))
  {
    forall id ensures ChargesMatch(Row(Apply(st, e), id), Charges(Apply(st, e).records, id)) {
      ApplyKeepsMatch(st, e, id);
    }
  }

  lemma CycleDefault(start: Moment)
    ensures PeriodEnd(start, "") == PeriodEnd(start, "monthly")
  {}

  lemma {:induction false} ChargesStayOk(plans: map<Id, Plan>, events: seq<Event>)
    ensures ChargesOk(After(plans, events))
    decreases |events|
  {
    if events != [] {
      ChargesStayOk(plans, events[..|events| - 1]);
      ApplyKeepsCharges(After(plans, events[..|events| - 1]), events[|events| - 1]);
    }
  }

  /** Over every run, the charges of a subscription cover the time from its start to its current period end without gap
      or overlap, however late or early the renewals came. */
  lemma ChargesTileTime(plans: map<Id, Plan>, events: seq<Event>, id: Id, instant: int)
    requires id in After(plans, events).subs
    ensures var st := After(plans, events);
            var charges := Charges(st.records, id);
            && Tiles(charges, st.subs[id].cycle)
            && st.subs[id].periodEnd == Some(At(charges[|charges| - 1].periodEnd.value))
            && (charges[0].periodStart.value.utc <= instant < charges[|charges| - 1].periodEnd.value.utc
                <==> CoveredOnce(charges, instant))
  {
    ChargesStayOk(plans, events);
    var st := After(plans, events);
    assert ChargesMatch(Row(st, id), Charges(st.records, id));
    var charges := Charges(st.records, id);
    TilesCoverOnce(charges, st.subs[id].cycle, instant);
  }

  // ---------------------------------------------------------------------------------------------
  // Changes of plan on stored rows

  /** The stored plan is never written by a change of plan, so a second change is quoted from the original plan again.
      Two stored changes cost what the direct change costs exactly when the first was free. */
  lemma StoredChangesTelescopeIff(st: Store, id: Id, b: Id, c: Id, quotedAt: int, at: Moment)
    requires id in st.subs && st.subs[id].planId in st.plans && b in st.plans && c in st.plans
    ensures var sub := st.subs[id]; var a := st.plans[sub.planId];
            var records := Apply(Apply(st, Upgraded(id, b, quotedAt, at)), Upgraded(id, c, quotedAt, at)).records;
            && |records| == |st.records| + 2 && records[..|st.records|] == st.records
            && (records[|st.records|].amount + records[|st.records| + 1].amount
                  == CalculateProration(sub, a, st.plans[c], quotedAt)
                <==> Price(sub, st.plans[b]) == Price(sub, a) || (Timed(sub) && quotedAt >= sub.periodEnd.value.moment.utc))
  {}

  // ---------------------------------------------------------------------------------------------
  // The repository and the service

  class BillingRepo {
    var plans: map<Id, Plan>
    var subs: map<Id, Sub>
    var records: seq<Record>

    constructor (plans: map<Id, Plan>)
      ensures Snapshot() == After(plans, [])
    {
      this.plans := plans;
      subs := map[];
      records := [];
    }

    function Snapshot(): Store
      reads this
    {
      Store(plans, subs, records)
    }

    method FindPlanByID(id: Id) returns (plan: Option<Plan>)
      ensures plan == if id in plans then Some(plans[id]) else None
    {
      return if id in plans then Some(plans[id]) else None;
    }

    method FindSubscriptionByID(id: Id) returns (sub: Option<Sub>)
      ensures sub == if id in subs then Some(subs[id]) else None
    {
      return if id in subs then Some(subs[id]) else None;
    }

    method CreateSubscription(id: Id, sub: Sub) returns (ok: bool)
      modifies this`subs
      ensures ok <==> id !in old(subs)
      ensures subs == if ok then old(subs)[id := sub] else old(subs)
    {
      ok := id !in subs;
      if ok { subs := subs[id := sub]; }
    }

    method SaveSubscription(id: Id, sub: Sub)
      modifies this`subs
      ensures subs == if id in old(subs) then old(subs)[id := Saved(old(subs)[id], sub)] else old(subs)
      ensures id in old(subs) ==> subs[id] == sub.(planId := old(subs)[id].planId, enterpriseId := old(subs)[id].enterpriseId)
    {
      if id in subs {
        var stored := subs[id];
        subs := subs[id := stored.(status := sub.status, startAt := sub.startAt, endAt := sub.endAt,
                                   autoRenew := sub.autoRenew, periodStart := sub.periodStart,
                                   periodEnd := sub.periodEnd, graceEnd := sub.graceEnd, cycle := sub.cycle)];
      }
    }

    method CreateBillingRecord(record: Record)
      modifies this`records
      ensures records == old(records) + [record]
    {
      records := records + [record];
    }

    /** Copies of the rows that are active or past due, each once, in some order. */
    method FindActiveOrPastDueSubscriptions() returns (found: seq<(Id, Sub)>)
      ensures forall k :: 0 <= k < |found| ==> found[k].0 in subs && found[k].1 == subs[found[k].0] && Billable(found[k].1)
      ensures forall j, k :: 0 <= j < k < |found| ==> found[j].0 != found[k].0
      ensures forall id :: id in subs && Billable(subs[id]) ==> exists k :: 0 <= k < |found| && found[k].0 == id
    {
      found := [];
      var rest := subs.Keys;
      while rest != {}
        invariant rest <= subs.Keys
        invariant forall k :: 0 <= k < |found| ==> found[k].0 in subs && found[k].0 !in rest && found[k].1 == subs[found[k].0] && Billable(found[k].1)
        invariant forall j, k :: 0 <= j < k < |found| ==> found[j].0 != found[k].0
        invariant forall id :: id in subs && id !in rest && Billable(subs[id]) ==> exists k :: 0 <= k < |found| && found[k].0 == id
        decreases rest
      {
        var id :| id in rest;
        ghost var before := found;
        if Billable(subs[id]) {
          found := found + [(id, subs[id])];
          assert found[|found| - 1].0 == id;
        }
        forall other | other in subs && other != id && other !in rest && Billable(subs[other])
          ensures exists k :: 0 <= k < |found| && found[k].0 == other
        {
          var k :| 0 <= k < |before| && before[k].0 == other;
          assert found[k].0 == other;
        }
        rest := rest - {id};
      }
    }
  }

  class BillingService {
    const repo: BillingRepo

    constructor (repo: BillingRepo)
      ensures this.repo == repo
    {
      this.repo := repo;
    }

    method Subscribe(id: Id, enterprise: Id, planId: Id, cycle: string, now: Moment) returns (sub: Option<Sub>)
      modifies repo
      ensures repo.Snapshot() == Apply(old(repo.Snapshot()), Subscribed(id, enterprise, planId, cycle, now))
      ensures sub.Some? <==> planId in old(repo.plans) && id !in old(repo.subs)
      ensures sub.Some? ==> id in repo.subs && repo.subs[id] == sub.value
      ensures sub.Some? ==>
                && sub.value.enterpriseId == enterprise && sub.value.planId == planId && sub.value.status == "active"
                && sub.value.autoRenew && sub.value.graceEnd == None
                && sub.value.cycle == (if cycle == "" then "monthly" else cycle)
                && sub.value.startAt == sub.value.periodStart == Some(At(now)) && sub.value.endAt == sub.value.periodEnd
                && |repo.records| == |old(repo.records)| + 1
                && var charge := repo.records[|old(repo.records)|];
                   && ListedAmount(old(repo.plans)[planId], cycle, charge.amount)
                   && charge.subId == id && charge.kind == "charge" && charge.status == "pending"
                   && charge.periodStart == charge.dueDate == Some(now)
                   && charge.periodEnd.Some? && sub.value.periodEnd == Some(At(charge.periodEnd.value))
    {
      var plan := repo.FindPlanByID(planId);
      if plan.None? { return None; }
      var periodEnd := if cycle == "yearly" then AddDateTo(now, 1, 0) else AddDateTo(now, 0, 1);
      var created := Sub(enterprise, planId, "active", Some(At(now)), Some(At(periodEnd)), true, Some(At(now)),
                         Some(At(periodEnd)), None, if cycle == "" then "monthly" else cycle);
      var ok := repo.CreateSubscription(id, created);
      if !ok { return None; }
      var amount := if created.cycle == "yearly" then plan.value.yearly else plan.value.monthly;
      if amount == 0.0 { amount := plan.value.price; }
      repo.CreateBillingRecord(Record(id, amount, "charge", "pending", Some(now), Some(periodEnd), Some(now)));
      return Some(created);
    }

    method RenewSubscription(id: Id, now: Moment) returns (renewed: Option<Sub>)
      modifies repo
      ensures repo.Snapshot() == Apply(old(repo.Snapshot()), Renewed(id, now))
      ensures renewed.Some? <==> id in old(repo.subs) && old(repo.subs)[id].planId in old(repo.plans)
      ensures renewed.Some? ==> id in repo.subs && repo.subs[id] == renewed.value
      ensures renewed.Some? ==>
                var was := old(repo.subs)[id];
                && renewed.value.status == "active" && renewed.value.graceEnd == None
                && renewed.value.(status := was.status, graceEnd := was.graceEnd, periodStart := was.periodStart,
                                  periodEnd := was.periodEnd) == was
                && |repo.records| == |old(repo.records)| + 1
                && var charge := repo.records[|old(repo.records)|];
                   && ListedAmount(old(repo.plans)[was.planId], was.cycle, charge.amount)
                   && charge.subId == id && charge.kind == "charge" && charge.status == "pending"
                   && charge.periodStart.Some? && charge.periodStart == charge.dueDate && charge.periodEnd.Some?
                   && charge.periodStart.value == (if was.periodEnd.Some? && was.periodEnd.value.At?
                                                   then was.periodEnd.value.moment else now)
                   && renewed.value.periodStart == Some(At(charge.periodStart.value))
                   && renewed.value.periodEnd == Some(At(charge.periodEnd.value))
    {
      hide AddDateTo;
      var found := repo.FindSubscriptionByID(id);
      if found.None? { return None; }
      var sub := found.value;
      var plan := repo.FindPlanByID(sub.planId);
      if plan.None? { return None; }
      var periodStart := now;
      if sub.periodEnd.Some? && sub.periodEnd.value.At? {
        periodStart := sub.periodEnd.value.moment;
      }
      var periodEnd := if sub.cycle == "yearly" then AddDateTo(periodStart, 1, 0) else AddDateTo(periodStart, 0, 1);
      sub := sub.(periodStart := Some(At(periodStart)), periodEnd := Some(At(periodEnd)), status := "active", graceEnd := None);
      repo.SaveSubscription(id, sub);
      var amount := if sub.cycle == "yearly" then plan.value.yearly else plan.value.monthly;
      if amount == 0.0 { amount := plan.value.price; }
      repo.CreateBillingRecord(Record(id, amount, "charge", "pending", Some(periodStart), Some(periodEnd), Some(periodStart)));
      return Some(sub);
    }

    /** The body of the pass for one loaded copy, which may be out of date. */
    method ProcessOne(id: Id, loaded: Sub, r: Readings) returns (processed: bool)
      modifies repo`subs
      ensures repo.subs == PassSaved(old(repo.subs), id, loaded, r)
      ensures processed <==> GraceStep(loaded, r).status != loaded.status
    {
      var sub := loaded;
      if sub.periodEnd.None? || sub.periodEnd.value.Garbled? {
        return false;
      }
      var periodEnd := sub.periodEnd.value.moment;
      if r.first > periodEnd.utc && sub.status == "active" {
        var graceEnd := periodEnd.(utc := periodEnd.utc + 7 * 24 * 3600);
        sub := sub.(graceEnd := Some(At(graceEnd)), status := "past_due");
        repo.SaveSubscription(id, sub);
        return true;
      }
      if sub.graceEnd.Some? && sub.status == "past_due" {
        if sub.graceEnd.value.At? && r.second > sub.graceEnd.value.moment.utc {
          sub := sub.(status := "suspended");
          repo.SaveSubscription(id, sub);
          return true;
        }
      }
      return false;
    }

    /** One scheduler pass; the result is the number of subscriptions whose status changed. */
    method ProcessGracePeriod(clock: Clock) returns (processed: nat)
      modifies repo
      ensures repo.Snapshot() == Apply(old(repo.Snapshot()), Passed(clock))
      ensures processed == |Changed(old(repo.subs), repo.subs)|
    {
      hide GraceStep;
      ghost var before := repo.subs;
      var found := repo.FindActiveOrPastDueSubscriptions();
      processed := 0;
      ghost var done: set<Id> := {};
      for i := 0 to |found|
        invariant repo.plans == old(repo.plans) && repo.records == old(repo.records)
        invariant forall id :: id in done <==> exists k :: 0 <= k < i && found[k].0 == id
        invariant repo.subs == PassOver(before, clock, done)
        invariant processed == |Changed(before, PassOver(before, clock, done))|
      {
        var (id, sub) := found[i];
        assert id !in done;
        PassOneMore(before, clock, done, id);
        CopyStillStands(repo.subs, id, sub, clock(id));
        var counted := ProcessOne(id, sub, clock(id));
        if counted { processed := processed + 1; }
        done := done + {id};
      }
      PassDone(before, clock, done);
    }

    /** The new plan is set on the copy in memory only, and saving the copy leaves the stored row as it was. */
    method UpgradePlan(id: Id, newPlanId: Id, quotedAt: int, now: Moment) returns (record: Option<Record>)
      modifies repo
      ensures repo.Snapshot() == Apply(old(repo.Snapshot()), Upgraded(id, newPlanId, quotedAt, now))
      ensures repo.subs == old(repo.subs)
      ensures record.Some? <==>
                id in old(repo.subs) && old(repo.subs)[id].planId in old(repo.plans) && newPlanId in old(repo.plans)
      ensures record.Some? ==>
                && record.value.subId == id && record.value.status == "pending" && record.value.periodStart == Some(now)
                && record.value.periodEnd == None && record.value.dueDate == None
                && record.value.kind == "upgrade_charge"
                && record.value.amount == CalculateProration(old(repo.subs)[id], old(repo.plans)[old(repo.subs)[id].planId],
                                                              old(repo.plans)[newPlanId], quotedAt)
      ensures record.Some? ==> repo.records == old(repo.records) + [record.value]
    {
      var found := repo.FindSubscriptionByID(id);
      if found.None? { return None; }
      var sub := found.value;
      var oldPlan := repo.FindPlanByID(sub.planId);
      if oldPlan.None? { return None; }
      var newPlan := repo.FindPlanByID(newPlanId);
      if newPlan.None? { return None; }
      var proratedAmount := CalculateProration(sub, oldPlan.value, newPlan.value, quotedAt);
      var created := Record(id, proratedAmount, "upgrade_charge", "pending", Some(now), None, None);
      repo.CreateBillingRecord(created);
      sub := sub.(planId := newPlanId);
      repo.SaveSubscription(id, sub);
      return Some(created);
    }

    method DowngradePlan(id: Id, newPlanId: Id, quotedAt: int, now: Moment) returns (record: Option<Record>)
      modifies repo
      ensures repo.Snapshot() == Apply(old(repo.Snapshot()), Downgraded(id, newPlanId, quotedAt, now))
      ensures repo.subs == old(repo.subs)
      ensures record.Some? <==>
                id in old(repo.subs) && old(repo.subs)[id].planId in old(repo.plans) && newPlanId in old(repo.plans)
      ensures record.Some? ==>
                && record.value.subId == id && record.value.status == "pending" && record.value.periodStart == Some(now)
                && record.value.periodEnd == None && record.value.dueDate == None
                && record.value.kind in ["downgrade_charge", "downgrade_credit"]
                && (record.value.kind == "downgrade_charge" ==> record.value.amount > 0.0)
                && record.value.amount >= 0.0
                && Signed(record.value) == CalculateProration(old(repo.subs)[id], old(repo.plans)[old(repo.subs)[id].planId],
                                                              old(repo.plans)[newPlanId], quotedAt)
      ensures record.Some? ==> repo.records == old(repo.records) + [record.value]
    {
      var found := repo.FindSubscriptionByID(id);
      if found.None? { return None; }
      var sub := found.value;
      var oldPlan := repo.FindPlanByID(sub.planId);
      if oldPlan.None? { return None; }
      var newPlan := repo.FindPlanByID(newPlanId);
      if newPlan.None? { return None; }
      var proratedAmount := CalculateProration(sub, oldPlan.value, newPlan.value, quotedAt);
      var recordType := "downgrade_credit";
      if proratedAmount > 0.0 {
        recordType := "downgrade_charge";
      } else {
        proratedAmount := -proratedAmount;
      }
      var created := Record(id, proratedAmount, recordType, "pending", Some(now), None, None);
      repo.CreateBillingRecord(created);
      sub := sub.(planId := newPlanId);
      repo.SaveSubscription(id, sub);
      return Some(created);
    }
  }
}
