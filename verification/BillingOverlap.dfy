/**
Billing calls that overlap. A call loads a copy of a subscription, and later saves all period columns of the copy back;
a renewal and a new subscription then insert a charge. Every database statement is one step, and any of them may be
refused. The service looks at no error of a save.
*/
module BillingOverlap {
  import opened Common
  import opened Calendar
  import opened Proration
  import opened Billing

  /** A call in progress: a renewal that has loaded the row and its plan; a charge about to be inserted; a pass with the
      copies that it has not come to yet; a change of plan that has loaded the row, or has inserted its record. */
  datatype Call =
    | Renewing(id: Id, snap: Sub, plan: Plan)
    | Charging(id: Id, charge: Record)
    | Passing(copies: map<Id, Sub>)
    | Changing(id: Id, snap: Sub, was: Plan, becomes: Plan, down: bool)
    | Keeping(id: Id, snap: Sub)
    | Over

  datatype System = System(plans: map<Id, Plan>, subs: map<Id, Sub>, records: seq<Record>, calls: seq<Call>)

  /** `next` is the subscription that a pass looks at, `at` and `readings` are the clock, and `ran` whether the statement
      is executed. */
  datatype Action =
    | StartSubscribe(id: Id, enterprise: Id, planId: Id, cycle: string, at: Moment)
    | StartRenew(id: Id)
    | StartPass
    | StartChange(id: Id, planId: Id, down: bool)
    | Continue(call: nat, next: Id, at: Moment, readings: Readings, ran: bool)

  function Advance(s: System, c: Call, a: Action): (System, Call)
    requires a.Continue?
  {
    match c
    case Renewing(id, snap, plan) =>
      (if a.ran then s.(subs := SavedBack(s.subs, id, RenewedSub(snap, a.at))) else s,
       Charging(id, Charge(id, plan, snap.cycle, RenewalStart(snap, a.at))))
    case Charging(id, charge) => (if a.ran then s.(records := s.records + [charge]) else s, Over)
    case Passing(copies) =>
      if a.next !in copies then (s, c)
      else
        (if a.ran then s.(subs := PassSaved(s.subs, a.next, copies[a.next], a.readings)) else s, Passing(copies - {a.next}))
    case Changing(id, snap, was, becomes, down) =>
      if !a.ran then (s, Over)
      else
        var record := if down then DowngradeRecord(id, snap, was, becomes, a.at.utc, a.at)
                      else UpgradeRecord(id, snap, was, becomes, a.at.utc, a.at);
        (s.(records := s.records + [record]), Keeping(id, snap))
    case Keeping(id, snap) => (if a.ran then s.(subs := SavedBack(s.subs, id, snap)) else s, Over)
    case Over => (s, Over)
  }

  function Step(s: System, a: Action): System {
    match a
    case StartSubscribe(id, enterprise, planId, cycle, at) =>
      if planId !in s.plans || id in s.subs then s
      else
        s.(subs := s.subs[id := NewSub(enterprise, planId, cycle, at)],
           calls := s.calls + [Charging(id, Charge(id, s.plans[planId], cycle, at))])
    case StartRenew(id) =>
      if id !in s.subs || s.subs[id].planId !in s.plans then s
      else s.(calls := s.calls + [Renewing(id, s.subs[id], s.plans[s.subs[id].planId])])
    case StartPass => s.(calls := s.calls + [Passing(map id | id in s.subs && Billable(s.subs[id]) :: s.subs[id])])
    case StartChange(id, planId, down) =>
      if id !in s.subs || s.subs[id].planId !in s.plans || planId !in s.plans then s
      else s.(calls := s.calls + [Changing(id, s.subs[id], s.plans[s.subs[id].planId], s.plans[planId], down)])
    case Continue(i, _, _, _, _) =>
      if i >= |s.calls| then s
      else
        var (t, c) := Advance(s, s.calls[i], a);
        t.(calls := s.calls[i := c])
  }

  /** The system after the first k actions, from an empty table. */
  function Reached(plans: map<Id, Plan>, actions: seq<Action>, k: nat): System
    requires k <= |actions|
    decreases k
  {
    if k == 0 then System(plans, map[], [], []) else Step(Reached(plans, actions, k - 1), actions[k - 1])
  }

  // ---------------------------------------------------------------------------------------------
  // What holds whatever overlaps

  /** A row or a copy of one: it has a start, a later period end, and so a next period. */
  predicate Shaped(sub: Sub) {
    && sub.startAt.Some? && sub.startAt.value.At? && sub.periodEnd.Some? && sub.periodEnd.value.At?
    && sub.startAt.value.moment.utc < sub.periodEnd.value.moment.utc
  }

  function StartOf(sub: Sub): int
    requires Shaped(sub)
  {
    sub.startAt.value.moment.utc
  }

  function EndOf(sub: Sub): int
    requires Shaped(sub)
  {
    sub.periodEnd.value.moment.utc
  }

  predicate CopyOf(subs: map<Id, Sub>, id: Id, snap: Sub) {
    id in subs && Shaped(snap) && snap.startAt == subs[id].startAt
  }

  predicate CallShaped(subs: map<Id, Sub>, c: Call) {
    match c
    case Renewing(id, snap, _) => CopyOf(subs, id, snap)
    case Charging(id, charge) =>
      && charge.subId == id && charge.kind == "charge" && charge.periodStart.Some? && charge.periodEnd.Some?
      && charge.periodStart.value.utc < charge.periodEnd.value.utc
    case Passing(copies) => forall id :: id in copies ==> CopyOf(subs, id, copies[id])
    case Changing(id, snap, _, _, _) => CopyOf(subs, id, snap)
    case Keeping(id, snap) => CopyOf(subs, id, snap)
    case Over => true
  }

  ghost predicate SystemShaped(s: System) {
    && (forall id :: id in s.subs ==> Shaped(s.subs[id]))
    && (forall i :: 0 <= i < |s.calls| ==> CallShaped(s.subs, s.calls[i]))
  }

  /** Rows stay, with their start. */
  predicate StartsKept(before: map<Id, Sub>, after: map<Id, Sub>) {
    forall id :: id in before ==> id in after && after[id].startAt == before[id].startAt
  }

  lemma RenewedShaped(snap: Sub, at: Moment)
    requires Shaped(snap)
    ensures Shaped(RenewedSub(snap, at)) && RenewedSub(snap, at).startAt == snap.startAt
    ensures RenewalStart(snap, at).utc == EndOf(snap) < EndOf(RenewedSub(snap, at))
    ensures PeriodEnd(RenewalStart(snap, at), snap.cycle).utc == EndOf(RenewedSub(snap, at))
  {
    PeriodLength(RenewalStart(snap, at), snap.cycle);
    hide PeriodEnd;
  }

  lemma GraceStepShaped(loaded: Sub, r: Readings)
    requires Shaped(loaded)
    ensures Shaped(GraceStep(loaded, r)) && GraceStep(loaded, r).startAt == loaded.startAt
    ensures EndOf(GraceStep(loaded, r)) == EndOf(loaded)
  {}

  lemma SavedBackShaped(subs: map<Id, Sub>, id: Id, sub: Sub)
    requires CopyOf(subs, id, sub) && forall other :: other in subs ==> Shaped(subs[other])
    ensures forall other :: other in SavedBack(subs, id, sub) ==> other in subs && Shaped(SavedBack(subs, id, sub)[other])
    ensures StartsKept(subs, SavedBack(subs, id, sub))
    ensures EndOf(SavedBack(subs, id, sub)[id]) == EndOf(sub)
    ensures forall other :: other in subs && other != id ==> SavedBack(subs, id, sub)[other] == subs[other]
  {}

  lemma CallShapedKept(subs: map<Id, Sub>, after: map<Id, Sub>, c: Call)
    requires CallShaped(subs, c) && StartsKept(subs, after)
    ensures CallShaped(after, c)
  {}

  lemma NewSubShaped(id: Id, enterprise: Id, planId: Id, plan: Plan, cycle: string, at: Moment)
    ensures var sub, charge := NewSub(enterprise, planId, cycle, at), Charge(id, plan, cycle, at);
            && Shaped(sub) && StartOf(sub) == at.utc
            && charge.periodStart.value.utc == StartOf(sub) && charge.periodEnd.value.utc == EndOf(sub)
  {
    PeriodLength(at, cycle);
    hide PeriodEnd;
  }

  /** What one step of one call does to the rows and to its own variables. */
  lemma AdvanceShaped(s: System, c: Call, a: Action)
    requires a.Continue? && (forall id :: id in s.subs ==> Shaped(s.subs[id])) && CallShaped(s.subs, c)
    ensures var (t, c') := Advance(s, c, a);
            && (forall id :: id in t.subs ==> Shaped(t.subs[id]))
            && StartsKept(s.subs, t.subs) && CallShaped(t.subs, c')
  {
    hide RenewedSub, RenewalStart, Charge, PassSaved, UpgradeRecord, DowngradeRecord, SavedBack;
    match c
    case Renewing(id, snap, plan) =>
      RenewedShaped(snap, a.at);
      ChargeIs(id, plan, snap.cycle, RenewalStart(snap, a.at));
      SavedBackShaped(s.subs, id, RenewedSub(snap, a.at));
      hide PeriodEnd;
    case Passing(copies) =>
      if a.next in copies { PassSavedShaped(s.subs, a.next, copies[a.next], a.readings); }
    case Keeping(id, snap) => SavedBackShaped(s.subs, id, snap);
    case _ =>
  }

  lemma PassSavedShaped(subs: map<Id, Sub>, id: Id, loaded: Sub, r: Readings)
    requires CopyOf(subs, id, loaded) && forall other :: other in subs ==> Shaped(subs[other])
    ensures forall other :: other in PassSaved(subs, id, loaded, r) ==> Shaped(PassSaved(subs, id, loaded, r)[other])
    ensures StartsKept(subs, PassSaved(subs, id, loaded, r))
  {
    GraceStepShaped(loaded, r);
    hide GraceStep, SavedBack;
    SavedBackShaped(subs, id, GraceStep(loaded, r));
  }

  lemma ChargeIs(id: Id, plan: Plan, cycle: string, start: Moment)
    ensures var charge := Charge(id, plan, cycle, start);
            && charge.subId == id && charge.kind == "charge"
            && charge.periodStart == Some(start) && charge.periodEnd == Some(PeriodEnd(start, cycle))
  {}

  lemma StepShaped(s: System, a: Action)
    requires SystemShaped(s)
    ensures SystemShaped(Step(s, a)) && StartsKept(s.subs, Step(s, a).subs)
  {
    hide Advance, NewSub, Charge;
    var t := Step(s, a);
    match a
    case StartSubscribe(id, enterprise, planId, cycle, at) =>
      if planId in s.plans {
        NewSubShaped(id, enterprise, planId, s.plans[planId], cycle, at);
        ChargeIs(id, s.plans[planId], cycle, at);
      }
    case Continue(i, _, _, _, _) => if i < |s.calls| { AdvanceShaped(s, s.calls[i], a); }
    case _ =>
    assert StartsKept(s.subs, t.subs);
    forall i | 0 <= i < |s.calls| ensures CallShaped(t.subs, s.calls[i]) { CallShapedKept(s.subs, t.subs, s.calls[i]); }
  }

  // ---------------------------------------------------------------------------------------------
  // How often an instant is charged

  function One(record: Record, id: Id, t: int): nat {
    if record.subId == id && record.kind == "charge" && Covers(record, t) then 1 else 0
  }

  function Cover(records: seq<Record>, id: Id, t: int): nat {
    if records == [] then 0 else Cover(records[..|records| - 1], id, t) + One(records[|records| - 1], id, t)
  }

  function Pending(c: Call, id: Id, t: int): nat {
    if c.Charging? then One(c.charge, id, t) else 0
  }

  function PendingCover(calls: seq<Call>, id: Id, t: int): nat {
    if calls == [] then 0 else PendingCover(calls[..|calls| - 1], id, t) + Pending(calls[|calls| - 1], id, t)
  }

  /** How many charges of the subscription, inserted or about to be, cover the instant. */
  function Count(s: System, id: Id, t: int): nat {
    Cover(s.records, id, t) + PendingCover(s.calls, id, t)
  }

  /** The charges cover every instant from the subscription's start to its stored period end once, and no other. */
  ghost predicate Tiled(s: System, id: Id) {
    forall t :: Count(s, id, t) == Wanted(s.subs, id, t)
  }

  function Wanted(subs: map<Id, Sub>, id: Id, t: int): nat {
    if id in subs && Shaped(subs[id]) && StartOf(subs[id]) <= t < EndOf(subs[id]) then 1 else 0
  }

  lemma CoverAppend(records: seq<Record>, record: Record, id: Id, t: int)
    ensures Cover(records + [record], id, t) == Cover(records, id, t) + One(record, id, t)
  {
    assert (records + [record])[..|records|] == records;
  }

  lemma PendingAppend(calls: seq<Call>, c: Call, id: Id, t: int)
    ensures PendingCover(calls + [c], id, t) == PendingCover(calls, id, t) + Pending(c, id, t)
  {
    assert (calls + [c])[..|calls|] == calls;
  }

  lemma {:induction false} PendingUpdate(calls: seq<Call>, i: nat, c: Call, id: Id, t: int)
    requires i < |calls|
    ensures PendingCover(calls[i := c], id, t) + Pending(calls[i], id, t) == PendingCover(calls, id, t) + Pending(c, id, t)
  {
    var n := |calls| - 1;
    if i < n {
      PendingUpdate(calls[..n], i, c, id, t);
      assert calls[i := c][..n] == calls[..n][i := c];
    } else {
      assert calls[i := c][..n] == calls[..n];
    }
  }

  // ---------------------------------------------------------------------------------------------
  // Which steps keep the tiling

  /** The copy's period end is not later than the row's. */
  predicate CopyBehind(subs: map<Id, Sub>, id: Id, snap: Sub) {
    id in subs && Shaped(snap) && Shaped(subs[id]) && EndOf(snap) <= EndOf(subs[id])
  }

  predicate CallBehind(subs: map<Id, Sub>, c: Call, id: Id) {
    match c
    case Renewing(x, snap, _) => x == id ==> CopyBehind(subs, id, snap)
    case Passing(copies) => id in copies ==> CopyBehind(subs, id, copies[id])
    case Changing(x, snap, _, _, _) => x == id ==> CopyBehind(subs, id, snap)
    case Keeping(x, snap) => x == id ==> CopyBehind(subs, id, snap)
    case _ => true
  }

  ghost predicate Behind(s: System, id: Id) {
    forall i :: 0 <= i < |s.calls| ==> CallBehind(s.subs, s.calls[i], id)
  }

  /** The row's period end has moved since the copy was loaded. */
  predicate Stale(subs: map<Id, Sub>, id: Id, snap: Sub) {
    id in subs && Shaped(snap) && Shaped(subs[id]) && EndOf(snap) != EndOf(subs[id])
  }

  /** The four ways to break the tiling: a renewal saves a stale copy, or its save is refused and it charges all the
      same; a charge is refused; a pass changes the status of a stale copy and saves it; a change of plan saves one. */
  predicate Breaks(s: System, a: Action, id: Id) {
    && a.Continue? && a.call < |s.calls|
    && match s.calls[a.call]
       case Renewing(x, snap, _) => x == id && (!a.ran || Stale(s.subs, id, snap))
       case Charging(x, _) => x == id && !a.ran
       case Passing(copies) =>
         && a.next == id && id in copies && a.ran
         && GraceStep(copies[id], a.readings).status != copies[id].status && Stale(s.subs, id, copies[id])
       case Keeping(x, snap) => x == id && a.ran && Stale(s.subs, id, snap)
       case _ => false
  }

  /** The charge that a call adds to those about to be inserted, if it is a renewal. */
  lemma RenewalCharge(id: Id, snap: Sub, plan: Plan, at: Moment, t: int)
    requires Shaped(snap) && Shaped(RenewedSub(snap, at))
    ensures One(Charge(id, plan, snap.cycle, RenewalStart(snap, at)), id, t)
         == if EndOf(snap) <= t < EndOf(RenewedSub(snap, at)) then 1 else 0
  {
    RenewedShaped(snap, at);
    ChargeIs(id, plan, snap.cycle, RenewalStart(snap, at));
    hide PeriodEnd, RenewalStart, RenewedSub, Charge;
  }

  lemma RenewingTilesIff(s: System, a: Action, id: Id)
    requires SystemShaped(s) && Tiled(s, id) && Behind(s, id)
    requires a.Continue? && a.call < |s.calls| && s.calls[a.call].Renewing? && s.calls[a.call].id == id
    ensures Tiled(Step(s, a), id) <==> !Breaks(s, a, id)
  {
    var c, u := s.calls[a.call], Step(s, a);
    var snap := c.snap;
    assert CallShaped(s.subs, c) && CallBehind(s.subs, c, id);
    RenewedShaped(snap, a.at);
    var renewed, charge := RenewedSub(snap, a.at), Charge(id, c.plan, snap.cycle, RenewalStart(snap, a.at));
    SavedBackShaped(s.subs, id, renewed);
    forall t ensures Count(u, id, t) == Wanted(s.subs, id, t) + if EndOf(snap) <= t < EndOf(renewed) then 1 else 0 {
      PendingUpdate(s.calls, a.call, Charging(id, charge), id, t);
      RenewalCharge(id, snap, c.plan, a.at, t);
    }
    hide RenewedSub, RenewalStart, Charge, Count, SystemShaped, Behind, SavedBack;
    assert u.subs == if a.ran then SavedBack(s.subs, id, renewed) else s.subs;
    if Breaks(s, a, id) {
      assert Count(u, id, EndOf(snap)) != Wanted(u.subs, id, EndOf(snap));
    }
  }

  lemma ChargingTilesIff(s: System, a: Action, id: Id)
    requires SystemShaped(s) && Tiled(s, id)
    requires a.Continue? && a.call < |s.calls| && s.calls[a.call].Charging?
    ensures Tiled(Step(s, a), id) <==> !Breaks(s, a, id)
  {
    var c, u := s.calls[a.call], Step(s, a);
    assert CallShaped(s.subs, c);
    forall t ensures Count(u, id, t) + (if a.ran then 0 else One(c.charge, id, t)) == Count(s, id, t) {
      PendingUpdate(s.calls, a.call, Over, id, t);
      CoverAppend(s.records, c.charge, id, t);
    }
    hide Count, SystemShaped, Cover, PendingCover;
    assert u.subs == s.subs;
    if Breaks(s, a, id) {
      var t := c.charge.periodStart.value.utc;
      assert One(c.charge, id, t) == 1;
      assert Count(u, id, t) < Count(s, id, t) == Wanted(s.subs, id, t);
    }
  }

  /** A step that adds no charge keeps the tiling exactly when it keeps the period end. */
  lemma EndDecides(s: System, u: System, id: Id)
    requires SystemShaped(s) && SystemShaped(u) && Tiled(s, id) && StartsKept(s.subs, u.subs)
    requires forall t :: Count(u, id, t) == Count(s, id, t)
    requires id in s.subs ==> EndOf(u.subs[id]) <= EndOf(s.subs[id])
    requires id !in s.subs ==> id !in u.subs
    ensures Tiled(u, id) <==> (id in s.subs ==> EndOf(u.subs[id]) == EndOf(s.subs[id]))
  {
    hide Count;
    assert forall t :: Count(s, id, t) == Wanted(s.subs, id, t);
    if id in s.subs {
      assert Shaped(s.subs[id]) && Shaped(u.subs[id]) && StartOf(u.subs[id]) == StartOf(s.subs[id]);
      var t := EndOf(u.subs[id]);
      if t < EndOf(s.subs[id]) { assert Count(u, id, t) != Wanted(u.subs, id, t); }
    }
  }

  /** Passes, changes of plan and finished calls add no charge. */
  lemma OthersAddNoCharge(s: System, a: Action, id: Id, t: int)
    requires a.Continue? && a.call < |s.calls| && !s.calls[a.call].Renewing? && !s.calls[a.call].Charging?
    ensures Count(Step(s, a), id, t) == Count(s, id, t)
  {
    var (u, c') := Advance(s, s.calls[a.call], a);
    PendingUpdate(s.calls, a.call, c', id, t);
    if |u.records| > |s.records| { CoverAppend(s.records, u.records[|s.records|], id, t); }
  }

  /** What such a call does to the row. */
  lemma OthersMoveEnd(s: System, a: Action, id: Id)
    requires SystemShaped(s) && Behind(s, id) && id in s.subs
    requires a.Continue? && a.call < |s.calls| && !s.calls[a.call].Renewing? && !s.calls[a.call].Charging?
    ensures id in Step(s, a).subs && Shaped(Step(s, a).subs[id])
    ensures EndOf(Step(s, a).subs[id]) <= EndOf(s.subs[id])
    ensures EndOf(Step(s, a).subs[id]) == EndOf(s.subs[id]) <==> !Breaks(s, a, id)
  {
    var c := s.calls[a.call];
    assert CallShaped(s.subs, c) && CallBehind(s.subs, c, id) && Shaped(s.subs[id]);
    hide SystemShaped, Behind, SavedBack, PassSaved, GraceStep, UpgradeRecord, DowngradeRecord;
    RowsShaped(s);
    match c
    case Passing(copies) => if a.next in copies { PassMovesEnd(s.subs, a.next, copies[a.next], a.readings, id); }
    case Keeping(x, snap) => SavedBackShaped(s.subs, x, snap);
    case _ =>
  }

  lemma PassMovesEnd(subs: map<Id, Sub>, x: Id, loaded: Sub, r: Readings, id: Id)
    requires CopyOf(subs, x, loaded) && id in subs && forall other :: other in subs ==> Shaped(subs[other])
    ensures id in PassSaved(subs, x, loaded, r) && Shaped(PassSaved(subs, x, loaded, r)[id])
    ensures EndOf(PassSaved(subs, x, loaded, r)[id])
         == if x == id && GraceStep(loaded, r).status != loaded.status then EndOf(loaded) else EndOf(subs[id])
  {
    GraceStepShaped(loaded, r);
    hide GraceStep, SavedBack;
    SavedBackShaped(subs, x, GraceStep(loaded, r));
  }

  lemma RowsShaped(s: System)
    requires SystemShaped(s)
    ensures forall other :: other in s.subs ==> Shaped(s.subs[other])
  {}

  lemma OtherRenewing(s: System, a: Action, id: Id)
    requires SystemShaped(s) && a.Continue? && a.call < |s.calls| && s.calls[a.call].Renewing? && s.calls[a.call].id != id
    ensures id in Step(s, a).subs <==> id in s.subs
    ensures id in s.subs ==> Step(s, a).subs[id] == s.subs[id]
    ensures forall t :: Count(Step(s, a), id, t) == Count(s, id, t)
  {
    var c := s.calls[a.call];
    var charge := Charge(c.id, c.plan, c.snap.cycle, RenewalStart(c.snap, a.at));
    ChargeIs(c.id, c.plan, c.snap.cycle, RenewalStart(c.snap, a.at));
    hide Charge, RenewedSub, RenewalStart;
    forall t ensures Count(Step(s, a), id, t) == Count(s, id, t) {
      PendingUpdate(s.calls, a.call, Charging(c.id, charge), id, t);
    }
  }

  lemma NoSuchRow(s: System, a: Action, id: Id)
    requires SystemShaped(s) && id !in s.subs
    requires a.Continue? && a.call < |s.calls| && !s.calls[a.call].Renewing? && !s.calls[a.call].Charging?
    ensures id !in Step(s, a).subs && !Breaks(s, a, id)
  {
    hide GraceStep, UpgradeRecord, DowngradeRecord, Saved;
  }

  lemma SubscribingTiles(s: System, a: Action, id: Id)
    requires SystemShaped(s) && Tiled(s, id) && !a.Continue?
    ensures Tiled(Step(s, a), id)
  {
    var u := Step(s, a);
    forall t ensures Count(u, id, t) == Wanted(u.subs, id, t) {
      if |u.calls| > |s.calls| { PendingAppend(s.calls, u.calls[|s.calls|], id, t); }
      assert Count(s, id, t) == Wanted(s.subs, id, t);
      hide Count, Cover, PendingCover, SystemShaped;
      if a.StartSubscribe? && a.planId in s.plans && a.id !in s.subs {
        NewSubShaped(a.id, a.enterprise, a.planId, s.plans[a.planId], a.cycle, a.at);
        ChargeIs(a.id, s.plans[a.planId], a.cycle, a.at);
        hide NewSub, Charge, PeriodEnd;
      }
    }
  }

  /** From a tiled system in which no copy is ahead of its row, a step keeps the tiling exactly when it is none of the
      four that break it. */
  lemma StepTilesIff(s: System, a: Action, id: Id)
    requires SystemShaped(s) && Tiled(s, id) && Behind(s, id)
    ensures Tiled(Step(s, a), id) <==> !Breaks(s, a, id)
  {
    if !a.Continue? {
      SubscribingTiles(s, a, id);
    } else if a.call < |s.calls| {
      var c := s.calls[a.call];
      if c.Renewing? && c.id == id {
        RenewingTilesIff(s, a, id);
      } else if c.Charging? {
        ChargingTilesIff(s, a, id);
      } else {
        StepShaped(s, a);
        if c.Renewing? { OtherRenewing(s, a, id); } else {
          forall t ensures Count(Step(s, a), id, t) == Count(s, id, t) { OthersAddNoCharge(s, a, id, t); }
          if id in s.subs { OthersMoveEnd(s, a, id); } else { NoSuchRow(s, a, id); }
        }
        hide Step, Count, SystemShaped, Behind, Tiled;
        EndDecides(s, Step(s, a), id);
      }
    }
  }

  lemma RowEndGrows(s: System, a: Action, id: Id)
    requires SystemShaped(s) && Behind(s, id) && id in s.subs && !Breaks(s, a, id)
    ensures id in Step(s, a).subs && Shaped(s.subs[id]) && Shaped(Step(s, a).subs[id])
    ensures EndOf(s.subs[id]) <= EndOf(Step(s, a).subs[id])
  {
    RowsShaped(s);
    StepShaped(s, a);
    RowsShaped(Step(s, a));
    if a.Continue? && a.call < |s.calls| {
      var c := s.calls[a.call];
      assert CallShaped(s.subs, c) && CallBehind(s.subs, c, id);
      if c.Renewing? && c.id != id {
        OtherRenewing(s, a, id);
      } else if c.Renewing? {
        RenewedShaped(c.snap, a.at);
        SavedBackShaped(s.subs, id, RenewedSub(c.snap, a.at));
        hide RenewedSub, RenewalStart, Charge, SavedBack, SystemShaped, Behind;
      } else if !c.Charging? {
        OthersMoveEnd(s, a, id);
      }
    }
  }

  lemma BehindKept(s: System, a: Action, id: Id)
    requires SystemShaped(s) && Behind(s, id) && !Breaks(s, a, id)
    ensures Behind(Step(s, a), id)
  {
    var u := Step(s, a);
    StepShaped(s, a);
    RowsShaped(s);
    RowsShaped(u);
    if id in s.subs { RowEndGrows(s, a, id); }
    hide SystemShaped, Breaks, RenewedSub, RenewalStart, Charge, SavedBack, GraceStep, UpgradeRecord, DowngradeRecord, NewSub, PassSaved, CallBehind;
    forall i | 0 <= i < |s.calls| ensures CallBehind(u.subs, s.calls[i], id) {
      assert CallBehind(s.subs, s.calls[i], id);
      CallBehindGrows(s.subs, u.subs, s.calls[i], id);
    }
    if a.Continue? {
      if a.call < |s.calls| { AdvanceBehind(s, s.calls[a.call], a, u.subs, id); }
    } else {
      NewCallBehind(s, a, id);
    }
  }

  lemma CallBehindGrows(subs: map<Id, Sub>, after: map<Id, Sub>, c: Call, id: Id)
    requires CallBehind(subs, c, id)
    requires id in subs ==> id in after && Shaped(subs[id]) && Shaped(after[id]) && EndOf(subs[id]) <= EndOf(after[id])
    ensures CallBehind(after, c, id)
  {}

  lemma AdvanceBehind(s: System, c: Call, a: Action, after: map<Id, Sub>, id: Id)
    requires a.Continue? && CallBehind(after, c, id)
    ensures CallBehind(after, Advance(s, c, a).1, id)
  {}

  lemma NewCallBehind(s: System, a: Action, id: Id)
    requires SystemShaped(s) && !a.Continue?
    ensures forall i :: |s.calls| <= i < |Step(s, a).calls| ==> CallBehind(Step(s, a).subs, Step(s, a).calls[i], id)
  {
    hide Charge, NewSub;
  }

  lemma {:induction false} ReachedShaped(plans: map<Id, Plan>, actions: seq<Action>, k: nat)
    requires k <= |actions|
    ensures SystemShaped(Reached(plans, actions, k))
    decreases k
  {
    hide Step;
    if k > 0 {
      ReachedShaped(plans, actions, k - 1);
      hide SystemShaped;
      StepShaped(Reached(plans, actions, k - 1), actions[k - 1]);
    }
  }

  lemma {:induction false} TiledUpTo(plans: map<Id, Plan>, actions: seq<Action>, k: nat, id: Id)
    requires k <= |actions| && forall j :: 0 <= j < k ==> !Breaks(Reached(plans, actions, j), actions[j], id)
    ensures Tiled(Reached(plans, actions, k), id) && Behind(Reached(plans, actions, k), id)
    decreases k
  {
    hide Step, Breaks;
    if k > 0 {
      var s := Reached(plans, actions, k - 1);
      ReachedShaped(plans, actions, k - 1);
      TiledUpTo(plans, actions, k - 1, id);
      hide Tiled, Behind, SystemShaped;
      StepTilesIff(s, actions[k - 1], id);
      BehindKept(s, actions[k - 1], id);
    }
  }

  /** Throughout a run, however its calls overlap and whichever statements are refused, a subscription's charges tile the
      time from its start to its stored period end exactly when no step of the run is one of the four that break it. */
  lemma TilingKeptIff(plans: map<Id, Plan>, actions: seq<Action>, id: Id)
    ensures (forall k :: 0 <= k <= |actions| ==> Tiled(Reached(plans, actions, k), id))
       <==> forall k :: 0 <= k < |actions| ==> !Breaks(Reached(plans, actions, k), actions[k], id)
  {
    hide Step, Breaks, Tiled, Reached;
    if forall k :: 0 <= k < |actions| ==> !Breaks(Reached(plans, actions, k), actions[k], id) {
      forall k | 0 <= k <= |actions| ensures Tiled(Reached(plans, actions, k), id) { TiledUpTo(plans, actions, k, id); }
    } else {
      var k := FirstBreak(plans, actions, id);
      TiledUpTo(plans, actions, k, id);
      ReachedShaped(plans, actions, k);
      ReachedStep(plans, actions, k);
      StepTilesIff(Reached(plans, actions, k), actions[k], id);
    }
  }

  lemma ReachedStep(plans: map<Id, Plan>, actions: seq<Action>, k: nat)
    requires k < |actions|
    ensures Reached(plans, actions, k + 1) == Step(Reached(plans, actions, k), actions[k])
  {}

  lemma FirstBreak(plans: map<Id, Plan>, actions: seq<Action>, id: Id) returns (k: nat)
    requires exists j :: 0 <= j < |actions| && Breaks(Reached(plans, actions, j), actions[j], id)
    ensures k < |actions| && Breaks(Reached(plans, actions, k), actions[k], id)
    ensures forall j :: 0 <= j < k ==> !Breaks(Reached(plans, actions, j), actions[j], id)
  {
    hide Breaks, Reached;
    k := 0;
    while !Breaks(Reached(plans, actions, k), actions[k], id)
      invariant k < |actions| && forall j :: 0 <= j < k ==> !Breaks(Reached(plans, actions, j), actions[j], id)
      decreases |actions| - k
    {
      assert exists j :: k < j < |actions| && Breaks(Reached(plans, actions, j), actions[j], id);
      k := k + 1;
    }
  }

  /** Of two renewals that loaded the same period, the second to save breaks the tiling. */
  lemma SecondRenewalBreaks(s: System, i: nat, j: nat, first: Action, second: Action)
    requires SystemShaped(s) && i < |s.calls| && j < |s.calls| && i != j
    requires s.calls[i].Renewing? && s.calls[j].Renewing? && s.calls[i].id == s.calls[j].id
    requires EndOf(s.calls[i].snap) == EndOf(s.calls[j].snap)
    requires first.Continue? && first.call == i && first.ran && second.Continue? && second.call == j
    ensures Breaks(Step(s, first), second, s.calls[i].id)
  {
    var c := s.calls[i];
    assert CallShaped(s.subs, c) && CallShaped(s.subs, s.calls[j]);
    RowsShaped(s);
    RenewedShaped(c.snap, first.at);
    SavedBackShaped(s.subs, c.id, RenewedSub(c.snap, first.at));
    hide RenewedSub, RenewalStart, Charge, SavedBack, SystemShaped;
  }

  /** When no charge is about to be inserted, the stored charges alone do the tiling. */
  lemma QuietTiling(s: System, id: Id)
    requires Tiled(s, id) && forall i :: 0 <= i < |s.calls| ==> !s.calls[i].Charging?
    ensures forall t :: Cover(s.records, id, t) == Wanted(s.subs, id, t)
  {
    forall t ensures Cover(s.records, id, t) == Wanted(s.subs, id, t) {
      NothingPending(s.calls, id, t);
      assert Count(s, id, t) == Wanted(s.subs, id, t);
    }
  }

  lemma {:induction false} NothingPending(calls: seq<Call>, id: Id, t: int)
    requires forall i :: 0 <= i < |calls| ==> !calls[i].Charging?
    ensures PendingCover(calls, id, t) == 0
  {
    if calls != [] { NothingPending(calls[..|calls| - 1], id, t); }
  }

  /** From any system without calls, the steps of a new subscription do what the call does as a whole. */
  lemma UndisturbedSubscribe(s: System, id: Id, enterprise: Id, planId: Id, cycle: string, at: Moment, go: Action)
    requires s.calls == [] && go.Continue? && go.call == 0 && go.ran
    ensures var t := Step(Step(s, StartSubscribe(id, enterprise, planId, cycle, at)), go);
            Store(t.plans, t.subs, t.records) == Apply(Store(s.plans, s.subs, s.records), Subscribed(id, enterprise, planId, cycle, at))
  {
    hide PeriodEnd, Charge, NewSub;
  }

  /** So do the steps of a change of plan, up or down. */
  lemma UndisturbedPlanChange(s: System, id: Id, planId: Id, down: bool, go: Action)
    requires s.calls == [] && go.Continue? && go.call == 0 && go.ran
    ensures var t := Step(Step(Step(s, StartChange(id, planId, down)), go), go);
            var e := if down then Downgraded(id, planId, go.at.utc, go.at) else Upgraded(id, planId, go.at.utc, go.at);
            Store(t.plans, t.subs, t.records) == Apply(Store(s.plans, s.subs, s.records), e)
  {
    hide UpgradeRecord, DowngradeRecord;
    var s1 := Step(s, StartChange(id, planId, down));
    if s1.calls != [] {
      assert s.subs[id := Saved(s.subs[id], s.subs[id])] == s.subs;
    }
  }

  /** And a pass does to each subscription, when it comes to it, what the whole pass does. */
  lemma UndisturbedPassStep(s: System, go: Action)
    requires s.calls == [] && go.Continue? && go.call == 0 && go.ran && go.next in s.subs
    ensures Step(Step(s, StartPass), go).subs == s.subs[go.next := Pass(s.subs, id => go.readings)[go.next]]
  {
    hide GraceStep;
    GraceStepSaves(s.subs[go.next], go.readings);
  }

  lemma GraceStepSaves(sub: Sub, r: Readings)
    ensures GraceStep(sub, r).status == sub.status ==> GraceStep(sub, r) == sub
    ensures Saved(sub, GraceStep(sub, r)) == GraceStep(sub, r)
  {}

  /** From any system without calls, the steps of one renewal do what the call does as a whole. */
  lemma UndisturbedRenewal(s: System, id: Id, at: Moment, r: Readings)
    requires s.calls == []
    ensures var go := Continue(0, id, at, r, true);
            var t := Step(Step(Step(s, StartRenew(id)), go), go);
            Store(t.plans, t.subs, t.records) == Apply(Store(s.plans, s.subs, s.records), Renewed(id, at))
  {
    hide PeriodEnd, Charge, RenewalStart;
  }
}
