/** What subscriptions are charged over a run, in terms of the prices that their plans list. */
module BillingAmounts {
  import opened Common
  import opened Calendar
  import opened Proration
  import opened Billing

  lemma ChargeIsListed(id: Id, plan: Plan, cycle: string, start: Moment)
    ensures ListedAmount(plan, cycle, Charge(id, plan, cycle, start).amount)
    ensures ListedAmount(plan, if cycle == "" then "monthly" else cycle, Charge(id, plan, cycle, start).amount)
  {
    hide PeriodEnd;
  }

  /** The charge is of a stored subscription and has the amount that its plan lists for its cycle. */
  predicate RecordOk(st: Store, record: Record) {
    && record.subId in st.subs && st.subs[record.subId].planId in st.plans
    && ListedAmount(st.plans[st.subs[record.subId].planId], st.subs[record.subId].cycle, record.amount)
  }

  ghost predicate AmountsOk(st: Store) {
    forall k :: 0 <= k < |st.records| && st.records[k].kind == "charge" ==> RecordOk(st, st.records[k])
  }

  /** No event changes a plan, or the plan and the cycle of a stored subscription. */
  lemma ApplyKeepsPlans(st: Store, e: Event)
    ensures Apply(st, e).plans == st.plans
    ensures forall id :: id in st.subs ==>
              && id in Apply(st, e).subs && Apply(st, e).subs[id].planId == st.subs[id].planId
              && Apply(st, e).subs[id].cycle == st.subs[id].cycle
  {
    hide PeriodEnd, CalculateProration, EffectivePrice, NewSub;
  }

  lemma ApplyKeepsAmounts(st: Store, e: Event)
    requires AmountsOk(st)
    ensures AmountsOk(Apply(st, e))
  {
    var after := Apply(st, e);
    ApplyKeepsPlans(st, e);
    if e.Subscribed? && e.planId in st.plans { ChargeIsListed(e.id, st.plans[e.planId], e.cycle, e.at); }
    if e.Renewed? && e.id in st.subs && st.subs[e.id].planId in st.plans {
      ChargeIsListed(e.id, st.plans[st.subs[e.id].planId], st.subs[e.id].cycle, RenewalStart(st.subs[e.id], e.at));
    }
    hide PeriodEnd, CalculateProration, EffectivePrice, ListedAmount, RenewedSub, GraceStep;
    forall k | 0 <= k < |after.records| && after.records[k].kind == "charge" ensures RecordOk(after, after.records[k]) {
      if k < |st.records| { assert RecordOk(st, st.records[k]); }
    }
  }

  /** Over every run, each charge has the amount that its subscription's plan lists for its subscription's cycle. */
  lemma {:induction false} ChargesAreListed(plans: map<Id, Plan>, events: seq<Event>)
    ensures After(plans, events).plans == plans && AmountsOk(After(plans, events))
    decreases |events|
  {
    if events != [] {
      ChargesAreListed(plans, events[..|events| - 1]);
      ApplyKeepsAmounts(After(plans, events[..|events| - 1]), events[|events| - 1]);
      ApplyKeepsPlans(After(plans, events[..|events| - 1]), events[|events| - 1]);
    }
  }

  // ---------------------------------------------------------------------------------------------
  // Monthly prices and yearly subscriptions

  /** The records of one subscription. */
  function RecordsOf(records: seq<Record>, id: Id): seq<Record> {
    if records == [] then []
    else
      var last := records[|records| - 1];
      RecordsOf(records[..|records| - 1], id) + if last.subId == id then [last] else []
  }

  /** The two price lists differ in monthly prices only. */
  predicate MonthlyDiffers(plans: map<Id, Plan>, others: map<Id, Plan>) {
    && others.Keys == plans.Keys
    && forall p :: p in plans ==> others[p].yearly == plans[p].yearly && others[p].price == plans[p].price
  }

  /** If the event names a plan for this subscription, the plan lists a yearly price. */
  predicate NamesYearly(plans: map<Id, Plan>, e: Event, id: Id) {
    (e.Subscribed? || e.Upgraded? || e.Downgraded?) && e.id == id && e.planId in plans ==> plans[e.planId].yearly != 0.0
  }

  predicate TimedYearly(st: Store, id: Id) {
    id in st.subs ==> Timed(st.subs[id]) && st.subs[id].planId in st.plans && st.plans[st.subs[id].planId].yearly != 0.0
  }

  ghost predicate SameForYearly(st: Store, other: Store, id: Id) {
    && MonthlyDiffers(st.plans, other.plans) && other.subs == st.subs && TimedYearly(st, id)
    && (id !in st.subs ==> RecordsOf(st.records, id) == [] && RecordsOf(other.records, id) == [])
    && (id in st.subs && st.subs[id].cycle == "yearly" ==> RecordsOf(st.records, id) == RecordsOf(other.records, id))
  }

  lemma YearlyChargeIs(id: Id, plan: Plan, other: Plan, start: Moment)
    requires plan.yearly != 0.0 && other.yearly == plan.yearly
    ensures Charge(id, plan, "yearly", start) == Charge(id, other, "yearly", start)
  {
    hide PeriodEnd;
  }

  /** A quote for a yearly subscription does not look at monthly prices. */
  lemma YearlyQuoteIs(sub: Sub, was: Plan, becomes: Plan, was': Plan, becomes': Plan, now: int)
    requires sub.cycle == "yearly" && Timed(sub) && was.yearly != 0.0 && becomes.yearly != 0.0
    requires was'.yearly == was.yearly && becomes'.yearly == becomes.yearly
    ensures CalculateProration(sub, was, becomes, now) == CalculateProration(sub, was', becomes', now)
  {}

  lemma NewIsTimed(enterprise: Id, planId: Id, cycle: string, at: Moment)
    ensures Timed(NewSub(enterprise, planId, cycle, at))
  {
    PeriodLength(at, cycle);
    hide PeriodEnd;
  }

  lemma RenewedIsTimed(sub: Sub, at: Moment)
    ensures Timed(RenewedSub(sub, at))
  {
    PeriodLength(RenewalStart(sub, at), sub.cycle);
    hide PeriodEnd;
  }

  lemma GraceStepIsTimed(sub: Sub, r: Readings)
    requires Timed(sub)
    ensures Timed(GraceStep(sub, r)) && GraceStep(sub, r).planId == sub.planId && GraceStep(sub, r).cycle == sub.cycle
  {}

  lemma ApplyKeepsTimed(st: Store, e: Event, id: Id)
    requires TimedYearly(st, id) && NamesYearly(st.plans, e, id)
    ensures TimedYearly(Apply(st, e), id)
  {
    if e.Subscribed? { NewIsTimed(e.enterprise, e.planId, e.cycle, e.at); }
    if e.Renewed? && e.id in st.subs { RenewedIsTimed(st.subs[e.id], e.at); }
    if e.Passed? && id in st.subs && Timed(st.subs[id]) { GraceStepIsTimed(st.subs[id], e.clock(id)); }
    hide PeriodEnd, CalculateProration, Charge, NewSub, RenewedSub, GraceStep, Timed;
    SubscribedIs(st, e);
    RenewedKeeps(st, e);
  }

  lemma SubscribedIs(st: Store, e: Event)
    ensures e.Subscribed? ==> NewSub(e.enterprise, e.planId, e.cycle, e.at).planId == e.planId
    ensures e.Subscribed? ==> (NewSub(e.enterprise, e.planId, e.cycle, e.at).cycle == "yearly" <==> e.cycle == "yearly")
  {}

  lemma RenewedKeeps(st: Store, e: Event)
    ensures e.Renewed? && e.id in st.subs ==> RenewedSub(st.subs[e.id], e.at).planId == st.subs[e.id].planId
                                              && RenewedSub(st.subs[e.id], e.at).cycle == st.subs[e.id].cycle
  {}

  /** The record that an event adds, if any. */
  function Added(st: Store, e: Event): seq<Record> {
    match e
    case Subscribed(id, enterprise, planId, cycle, at) =>
      if planId !in st.plans || id in st.subs then [] else [Charge(id, st.plans[planId], cycle, at)]
    case Renewed(id, at) =>
      if id !in st.subs || st.subs[id].planId !in st.plans then []
      else [Charge(id, st.plans[st.subs[id].planId], st.subs[id].cycle, RenewalStart(st.subs[id], at))]
    case Passed(clock) => []
    case Upgraded(id, planId, quotedAt, at) =>
      if id !in st.subs || st.subs[id].planId !in st.plans || planId !in st.plans then []
      else [UpgradeRecord(id, st.subs[id], st.plans[st.subs[id].planId], st.plans[planId], quotedAt, at)]
    case Downgraded(id, planId, quotedAt, at) =>
      if id !in st.subs || st.subs[id].planId !in st.plans || planId !in st.plans then []
      else [DowngradeRecord(id, st.subs[id], st.plans[st.subs[id].planId], st.plans[planId], quotedAt, at)]
  }

  lemma AddedIs(st: Store, e: Event)
    ensures Apply(st, e).records == st.records + Added(st, e)
  {
    hide PeriodEnd, Charge, UpgradeRecord, DowngradeRecord, NewSub, RenewedSub;
  }

  /** The record that an event adds to a yearly subscription does not depend on monthly prices. */
  lemma AddedSame(st: Store, other: Store, e: Event, id: Id)
    requires MonthlyDiffers(st.plans, other.plans) && other.subs == st.subs
    requires TimedYearly(st, id) && NamesYearly(st.plans, e, id)
    requires if e.Subscribed? && e.id == id then e.cycle == "yearly" else id in st.subs && st.subs[id].cycle == "yearly"
    ensures RecordsOf(Added(st, e), id) == RecordsOf(Added(other, e), id)
  {
    RecordIsOf(st, e);
    RecordIsOf(other, e);
    if !e.Passed? && e.id == id {
      if e.Subscribed? && e.planId in st.plans { YearlyChargeIs(id, st.plans[e.planId], other.plans[e.planId], e.at); }
      if !e.Subscribed? {
        var sub := st.subs[id];
        var was, was' := st.plans[sub.planId], other.plans[sub.planId];
        if e.Renewed? {
          YearlyChargeIs(id, was, was', RenewalStart(sub, e.at));
        } else if e.planId in st.plans {
          YearlyQuoteIs(sub, was, st.plans[e.planId], was', other.plans[e.planId], e.quotedAt);
        }
      }
      hide PeriodEnd, CalculateProration, Charge, RenewalStart, Timed, EffectivePrice;
      assert Added(st, e) == Added(other, e);
    } else {
      hide Added;
      NoneOfOthers(Added(st, e), id);
      NoneOfOthers(Added(other, e), id);
    }
  }

  lemma RecordIsOf(st: Store, e: Event)
    ensures Added(st, e) == [] || (!e.Passed? && |Added(st, e)| == 1 && Added(st, e)[0].subId == e.id)
  {
    hide PeriodEnd, CalculateProration, EffectivePrice;
  }

  lemma {:induction false} NoneOfOthers(records: seq<Record>, id: Id)
    requires forall k :: 0 <= k < |records| ==> records[k].subId != id
    ensures RecordsOf(records, id) == []
  {
    if records != [] { NoneOfOthers(records[..|records| - 1], id); }
  }

  lemma {:induction false} RecordsConcat(a: seq<Record>, b: seq<Record>, id: Id)
    ensures RecordsOf(a + b, id) == RecordsOf(a, id) + RecordsOf(b, id)
  {
    if b == [] {
      assert a + b == a;
    } else {
      assert (a + b)[..|a + b| - 1] == a + b[..|b| - 1];
      RecordsConcat(a, b[..|b| - 1], id);
    }
  }

  lemma ApplyKeepsSubsSame(st: Store, other: Store, e: Event)
    requires MonthlyDiffers(st.plans, other.plans) && other.subs == st.subs
    ensures Apply(other, e).subs == Apply(st, e).subs
  {
    hide PeriodEnd, Charge, UpgradeRecord, DowngradeRecord, NewSub, RenewedSub;
  }

  lemma ApplyKeepsSame(st: Store, other: Store, e: Event, id: Id)
    requires SameForYearly(st, other, id) && NamesYearly(st.plans, e, id)
    ensures SameForYearly(Apply(st, e), Apply(other, e), id)
  {
    ApplyKeepsTimed(st, e, id);
    ApplyKeepsPlans(st, e);
    ApplyKeepsPlans(other, e);
    ApplyKeepsSubsSame(st, other, e);
    AddedIs(st, e);
    AddedIs(other, e);
    RecordsConcat(st.records, Added(st, e), id);
    RecordsConcat(other.records, Added(other, e), id);
    NewRowIs(st, e, id);
    var after := Apply(st, e);
    hide Apply, Added, RecordsOf, TimedYearly, MonthlyDiffers;
    if id in after.subs {
      NewRowIs(other, e, id);
      if after.subs[id].cycle == "yearly" && !(id in st.subs && e.Subscribed? && e.id == id) { AddedSame(st, other, e, id); }
    } else {
      NoRowNoRecord(st, e, id);
      NoRowNoRecord(other, e, id);
    }
  }

  /** How a row comes into being, and that its cycle is the one asked for. */
  lemma NewRowIs(st: Store, e: Event, id: Id)
    ensures id in Apply(st, e).subs && id !in st.subs ==>
              e.Subscribed? && e.id == id && (Apply(st, e).subs[id].cycle == "yearly" <==> e.cycle == "yearly")
    ensures id in st.subs && e.Subscribed? && e.id == id ==> Added(st, e) == []
  {
    hide PeriodEnd, Charge;
  }

  lemma NoRowNoRecord(st: Store, e: Event, id: Id)
    requires id !in Apply(st, e).subs
    ensures RecordsOf(Added(st, e), id) == []
  {
    hide PeriodEnd, Charge, UpgradeRecord, DowngradeRecord, NewSub, RenewedSub;
    assert e.Passed? || e.id != id || Added(st, e) == [];
    RecordIsOf(st, e);
    hide Added;
    NoneOfOthers(Added(st, e), id);
  }

  /** Changing only monthly prices changes no charge and no quote of a yearly subscription whose plans list a yearly
      price, over any run. */
  lemma {:induction false} MonthlyPriceIsIrrelevant(plans: map<Id, Plan>, others: map<Id, Plan>, events: seq<Event>, id: Id)
    requires MonthlyDiffers(plans, others) && forall k :: 0 <= k < |events| ==> NamesYearly(plans, events[k], id)
    ensures SameForYearly(After(plans, events), After(others, events), id)
    ensures var st, other := After(plans, events), After(others, events);
            && other.subs == st.subs
            && (id in st.subs && st.subs[id].cycle == "yearly" ==> RecordsOf(other.records, id) == RecordsOf(st.records, id))
    decreases |events|
  {
    hide NamesYearly, Apply;
    if events != [] {
      var n := |events| - 1;
      assert forall k :: 0 <= k < n ==> events[..n][k] == events[k];
      MonthlyPriceIsIrrelevant(plans, others, events[..n], id);
      ChargesAreListed(plans, events[..n]);
      hide SameForYearly;
      ApplyKeepsSame(After(plans, events[..n]), After(others, events[..n]), events[n], id);
    }
  }
}
