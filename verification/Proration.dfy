/** Plans, subscriptions and the price of changing plan within a period. Amounts are real numbers and time is counted in
    whole seconds. */
module Proration {
  import opened Common
  import opened Calendar

  type Id = string

  datatype Plan = Plan(price: real, monthly: real, yearly: real)

  /** A stored time text: one that parses as RFC 3339, or one that does not. */
  datatype Stamp = At(moment: Moment) | Garbled(text: string)

  datatype Sub = Sub(enterpriseId: Id, planId: Id, status: string, startAt: Option<Stamp>, endAt: Option<Stamp>,
                     autoRenew: bool, periodStart: Option<Stamp>, periodEnd: Option<Stamp>, graceEnd: Option<Stamp>,
                     cycle: string)

  function EffectivePrice(plan: Plan, cycle: string): real {
    var listed := if cycle == "yearly" then plan.yearly else plan.monthly;
    if listed == 0.0 then plan.price else listed
  }

  /** The amount is the listed price of the cycle, or the plan's basic price if the cycle has none. */
  predicate ListedAmount(plan: Plan, cycle: string, amount: real) {
    && (cycle == "yearly" && plan.yearly != 0.0 ==> amount == plan.yearly)
    && (cycle == "yearly" && plan.yearly == 0.0 ==> amount == plan.price)
    && (cycle != "yearly" && plan.monthly != 0.0 ==> amount == plan.monthly)
    && (cycle != "yearly" && plan.monthly == 0.0 ==> amount == plan.price)
  }

  lemma EffectivePriceIsListed(plan: Plan, cycle: string)
    ensures ListedAmount(plan, cycle, EffectivePrice(plan, cycle))
  {}

  function CalculateProration(sub: Sub, was: Plan, becomes: Plan, now: int): real {
    match (sub.periodStart, sub.periodEnd)
    case (Some(At(start)), Some(At(end))) =>
      var totalDays := (end.utc - start.utc) as real / 86400.0;
      if totalDays <= 0.0 then becomes.price - was.price
      else
        var until := if now > end.utc then end.utc else now;
        var remainingDays := (end.utc - until) as real / 86400.0;
        var kept := if remainingDays < 0.0 then 0.0 else remainingDays;
        (EffectivePrice(becomes, sub.cycle) - EffectivePrice(was, sub.cycle)) * kept / totalDays
    case _ => becomes.price - was.price
  }

  /** The subscription has a period of positive length, so that a change of plan is charged by time. */
  predicate Timed(sub: Sub) {
    && sub.periodStart.Some? && sub.periodStart.value.At?
    && sub.periodEnd.Some? && sub.periodEnd.value.At?
    && sub.periodStart.value.moment.utc < sub.periodEnd.value.moment.utc
  }

  /** The price of the plan that a change of plan looks at. */
  function Price(sub: Sub, plan: Plan): real {
    if Timed(sub) then EffectivePrice(plan, sub.cycle) else plan.price
  }

  function Difference(sub: Sub, was: Plan, becomes: Plan): real {
    Price(sub, becomes) - Price(sub, was)
  }

  /** The part of the period that is still ahead; all of it when time plays no part. */
  function Ahead(sub: Sub, now: int): (share: real)
    ensures share >= 0.0
    ensures share == 0.0 <==> Timed(sub) && now >= sub.periodEnd.value.moment.utc
    ensures share <= 1.0 <==> Timed(sub) ==> now >= sub.periodStart.value.moment.utc
  {
    if !Timed(sub) then 1.0
    else
      var start, end := sub.periodStart.value.moment.utc, sub.periodEnd.value.moment.utc;
      if now >= end then 0.0
      else
        RatioBound((end - now) as real, (end - start) as real);
        (end - now) as real / (end - start) as real
  }

  lemma RatioBound(a: real, b: real)
    requires b > 0.0
    ensures a / b <= 1.0 <==> a <= b
    ensures a / b > 0.0 <==> a > 0.0
  {
    var q := a / b;
    assert q * b == a && (1.0 - q) * b == b - a;
    ProductSign(q, b);
    ProductSign(1.0 - q, b);
  }

  /** A quote is the price difference times the share of the period ahead. */
  lemma QuoteIsShare(sub: Sub, was: Plan, becomes: Plan, now: int)
    ensures CalculateProration(sub, was, becomes, now) == Difference(sub, was, becomes) * Ahead(sub, now)
  {}

  function Abs(x: real): real {
    if x < 0.0 then -x else x
  }

  /** A quote is positive (negative) exactly when the plan becomes dearer (cheaper) and time is left. */
  lemma QuoteSign(sub: Sub, was: Plan, becomes: Plan, now: int)
    ensures var timeLeft := Timed(sub) ==> now < sub.periodEnd.value.moment.utc;
            && (CalculateProration(sub, was, becomes, now) > 0.0 <==> Price(sub, becomes) > Price(sub, was) && timeLeft)
            && (CalculateProration(sub, was, becomes, now) < 0.0 <==> Price(sub, becomes) < Price(sub, was) && timeLeft)
  {
    QuoteIsShare(sub, was, becomes, now);
    var d, f := Difference(sub, was, becomes), Ahead(sub, now);
    ProductSign(d, f);
    assert CalculateProration(sub, was, becomes, now) == d * f;
  }

  lemma ProductSign(d: real, f: real)
    requires f >= 0.0
    ensures d * f > 0.0 <==> d > 0.0 && f > 0.0
    ensures d * f < 0.0 <==> d < 0.0 && f > 0.0
  {}

  /** Changing over and back costs nothing, and at one instant a change in two steps costs the direct change. */
  lemma QuotesTelescope(sub: Sub, a: Plan, b: Plan, c: Plan, now: int)
    ensures CalculateProration(sub, a, b, now) == -CalculateProration(sub, b, a, now)
    ensures CalculateProration(sub, a, b, now) + CalculateProration(sub, b, c, now) == CalculateProration(sub, a, c, now)
  {}

  lemma ProductBound(d: real, f: real)
    requires f >= 0.0
    ensures Abs(d * f) == Abs(d) * f
    ensures Abs(d * f) <= Abs(d) <==> d == 0.0 || f <= 1.0
  {
    if f > 1.0 && d != 0.0 { assert Abs(d) * (f - 1.0) > 0.0; }
    if f <= 1.0 { assert Abs(d) * (1.0 - f) >= 0.0; }
  }

  /** A quote stays within the full price difference exactly when the period has begun. A subscription renewed early
      has a period that begins in the future, and is quoted more. */
  lemma QuoteWithinDifferenceIff(sub: Sub, was: Plan, becomes: Plan, now: int)
    ensures Abs(CalculateProration(sub, was, becomes, now)) <= Abs(Difference(sub, was, becomes))
       <==> Difference(sub, was, becomes) == 0.0 || (Timed(sub) ==> now >= sub.periodStart.value.moment.utc)
  {
    QuoteIsShare(sub, was, becomes, now);
    ProductBound(Difference(sub, was, becomes), Ahead(sub, now));
  }

  lemma ProductMonotone(d: real, f: real, g: real)
    requires 0.0 <= f <= g
    ensures Abs(d * f) <= Abs(d * g)
  {
    ProductSign(d, f);
    ProductSign(d, g - f);
    assert d * g == d * f + d * (g - f);
  }

  lemma AheadShrinks(sub: Sub, now: int, later: int)
    requires now <= later
    ensures Ahead(sub, later) <= Ahead(sub, now)
  {
    if Timed(sub) {
      var start, end := sub.periodStart.value.moment.utc, sub.periodEnd.value.moment.utc;
      if later < end {
        var total := (end - start) as real;
        assert (end - now) as real / total - (end - later) as real / total == (later - now) as real / total;
      }
    }
  }

  /** Waiting never makes a quote larger. */
  lemma QuoteShrinksWithTime(sub: Sub, was: Plan, becomes: Plan, now: int, later: int)
    requires now <= later
    ensures Abs(CalculateProration(sub, was, becomes, later)) <= Abs(CalculateProration(sub, was, becomes, now))
  {
    QuoteIsShare(sub, was, becomes, now);
    QuoteIsShare(sub, was, becomes, later);
    AheadShrinks(sub, now, later);
    var d, f, g := Difference(sub, was, becomes), Ahead(sub, later), Ahead(sub, now);
    ProductMonotone(d, f, g);
  }
}
