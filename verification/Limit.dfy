/** Where an instance stands against its cost limit. */
module Limits {
  import opened Basics
  import opened LedgerSpec

  datatype Level = LevelOk | LevelWarn50 | LevelWarn75 | LevelWarn90 | LevelReached {
    /** Only a limit actually reached authorises stopping anything. */
    predicate Acts() { LevelReached? }
  }

  datatype Assessment = Assessment(
    total: real, limit: real, fraction: real, level: Level,
    projected: real, projectedOver: bool, projectedAt: Option<Time>)

  function LevelOf(fraction: real): Level {
    if fraction >= 1.0 then LevelReached
    else if fraction >= 0.9 then LevelWarn90
    else if fraction >= 0.75 then LevelWarn75
    else if fraction >= 0.5 then LevelWarn50
    else LevelOk
  }

  function Assess(total: real, limit: real, ratePerHour: real, now: Time, periodEnd: Time): Assessment {
    if limit <= 0.0 then
      Assessment(total, limit, 0.0, LevelOk, 0.0, false, None)
    else
      var a := Assessment(total, limit, total / limit, LevelOf(total / limit), total, false, None);
      var remaining := periodEnd - now;
      if remaining <= 0 || ratePerHour <= 0.0 then a
      else
        var projected := total + Charge(ratePerHour, remaining);
        if projected > limit && a.level != LevelReached then
          var hoursToLimit := (limit - total) / ratePerHour;
          a.(projected := projected, projectedOver := true,
             projectedAt := Some(now + (hoursToLimit * 3_600_000_000_000.0).Floor))
        else a.(projected := projected)
  }

  /** The assessment acts exactly when a configured limit has been accrued. */
  lemma ActsIffReached(total: real, limit: real, ratePerHour: real, now: Time, periodEnd: Time)
    ensures Assess(total, limit, ratePerHour, now, periodEnd).level.Acts() <==> limit > 0.0 && total >= limit
  {
    if limit > 0.0 {
      var f := total / limit;
      assert total == f * limit;
      SignOfFactor(f - 1.0, limit);
    }
  }

  lemma FractionAtLeast(total: real, limit: real, part: real)
    requires limit > 0.0
    ensures total / limit >= part <==> total >= part * limit
  {
    var f := total / limit;
    assert total - part * limit == (f - part) * limit;
    SignOfFactor(f - part, limit);
  }

  /** The four warnings, in money: from half of the limit, from three quarters, from
      nine tenths, and from the limit itself; and none at all without a limit. */
  lemma WarnsInMoney(total: real, limit: real, ratePerHour: real, now: Time, periodEnd: Time)
    ensures
      var a := Assess(total, limit, ratePerHour, now, periodEnd);
      && a.total == total && a.limit == limit
      && (limit <= 0.0 ==> a == Assessment(total, limit, 0.0, LevelOk, 0.0, false, None))
      && (limit > 0.0 ==>
            && a.fraction * limit == total
            && (a.level == LevelOk <==> total < 0.5 * limit)
            && (a.level == LevelWarn50 <==> 0.5 * limit <= total < 0.75 * limit)
            && (a.level == LevelWarn75 <==> 0.75 * limit <= total < 0.9 * limit)
            && (a.level == LevelWarn90 <==> 0.9 * limit <= total < limit)
            && (a.level == LevelReached <==> limit <= total))
  {
    if limit > 0.0 {
      FractionAtLeast(total, limit, 0.5);
      FractionAtLeast(total, limit, 0.75);
      FractionAtLeast(total, limit, 0.9);
      FractionAtLeast(total, limit, 1.0);
    }
  }

  /** What is projected is the total and the rate over what is left of the period; and
      the instant a projection names is the last nanosecond the limit is not passed at,
      at this rate. */
  lemma ProjectsTheRate(total: real, limit: real, ratePerHour: real, now: Time, periodEnd: Time)
    requires limit > 0.0
    ensures
      var a := Assess(total, limit, ratePerHour, now, periodEnd);
      && a.projected == total + (if now < periodEnd && ratePerHour > 0.0 then Charge(ratePerHour, periodEnd - now) else 0.0)
      && (a.projectedAt.Some? <==> a.projectedOver)
      && (a.projectedOver ==>
            && total + Charge(ratePerHour, a.projectedAt.value - now) <= limit
            && limit < total + Charge(ratePerHour, a.projectedAt.value + 1 - now))
  {
    var a := Assess(total, limit, ratePerHour, now, periodEnd);
    if a.projectedOver {
      hide LevelOf, Charge;
      CrossesAt(limit - total, ratePerHour, ((limit - total) / ratePerHour * 3_600_000_000_000.0).Floor);
    }
  }

  lemma CrossesAt(gap: real, rate: real, n: int)
    requires rate > 0.0 && n == (gap / rate * 3_600_000_000_000.0).Floor
    ensures Charge(rate, n) <= gap < Charge(rate, n + 1)
  {
    var h := gap / rate;
    assert gap == h * rate;
    assert Hours(n) <= h && h < Hours(n + 1);
    assert (h - Hours(n)) * rate == gap - Charge(rate, n);
    SignOfFactor(h - Hours(n), rate);
    assert (Hours(n + 1) - h) * rate == Charge(rate, n + 1) - gap;
    assert (h - Hours(n + 1)) * rate == gap - Charge(rate, n + 1);
    SignOfFactor(h - Hours(n + 1), rate);
  }

  /** A projection warns and never acts: it is given exactly when the limit is not
      reached yet but is, at this rate, before the period ends; and the instant it
      names lies between now and then. */
  lemma ProjectionNeverActs(total: real, limit: real, ratePerHour: real, now: Time, periodEnd: Time)
    ensures var a := Assess(total, limit, ratePerHour, now, periodEnd);
            && (a.projectedOver
                <==> 0.0 < limit && total < limit && now < periodEnd && ratePerHour > 0.0
                     && total + Charge(ratePerHour, periodEnd - now) > limit)
            && (a.projectedOver ==>
                  && !a.level.Acts()
                  && limit < a.projected
                  && a.projectedAt.Some? && now <= a.projectedAt.value <= periodEnd)
  {
    var a := Assess(total, limit, ratePerHour, now, periodEnd);
    ActsIffReached(total, limit, ratePerHour, now, periodEnd);
    if a.projectedOver {
      CrossingTime(limit - total, ratePerHour, periodEnd - now);
    }
  }

  /** A sum that the rate exceeds within d is reached within d. */
  lemma CrossingTime(gap: real, rate: real, d: Duration)
    requires gap > 0.0 && rate > 0.0 && d > 0 && gap < Charge(rate, d)
    ensures 0 <= ((gap / rate) * 3_600_000_000_000.0).Floor <= d
  {
    var h := gap / rate;
    assert gap == h * rate;
    SignOfFactor(h, rate);
    assert (Hours(d) - h) * rate == Charge(rate, d) - gap;
    SignOfFactor(Hours(d) - h, rate);
    assert Hours(d) * 3_600_000_000_000.0 == d as real;
  }
}
