/** The ledger object: maps and lists updated in place, each method proved
    against its meaning in LedgerSpec. */
module Ledgers {
  import opened Basics
  import opened Sums
  import opened LedgerSpec

  /** A map cut down to some of its keys. */
  function Restrict(m: map<int, real>, ks: set<int>): map<int, real> {
    map k | k in ks && k in m :: m[k]
  }

  /** Visiting one more bucket moves its figure from the rest to the sum. */
  lemma VisitBucket(m: map<int, real>, rest: set<int>, h: int, start: Time, end: Time)
    requires h in rest && rest <= m.Keys
    ensures ExpectedIn(Restrict(m, rest), start, end)
         == ExpectedIn(Restrict(m, rest - {h}), start, end) + (if Begins(h, start, end) then m[h] else 0.0)
  {
    var w := Within(Restrict(m, rest), start, end);
    var w' := Within(Restrict(m, rest - {h}), start, end);
    if Begins(h, start, end) {
      SumRemove(w, h);
      assert w - {h} == w';
    } else {
      assert w == w';
    }
  }

  class Ledger {
    const periodStart: Time
    const periodEnd: Time
    var hourly: map<int, real>
    var apps: map<Text, real>
    var confirmations: seq<Confirmation>
    var discrepancies: seq<Discrepancy>

    ghost function View(): LedgerView
      reads this
    {
      LedgerView(periodStart, periodEnd, hourly, apps, confirmations, discrepancies)
    }

    constructor (start: Time, end: Time)
      requires start < end
      ensures View() == NewLedger(start, end)
    {
      periodStart, periodEnd := start, end;
      hourly, apps, confirmations, discrepancies := map[], map[], [], [];
    }

    /** There is no ledger for an empty period. */
    static method New(start: Time, end: Time) returns (l: Ledger?)
      ensures l == null <==> end <= start
      ensures l != null ==> fresh(l) && l.View() == NewLedger(start, end)
    {
      if end <= start { return null; }
      l := new Ledger(start, end);
    }

    method Accrue(now: Time, app: Text, rate: real, d: Duration)
      modifies this`hourly, this`apps
      ensures View() == AccrueSpec(old(View()), now, app, rate, d)
      ensures d > 0 && rate > 0.0 ==> Get(apps, app) == old(Get(apps, app)) + Charge(rate, d)
    {
      if d <= 0 || rate <= 0.0 {
        return;
      }
      apps := Add(apps, app, Charge(rate, d));
      var cur := now - d;
      while cur < now
        invariant now - d <= cur <= now
        invariant apps == Add(old(apps), app, Charge(rate, d))
        invariant Spread(hourly, cur, now, rate) == Spread(old(hourly), now - d, now, rate)
      {
        var h := HourKey(cur);
        var next := BucketEnd(cur);
        if next > now {
          next := now;
        }
        hourly := Add(hourly, h, Charge(rate, next - cur));
        cur := next;
      }
    }

    /** Adds up the buckets in whatever order the map yields them. */
    method ExpectedIn(start: Time, end: Time) returns (sum: real)
      ensures sum == LedgerSpec.ExpectedIn(hourly, start, end)
    {
      sum := SumWindow(hourly, start, end);
    }

    static method SumWindow(m: map<int, real>, start: Time, end: Time) returns (sum: real)
      ensures sum == LedgerSpec.ExpectedIn(m, start, end)
    {
      sum := 0.0;
      var rest := m.Keys;
      assert Restrict(m, rest) == m;
      while rest != {}
        invariant rest <= m.Keys
        invariant sum + LedgerSpec.ExpectedIn(Restrict(m, rest), start, end) == LedgerSpec.ExpectedIn(m, start, end)
        decreases rest
      {
        ghost var _ := Member(rest);
        var h :| h in rest;
        VisitBucket(m, rest, h, start, end);
        if start <= HourStart(h) && HourStart(h) < end {
          sum := sum + m[h];
        }
        rest := rest - {h};
      }
      assert Within(Restrict(m, {}), start, end) == map[];
    }

    method Confirm(c: Confirmation) returns (r: Result<Option<Discrepancy>, ConfirmError>)
      modifies this`confirmations, this`discrepancies
      ensures View() == ConfirmSpec(old(View()), c)
      ensures r == match Refusal(old(View()), c)
                   case Some(e) => Err(e)
                   case None => Ok(Disagreement(old(View()), c))
    {
      if c.usd < 0.0 {
        return Err(AmountNegative);
      } else if !(c.end > c.start) {
        return Err(WindowEmpty);
      } else if c.start < periodStart || c.end > periodEnd {
        return Err(WindowOutsidePeriod);
      }
      for i := 0 to |confirmations|
        invariant forall j :: 0 <= j < i ==> !Overlapping(c, confirmations[j])
      {
        var existing := confirmations[i];
        if c.start < existing.end && existing.start < c.end {
          assert existing in confirmations && Overlapping(c, existing);
          return Err(WindowOverlaps);
        }
      }
      var expected := ExpectedIn(c.start, c.end);
      SortIn(c);
      if expected <= 0.0 {
        return Ok(None);
      }
      ClampIsOnTheRatio(c.usd, expected);
      var ratio := c.usd / expected;
      if ratio < MIN_CALIBRATION || ratio > MAX_CALIBRATION {
        var d := Discrepancy(c, expected, ratio);
        discrepancies := discrepancies + [d];
        return Ok(Some(d));
      }
      return Ok(None);
    }

    /** Append, then sort by start: the list is already sorted, so this is an
        insertion. */
    method SortIn(c: Confirmation)
      modifies this`confirmations
      ensures confirmations == InsertByStart(old(confirmations), c)
    {
      var i := 0;
      assert confirmations[0..] == confirmations;
      while i < |confirmations| && c.start >= confirmations[i].start
        invariant 0 <= i <= |confirmations| && confirmations == old(confirmations)
        invariant confirmations[..i] + InsertByStart(confirmations[i..], c) == InsertByStart(confirmations, c)
      {
        InsertFurther(confirmations, i, c);
        i := i + 1;
      }
      InsertHere(confirmations, i, c);
      confirmations := confirmations[..i] + [c] + confirmations[i..];
    }

    /** Inside the clamp a window counts as the provider says and calibrates the
        model; outside it, the larger of the two figures counts. */
    static method Weigh(usd: real, expected: real) returns (amount: real, from: real, to: real)
      ensures amount == Counted(usd, expected)
      ensures from == CalibratesFrom(usd, expected) && to == CalibratesTo(usd, expected)
    {
      amount, from, to := usd, 0.0, 0.0;
      if expected > 0.0 {
        ClampIsOnTheRatio(usd, expected);
        var ratio := usd / expected;
        if ratio < MIN_CALIBRATION || ratio > MAX_CALIBRATION {
          amount := MaxReal(usd, expected);
        } else {
          from, to := expected, usd;
        }
      }
    }

    method Accrued() returns (a: Accrual)
      ensures a == AccruedSpec(View())
    {
      hide Counted, CalibratesFrom, CalibratesTo, Sum, Within;
      var confirmedTotal, expectedInConfirmed, calibratedFrom, calibratedTo := 0.0, 0.0, 0.0, 0.0;
      var through: Option<Time> := None;
      for i := 0 to |confirmations|
        invariant TallyOf(View(), i)
               == Tally(confirmedTotal, expectedInConfirmed, calibratedFrom, calibratedTo, through)
      {
        var c := confirmations[i];
        var expected := ExpectedIn(c.start, c.end);
        var amount, from, to := Weigh(c.usd, expected);
        calibratedFrom := calibratedFrom + from;
        calibratedTo := calibratedTo + to;
        confirmedTotal := confirmedTotal + amount;
        expectedInConfirmed := expectedInConfirmed + expected;
        if through.None? || c.end > through.value {
          through := Some(c.end);
        }
      }
      var calibration := 1.0;
      if calibratedFrom > 0.0 {
        calibration := calibratedTo / calibratedFrom;
      }
      var rawExpected := ExpectedIn(periodStart, periodEnd);
      rawExpected := rawExpected - expectedInConfirmed;
      if rawExpected < 0.0 {
        rawExpected := 0.0;
      }
      var expected := rawExpected * calibration;
      a := Accrual(confirmedTotal, expected, confirmedTotal + expected,
                   |confirmations| > 0, through, calibration, discrepancies);
    }
  }
}
