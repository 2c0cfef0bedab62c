/** The cost ledger as a value: what each entry point of the ledger means, and
    the arithmetic of spreading an interval over hour buckets. */
module LedgerSpec {
  import opened Basics
  import opened Sums

  /** An instant, in nanoseconds from the Unix epoch; a duration, in nanoseconds. */
  type Time = int
  type Duration = int

  /** When hour h begins. */
  function HourStart(h: int): Time { h * 3_600_000_000_000 }

  const MIN_CALIBRATION := 0.5
  const MAX_CALIBRATION := 2.0

  datatype Confirmation = Confirmation(start: Time, end: Time, usd: real, asOf: Time)

  datatype Discrepancy = Discrepancy(confirmation: Confirmation, expected: real, ratio: real)

  datatype ConfirmError = AmountNegative | WindowEmpty | WindowOutsidePeriod | WindowOverlaps

  datatype Accrual = Accrual(
    confirmed: real, expected: real, total: real,
    hasConfirmation: bool, confirmedThrough: Option<Time>,
    calibration: real, discrepancies: seq<Discrepancy>)

  datatype LedgerView = LedgerView(
    start: Time, end: Time,
    hourly: map<int, real>, apps: map<Text, real>,
    confirmations: seq<Confirmation>, discrepancies: seq<Discrepancy>)

  function NewLedger(start: Time, end: Time): LedgerView {
    LedgerView(start, end, map[], map[], [], [])
  }

  // ---------------------------------------------------------------- hours

  function Hours(d: Duration): real { d as real / 3_600_000_000_000.0 }

  /** What an interval of length d costs. */
  function Charge(rate: real, d: Duration): real { rate * Hours(d) }

  lemma ChargeAdds(rate: real, a: Duration, b: Duration)
    ensures Charge(rate, a) + Charge(rate, b) == Charge(rate, a + b)
  {
    assert Hours(a) + Hours(b) == Hours(a + b);
    assert rate * Hours(a) + rate * Hours(b) == rate * (Hours(a) + Hours(b));
  }

  lemma ChargePositive(rate: real, d: Duration)
    requires rate > 0.0 && d > 0
    ensures Charge(rate, d) > 0.0
  {
    assert Hours(d) > 0.0;
  }

  /** The bucket an instant falls in. Seconds are floored and the hour division
      truncates toward zero, as Go's Unix() and integer division do. */
  function HourKey(t: Time): int {
    var s := t / 1_000_000_000;
    if s >= 0 then s / 3600 else -((-s) / 3600)
  }

  /** Where the bucket of t ends: always strictly after t, so a cursor advances. */
  function BucketEnd(t: Time): (next: Time)
    ensures t < next
  {
    HourStart(HourKey(t) + 1)
  }

  lemma HourKeyBounds(t: Time)
    requires 0 <= t
    ensures HourStart(HourKey(t)) <= t < HourStart(HourKey(t) + 1)
  {
  }

  /** Before 1970 an instant falls in the bucket that begins less than an hour after its
      second, or with it: the division rounds toward zero. */
  lemma HourKeyTruncates(t: Time)
    requires t < 0
    ensures
      var second := t / 1_000_000_000 * 1_000_000_000;
      HourStart(HourKey(t) - 1) < second <= HourStart(HourKey(t))
  {
  }

  // ---------------------------------------------------------------- accrue

  /** Charge [cur, now) at rate, bucket by bucket. */
  function Spread(hourly: map<int, real>, cur: Time, now: Time, rate: real): map<int, real>
    decreases now - cur
  {
    if cur >= now then hourly
    else
      var next := Min(BucketEnd(cur), now);
      Spread(Add(hourly, HourKey(cur), Charge(rate, next - cur)), next, now, rate)
  }

  function AccrueSpec(v: LedgerView, now: Time, app: Text, rate: real, d: Duration): LedgerView {
    if d <= 0 || rate <= 0.0 then v
    else v.(apps := Add(v.apps, app, Charge(rate, d)),
            hourly := Spread(v.hourly, now - d, now, rate))
  }

  /** How much of hour h the interval [from, to) covers, measured independently
      of any cursor. */
  function Overlap(h: int, from: Time, to: Time): (d: Duration)
    ensures d >= 0
  {
    Max(0, Min(to, HourStart(h + 1)) - Max(from, HourStart(h)))
  }

  lemma OverlapSplits(h: int, a: Time, b: Time, c: Time)
    requires a <= b <= c
    ensures Overlap(h, a, b) + Overlap(h, b, c) == Overlap(h, a, c)
  {
  }

  lemma OverlapInOneBucket(h: int, from: Time, to: Time)
    requires 0 <= from < to <= BucketEnd(from)
    ensures Overlap(h, from, to) == if h == HourKey(from) then to - from else 0
  {
    HourKeyBounds(from);
    var k := HourKey(from);
    if h < k {
      assert HourStart(h + 1) <= HourStart(k);
    } else if h > k {
      assert HourStart(k + 1) <= HourStart(h);
    }
  }

  /** One bucket's worth of an interval is charged to that bucket. */
  lemma BucketGrows(hourly: map<int, real>, cur: Time, next: Time, rate: real, h: int)
    requires 0 <= cur < next <= BucketEnd(cur)
    ensures
      var step := Add(hourly, HourKey(cur), Charge(rate, next - cur));
      && Get(step, h) == Get(hourly, h) + Charge(rate, Overlap(h, cur, next))
      && (h in step <==> h in hourly || Overlap(h, cur, next) > 0)
  {
    hide Overlap, HourKey, BucketEnd;
    OverlapInOneBucket(h, cur, next);
    assert Charge(rate, 0) == 0.0;
  }

  lemma NoOverlap(h: int, t: Time, rate: real)
    ensures Overlap(h, t, t) == 0 && Charge(rate, Overlap(h, t, t)) == 0.0
  {
  }

  /** Every hour bucket grows by exactly what its overlap with the interval
      costs, and a bucket exists only where there was one or the interval
      touches its hour. */
  lemma {:induction false} SpreadIsExact(hourly: map<int, real>, cur: Time, now: Time, rate: real, h: int)
    requires 0 <= cur <= now
    ensures Get(Spread(hourly, cur, now, rate), h) == Get(hourly, h) + Charge(rate, Overlap(h, cur, now))
    ensures h in Spread(hourly, cur, now, rate) <==> h in hourly || Overlap(h, cur, now) > 0
    decreases now - cur
  {
    hide Overlap, Charge, HourKey, BucketEnd, Get, Add;
    if cur < now {
      var next := Min(BucketEnd(cur), now);
      var step := Add(hourly, HourKey(cur), Charge(rate, next - cur));
      SpreadIsExact(step, next, now, rate, h);
      BucketGrows(hourly, cur, next, rate, h);
      OverlapSplits(h, cur, next, now);
      ChargeAdds(rate, Overlap(h, cur, next), Overlap(h, next, now));
    } else {
      NoOverlap(h, now, rate);
    }
  }

  /** Nothing is lost or invented: the buckets together grow by the whole
      interval's cost, for instants on either side of the epoch. */
  lemma {:induction false} SpreadConserves(hourly: map<int, real>, cur: Time, now: Time, rate: real)
    requires cur <= now
    ensures Sum(Spread(hourly, cur, now, rate)) == Sum(hourly) + Charge(rate, now - cur)
    decreases now - cur
  {
    if cur < now {
      var next := Min(BucketEnd(cur), now);
      SumAdd(hourly, HourKey(cur), Charge(rate, next - cur));
      SpreadConserves(Add(hourly, HourKey(cur), Charge(rate, next - cur)), next, now, rate);
      ChargeAdds(rate, next - cur, now - next);
    } else {
      assert Charge(rate, 0) == 0.0;
    }
  }

  lemma {:induction false} SpreadNonNegative(hourly: map<int, real>, cur: Time, now: Time, rate: real)
    requires NonNegative(hourly) && rate > 0.0
    ensures NonNegative(Spread(hourly, cur, now, rate))
    decreases now - cur
  {
    if cur < now {
      var next := Min(BucketEnd(cur), now);
      ChargePositive(rate, next - cur);
      SpreadNonNegative(Add(hourly, HourKey(cur), Charge(rate, next - cur)), next, now, rate);
    }
  }

  /** Billing [a, c) at once gives the same buckets as billing [a, b) and then
      [b, c). */
  lemma SpreadSplits(hourly: map<int, real>, a: Time, b: Time, c: Time, rate: real)
    requires 0 <= a <= b <= c
    ensures Spread(Spread(hourly, a, b, rate), b, c, rate) == Spread(hourly, a, c, rate)
  {
    var twice := Spread(Spread(hourly, a, b, rate), b, c, rate);
    var once := Spread(hourly, a, c, rate);
    forall h
      ensures h in twice <==> h in once
      ensures Get(twice, h) == Get(once, h)
    {
      SpreadIsExact(hourly, a, b, rate, h);
      SpreadIsExact(Spread(hourly, a, b, rate), b, c, rate, h);
      SpreadIsExact(hourly, a, c, rate, h);
      OverlapSplits(h, a, b, c);
      ChargeAdds(rate, Overlap(h, a, b), Overlap(h, b, c));
    }
    assert forall h :: h in once ==> Get(twice, h) == twice[h] && Get(once, h) == once[h];
  }

  // ---------------------------------------------------------------- windows

  /** The model's figure for the hours that begin inside [start, end). */
  ghost function ExpectedIn(hourly: map<int, real>, start: Time, end: Time): real {
    Sum(Within(hourly, start, end))
  }

  predicate Begins(h: int, start: Time, end: Time) { start <= HourStart(h) < end }

  function Within(hourly: map<int, real>, start: Time, end: Time): map<int, real> {
    map h | h in hourly && Begins(h, start, end) :: hourly[h]
  }

  ghost function Modelled(v: LedgerView, c: Confirmation): real {
    ExpectedIn(v.hourly, c.start, c.end)
  }

  /** A confirmation the model can be calibrated from: within a factor of two of
      what the model says, and the model says something. */
  predicate InClamp(usd: real, expected: real) {
    expected > 0.0 && 0.5 * expected <= usd <= 2.0 * expected
  }

  /** The clamp as the code decides it, on the ratio of the two figures. */
  lemma ClampIsOnTheRatio(usd: real, expected: real)
    requires expected > 0.0
    ensures InClamp(usd, expected) <==> MIN_CALIBRATION <= usd / expected <= MAX_CALIBRATION
  {
    var r := usd / expected;
    assert usd == r * expected;
    SignOfFactor(r - 0.5, expected);
    SignOfFactor(2.0 - r, expected);
  }

  // ---------------------------------------------------------------- confirm

  predicate Overlapping(a: Confirmation, b: Confirmation) {
    a.start < b.end && b.start < a.end
  }

  /** The first of the listed refusals that applies. */
  function Refusal(v: LedgerView, c: Confirmation): Option<ConfirmError> {
    if c.usd < 0.0 then Some(AmountNegative)
    else if c.end <= c.start then Some(WindowEmpty)
    else if c.start < v.start || c.end > v.end then Some(WindowOutsidePeriod)
    else if exists e :: e in v.confirmations && Overlapping(c, e) then Some(WindowOverlaps)
    else None
  }

  /** Insertion before the first window that starts later. */
  function InsertByStart(cs: seq<Confirmation>, c: Confirmation): seq<Confirmation> {
    if cs == [] || c.start < cs[0].start then [c] + cs
    else [cs[0]] + InsertByStart(cs[1..], c)
  }

  /** Looking one place further for where a window goes. */
  lemma InsertFurther(cs: seq<Confirmation>, i: nat, c: Confirmation)
    requires i < |cs| && c.start >= cs[i].start
    ensures cs[..i] + InsertByStart(cs[i..], c) == cs[..i + 1] + InsertByStart(cs[i + 1..], c)
  {
    assert cs[i..][1..] == cs[i + 1..];
    var rest := InsertByStart(cs[i + 1..], c);
    assert cs[..i + 1] == cs[..i] + [cs[i]];
    hide InsertByStart;
    assert cs[..i] + ([cs[i]] + rest) == cs[..i] + [cs[i]] + rest;
  }

  lemma InsertHere(cs: seq<Confirmation>, i: nat, c: Confirmation)
    requires i <= |cs| && (i < |cs| ==> c.start < cs[i].start)
    ensures cs[..i] + InsertByStart(cs[i..], c) == cs[..i] + [c] + cs[i..]
  {
  }

  ghost function Disagreement(v: LedgerView, c: Confirmation): Option<Discrepancy> {
    var expected := Modelled(v, c);
    if expected <= 0.0 || InClamp(c.usd, expected) then None
    else Some(Discrepancy(c, expected, c.usd / expected))
  }

  ghost function ConfirmSpec(v: LedgerView, c: Confirmation): LedgerView {
    if Refusal(v, c).Some? then v
    else v.(confirmations := InsertByStart(v.confirmations, c),
            discrepancies := match Disagreement(v, c)
                             case None => v.discrepancies
                             case Some(d) => v.discrepancies + [d])
  }

  // ---------------------------------------------------------------- accrued

  /** What one window contributes: the provider's figure inside the clamp, the
      larger of the two figures outside it. */
  function Counted(usd: real, expected: real): real {
    if expected > 0.0 && !InClamp(usd, expected) then MaxReal(usd, expected) else usd
  }

  /** What one window contributes to the two sides of the calibration factor. */
  function CalibratesFrom(usd: real, expected: real): real {
    if InClamp(usd, expected) then expected else 0.0
  }

  function CalibratesTo(usd: real, expected: real): real {
    if InClamp(usd, expected) then usd else 0.0
  }

  /** Running totals over the first windows of the list. */
  datatype Tally = Tally(confirmed: real, covered: real, from: real, to: real, through: Option<Time>)

  ghost function TallyOf(v: LedgerView, n: nat): Tally
    requires n <= |v.confirmations|
  {
    if n == 0 then Tally(0.0, 0.0, 0.0, 0.0, None)
    else
      var t := TallyOf(v, n - 1);
      var c := v.confirmations[n - 1];
      var e := Modelled(v, c);
      Tally(t.confirmed + Counted(c.usd, e),
            t.covered + e,
            t.from + CalibratesFrom(c.usd, e),
            t.to + CalibratesTo(c.usd, e),
            if t.through.None? || c.end > t.through.value then Some(c.end) else t.through)
  }

  ghost function Raw(v: LedgerView): real { ExpectedIn(v.hourly, v.start, v.end) }

  function Calibration(t: Tally): real {
    if t.from > 0.0 then t.to / t.from else 1.0
  }

  /** The model's figure for what no confirmation covers. */
  function Uncovered(t: Tally, raw: real): real { MaxReal(0.0, raw - t.covered) }

  function Estimate(t: Tally, raw: real): real { Uncovered(t, raw) * Calibration(t) }

  ghost function FinalTally(v: LedgerView): Tally { TallyOf(v, |v.confirmations|) }

  ghost function AccruedSpec(v: LedgerView): Accrual {
    var t := FinalTally(v);
    Accrual(t.confirmed, Estimate(t, Raw(v)), t.confirmed + Estimate(t, Raw(v)),
            v.confirmations != [], t.through, Calibration(t), v.discrepancies)
  }
}
