/** What every reachable ledger satisfies, and why no feed of confirmations can
    switch the cost guard off. */
module CostGuard {
  import opened Basics
  import opened Sums
  import opened LedgerSpec

  // ---------------------------------------------------------------- validity

  predicate WindowsOrdered(cs: seq<Confirmation>) {
    && (forall i :: 0 <= i < |cs| ==> cs[i].start < cs[i].end)
    && (forall i, j :: 0 <= i < j < |cs| ==> cs[i].end <= cs[j].start)
  }

  predicate WindowsInside(v: LedgerView) {
    forall c :: c in v.confirmations ==> v.start <= c.start && c.end <= v.end && c.usd >= 0.0
  }

  /** The invariant of every ledger the code can build: windows are non-empty,
      sorted, pairwise disjoint and inside the period, and no figure is
      negative. */
  ghost predicate Sound(v: LedgerView) {
    && v.start < v.end
    && NonNegative(v.hourly)
    && NonNegative(v.apps)
    && WindowsOrdered(v.confirmations)
    && WindowsInside(v)
  }

  /** What the buckets hold is what the applications were charged. */
  ghost predicate Balanced(v: LedgerView) { Sum(v.hourly) == Sum(v.apps) }

  lemma NewLedgerIsSound(start: Time, end: Time)
    requires start < end
    ensures Sound(NewLedger(start, end)) && Balanced(NewLedger(start, end))
  {
  }

  lemma AccrueKeepsSound(v: LedgerView, now: Time, app: Text, rate: real, d: Duration)
    requires Sound(v)
    ensures Sound(AccrueSpec(v, now, app, rate, d))
  {
    if d > 0 && rate > 0.0 {
      SpreadNonNegative(v.hourly, now - d, now, rate);
      ChargePositive(rate, d);
    }
  }

  lemma AccrueKeepsBalanced(v: LedgerView, now: Time, app: Text, rate: real, d: Duration)
    requires Balanced(v)
    ensures Balanced(AccrueSpec(v, now, app, rate, d))
  {
    if d > 0 && rate > 0.0 {
      SpreadConserves(v.hourly, now - d, now, rate);
      SumAdd(v.apps, app, Charge(rate, d));
    }
  }

  lemma {:induction false} InsertKeepsOrder(cs: seq<Confirmation>, c: Confirmation)
    requires WindowsOrdered(cs) && c.start < c.end
    requires forall e :: e in cs ==> !Overlapping(c, e)
    ensures WindowsOrdered(InsertByStart(cs, c))
    ensures forall e :: e in InsertByStart(cs, c) <==> e == c || e in cs
  {
    if cs == [] {
    } else if c.start < cs[0].start {
      assert !Overlapping(c, cs[0]);
    } else {
      assert !Overlapping(c, cs[0]);
      assert cs == [cs[0]] + cs[1..];
      InsertKeepsOrder(cs[1..], c);
      var rest := InsertByStart(cs[1..], c);
      forall e | e in rest
        ensures cs[0].end <= e.start
      {
      }
      forall i | 0 <= i < |rest|
        ensures cs[0].end <= rest[i].start
      {
        assert rest[i] in rest;
      }
    }
  }

  lemma ConfirmKeepsSound(v: LedgerView, c: Confirmation)
    requires Sound(v)
    ensures Sound(ConfirmSpec(v, c))
  {
    if Refusal(v, c).None? {
      InsertKeepsOrder(v.confirmations, c);
    }
  }

  predicate Covers(c: Confirmation, t: Time) { c.start <= t < c.end }

  predicate Meets(c: Confirmation, cs: seq<Confirmation>) {
    exists i :: 0 <= i < |cs| && Covers(cs[i], Max(c.start, cs[i].start)) && Covers(c, Max(c.start, cs[i].start))
  }

  /** Two windows meet when some instant lies in both. */
  lemma MeetsIff(c: Confirmation, cs: seq<Confirmation>)
    ensures Meets(c, cs) <==> exists e, t :: e in cs && Covers(e, t) && Covers(c, t)
  {
    if e, t :| e in cs && Covers(e, t) && Covers(c, t) {
      var i :| 0 <= i < |cs| && cs[i] == e;
      assert Covers(cs[i], Max(c.start, cs[i].start));
    }
  }

  /** Which windows are taken, why the others are not, and what taking one changes: the
      window joins the others, and a bill outside half to twice of a positive model is
      kept on record as a disagreement. */
  lemma TakenIff(v: LedgerView, c: Confirmation)
    requires Sound(v)
    ensures
      var inside := v.start <= c.start && c.end <= v.end;
      var free := forall e, t :: e in v.confirmations && Covers(c, t) ==> !Covers(e, t);
      && (Refusal(v, c) == Some(AmountNegative) <==> c.usd < 0.0)
      && (Refusal(v, c) == Some(WindowEmpty) <==> c.usd >= 0.0 && c.end <= c.start)
      && (Refusal(v, c) == Some(WindowOutsidePeriod) <==> c.usd >= 0.0 && c.start < c.end && !inside)
      && (Refusal(v, c) == Some(WindowOverlaps) <==> c.usd >= 0.0 && c.start < c.end && inside && !free)
    ensures Refusal(v, c).Some? ==> ConfirmSpec(v, c) == v
    ensures Refusal(v, c).None? ==>
      var w, m := ConfirmSpec(v, c), Modelled(v, c);
      && w == v.(confirmations := w.confirmations, discrepancies := w.discrepancies)
      && multiset(w.confirmations) == multiset(v.confirmations) + multiset{c}
      && w.discrepancies == v.discrepancies
           + if m > 0.0 && (c.usd < 0.5 * m || c.usd > 2.0 * m) then [Discrepancy(c, m, c.usd / m)] else []
  {
    hide Modelled;
    MeetsIff(c, v.confirmations);
    InsertKeepsAll(v.confirmations, c);
    if c.start < c.end {
      forall i | 0 <= i < |v.confirmations|
        ensures
          var e, t := v.confirmations[i], Max(c.start, v.confirmations[i].start);
          Overlapping(c, e) <==> Covers(e, t) && Covers(c, t)
      {
      }
    }
  }

  lemma {:induction false} InsertKeepsAll(cs: seq<Confirmation>, c: Confirmation)
    ensures multiset(InsertByStart(cs, c)) == multiset(cs) + multiset{c}
  {
    if cs != [] && !(c.start < cs[0].start) {
      InsertKeepsAll(cs[1..], c);
      assert cs == [cs[0]] + cs[1..];
    }
  }

  // ---------------------------------------------------------------- windows

  lemma WindowNonNegative(hourly: map<int, real>, a: Time, b: Time)
    requires NonNegative(hourly)
    ensures ExpectedIn(hourly, a, b) >= 0.0
  {
    SumNonNegative(Within(hourly, a, b));
  }

  /** The model's figures for adjacent windows add up. */
  lemma WindowsAdd(hourly: map<int, real>, a: Time, b: Time, c: Time)
    requires a <= b <= c
    ensures ExpectedIn(hourly, a, c) == ExpectedIn(hourly, a, b) + ExpectedIn(hourly, b, c)
  {
    var whole := Within(hourly, a, c);
    var left := Within(hourly, a, b);
    SumSplit(whole, left.Keys);
    assert left == map h | h in left.Keys :: whole[h];
    assert whole - left.Keys == Within(hourly, b, c);
  }

  /** Confirmed windows never cover more than the model's figure up to the end
      of the last of them. */
  lemma {:induction false} CoveredUpTo(v: LedgerView, n: nat)
    requires Sound(v) && 0 < n <= |v.confirmations|
    ensures TallyOf(v, n).covered <= ExpectedIn(v.hourly, v.start, v.confirmations[n - 1].end)
  {
    var c := v.confirmations[n - 1];
    assert c in v.confirmations;
    WindowsAdd(v.hourly, v.start, c.start, c.end);
    if n == 1 {
      WindowNonNegative(v.hourly, v.start, c.start);
    } else {
      var b := v.confirmations[n - 2];
      assert b in v.confirmations;
      CoveredUpTo(v, n - 1);
      WindowsAdd(v.hourly, v.start, b.end, c.start);
      WindowNonNegative(v.hourly, b.end, c.start);
    }
  }

  /** The subtraction in Accrued never goes negative: the clamp at zero is never
      what decides. */
  lemma CoveredAtMostRaw(v: LedgerView)
    requires Sound(v)
    ensures TallyOf(v, |v.confirmations|).covered <= Raw(v)
  {
    var n := |v.confirmations|;
    if n == 0 {
      WindowNonNegative(v.hourly, v.start, v.end);
    } else {
      CoveredUpTo(v, n);
      var c := v.confirmations[n - 1];
      assert c in v.confirmations;
      WindowsAdd(v.hourly, v.start, c.end, v.end);
      WindowNonNegative(v.hourly, c.end, v.end);
    }
  }

  // ---------------------------------------------------------------- bounds

  /** One window, whatever the provider says. */
  lemma WindowBounds(usd: real, expected: real)
    requires usd >= 0.0 && expected >= 0.0
    ensures 2.0 * Counted(usd, expected) >= expected
    ensures usd <= 2.0 * expected ==> Counted(usd, expected) <= 2.0 * expected
    ensures 0.0 <= CalibratesFrom(usd, expected) <= 2.0 * CalibratesTo(usd, expected)
    ensures CalibratesTo(usd, expected) <= 2.0 * CalibratesFrom(usd, expected)
  {
  }

  lemma {:induction false} TallyBounds(v: LedgerView, n: nat)
    requires Sound(v) && n <= |v.confirmations|
    ensures 2.0 * TallyOf(v, n).confirmed >= TallyOf(v, n).covered
    ensures 0.0 <= TallyOf(v, n).from <= 2.0 * TallyOf(v, n).to
    ensures TallyOf(v, n).to <= 2.0 * TallyOf(v, n).from
  {
    if n > 0 {
      TallyBounds(v, n - 1);
      var c := v.confirmations[n - 1];
      assert c in v.confirmations;
      WindowNonNegative(v.hourly, c.start, c.end);
      WindowBounds(c.usd, Modelled(v, c));
    }
  }

  /** Calibration corrects the model by at most a factor of two either way. */
  lemma CalibrationIsClamped(v: LedgerView)
    requires Sound(v)
    ensures MIN_CALIBRATION <= AccruedSpec(v).calibration <= MAX_CALIBRATION
  {
    var t := TallyOf(v, |v.confirmations|);
    TallyBounds(v, |v.confirmations|);
    if t.from > 0.0 {
      RatioBounds(t.from, t.to);
    }
  }

  lemma RatioBounds(from: real, to: real)
    requires 0.0 < from <= 2.0 * to && to <= 2.0 * from
    ensures 0.5 <= to / from <= 2.0
  {
    var r := to / from;
    assert to == r * from;
    SignOfFactor(r - 0.5, from);
    SignOfFactor(2.0 - r, from);
  }

  /** No confirmation feed can push the total below half of what the model
      says the period cost. */
  lemma TotalAtLeastHalf(v: LedgerView)
    requires Sound(v)
    ensures 2.0 * AccruedSpec(v).total >= Raw(v)
  {
    hide Raw, TallyOf, Sound, Calibration;
    var t := FinalTally(v);
    TallyBounds(v, |v.confirmations|);
    CoveredAtMostRaw(v);
    CalibrationIsClamped(v);
    ScaledByAtLeastHalf(Uncovered(t, Raw(v)), Calibration(t));
  }

  lemma ScaledByAtLeastHalf(x: real, k: real)
    requires x >= 0.0 && 0.5 <= k <= 2.0
    ensures 0.5 * x <= x * k <= 2.0 * x
  {
  }

  /** No window is confirmed at more than twice its modelled figure: in
      particular a window the model calls free is confirmed at zero. */
  ghost predicate NoWindowAboveClamp(v: LedgerView) {
    forall c :: c in v.confirmations ==> c.usd <= 2.0 * Modelled(v, c)
  }

  lemma {:induction false} ConfirmedAtMostTwice(v: LedgerView, n: nat)
    requires Sound(v) && NoWindowAboveClamp(v) && n <= |v.confirmations|
    ensures TallyOf(v, n).confirmed <= 2.0 * TallyOf(v, n).covered
  {
    if n > 0 {
      ConfirmedAtMostTwice(v, n - 1);
      var c := v.confirmations[n - 1];
      assert c in v.confirmations;
      WindowNonNegative(v.hourly, c.start, c.end);
      WindowBounds(c.usd, Modelled(v, c));
    }
  }

  lemma TotalAtMostTwice(v: LedgerView)
    requires Sound(v) && NoWindowAboveClamp(v)
    ensures AccruedSpec(v).total <= 2.0 * Raw(v)
  {
    hide Raw, TallyOf, Sound, Calibration, NoWindowAboveClamp;
    var t := FinalTally(v);
    ConfirmedAtMostTwice(v, |v.confirmations|);
    CoveredAtMostRaw(v);
    CalibrationIsClamped(v);
    ScaledByAtLeastHalf(Uncovered(t, Raw(v)), Calibration(t));
  }

  // ---------------------------------------------------------------- what the figures are

  /** A figure of each window, added up. */
  ghost function SumOf(cs: seq<Confirmation>, figure: Confirmation -> real): real {
    if cs == [] then 0.0 else SumOf(cs[..|cs| - 1], figure) + figure(cs[|cs| - 1])
  }

  ghost function Bill(): Confirmation -> real { (c: Confirmation) => c.usd }

  ghost function Model(v: LedgerView): Confirmation -> real { (c: Confirmation) => Modelled(v, c) }

  /** The bill, unless it is under half of what the model says: then the model. */
  ghost function Believed(v: LedgerView): Confirmation -> real {
    (c: Confirmation) => if c.usd < 0.5 * Modelled(v, c) then Modelled(v, c) else c.usd
  }

  /** The windows the model can learn from: modelled at something, and billed at
      between half and twice that. */
  ghost predicate Agreeing(v: LedgerView, c: Confirmation) {
    Modelled(v, c) > 0.0 && 0.5 * Modelled(v, c) <= c.usd && c.usd <= 2.0 * Modelled(v, c)
  }

  ghost function AgreedBill(v: LedgerView): Confirmation -> real {
    (c: Confirmation) => if Agreeing(v, c) then c.usd else 0.0
  }

  ghost function AgreedModel(v: LedgerView): Confirmation -> real {
    (c: Confirmation) => if Agreeing(v, c) then Modelled(v, c) else 0.0
  }

  lemma FiguresOf(v: LedgerView, c: Confirmation)
    requires Sound(v) && c in v.confirmations
    ensures Believed(v)(c) == Counted(c.usd, Modelled(v, c)) && Model(v)(c) == Modelled(v, c)
    ensures AgreedBill(v)(c) == CalibratesTo(c.usd, Modelled(v, c))
    ensures AgreedModel(v)(c) == CalibratesFrom(c.usd, Modelled(v, c))
  {
    WindowNonNegative(v.hourly, c.start, c.end);
    hide ExpectedIn;
  }

  lemma SumOfNext(cs: seq<Confirmation>, n: nat, figure: Confirmation -> real)
    requires 0 < n <= |cs|
    ensures SumOf(cs[..n], figure) == SumOf(cs[..n - 1], figure) + figure(cs[n - 1])
  {
    assert cs[..n][..n - 1] == cs[..n - 1];
  }

  lemma {:induction false} TallyIs(v: LedgerView, n: nat)
    requires Sound(v) && n <= |v.confirmations|
    ensures
      var t, cs := TallyOf(v, n), v.confirmations[..n];
      && t.confirmed == SumOf(cs, Believed(v)) && t.covered == SumOf(cs, Model(v))
      && t.to == SumOf(cs, AgreedBill(v)) && t.from == SumOf(cs, AgreedModel(v))
      && t.through == if n == 0 then None else Some(v.confirmations[n - 1].end)
  {
    if n > 0 {
      hide Modelled, Believed, Model, AgreedBill, AgreedModel, SumOf, Counted, CalibratesTo, CalibratesFrom, NonNegative;
      var c, cs := v.confirmations[n - 1], v.confirmations;
      TallyIs(v, n - 1);
      FiguresOf(v, c);
      assert n > 1 ==> cs[n - 2].end <= c.start < c.end;
      SumOfNext(cs, n, Believed(v));
      SumOfNext(cs, n, Model(v));
      SumOfNext(cs, n, AgreedBill(v));
      SumOfNext(cs, n, AgreedModel(v));
    }
  }

  /** Some window says what the model is worth. */
  ghost predicate Learned(v: LedgerView, n: nat)
    requires n <= |v.confirmations|
  {
    exists i :: 0 <= i < n && Agreeing(v, v.confirmations[i])
  }

  lemma {:induction false} LearnedShows(v: LedgerView, n: nat)
    requires n <= |v.confirmations|
    ensures SumOf(v.confirmations[..n], AgreedModel(v)) >= 0.0
    ensures Learned(v, n) <==> SumOf(v.confirmations[..n], AgreedModel(v)) > 0.0
  {
    if n > 0 {
      hide Modelled, SumOf;
      LearnedShows(v, n - 1);
      SumOfNext(v.confirmations, n, AgreedModel(v));
      assert Learned(v, n) <==> Learned(v, n - 1) || Agreeing(v, v.confirmations[n - 1]);
    }
  }

  /** What an instance is said to cost, on any ledger that can be reached: the bills
      that are believed, and what no window covers as modelled, at the rate the agreeing
      bills suggest once there are any. */
  lemma TotalIs(v: LedgerView)
    requires Sound(v)
    ensures
      var a, cs := AccruedSpec(v), v.confirmations;
      && a.total == a.confirmed + a.expected
      && a.confirmed == SumOf(cs, Believed(v))
      && a.expected == (Raw(v) - SumOf(cs, Model(v))) * a.calibration
      && (if exists i :: 0 <= i < |cs| && Agreeing(v, cs[i])
          then SumOf(cs, AgreedModel(v)) > 0.0 && a.calibration == SumOf(cs, AgreedBill(v)) / SumOf(cs, AgreedModel(v))
          else a.calibration == 1.0)
      && (a.hasConfirmation <==> cs != [])
      && a.confirmedThrough == (if cs == [] then None else Some(cs[|cs| - 1].end))
      && a.discrepancies == v.discrepancies
  {
    hide Sound, TallyOf, SumOf, Believed, AgreedBill, AgreedModel, Model, Raw, Agreeing;
    var cs := v.confirmations;
    assert cs[..|cs|] == cs;
    TallyIs(v, |cs|);
    LearnedShows(v, |cs|);
    CoveredAtMostRaw(v);
  }

  lemma {:induction false} BillsAreBelieved(v: LedgerView, n: nat)
    requires Sound(v) && n <= |v.confirmations|
    ensures SumOf(v.confirmations[..n], Bill()) <= SumOf(v.confirmations[..n], Believed(v))
  {
    if n > 0 {
      hide Modelled, SumOf;
      BillsAreBelieved(v, n - 1);
      SumOfNext(v.confirmations, n, Bill());
      SumOfNext(v.confirmations, n, Believed(v));
    }
  }

  /** Whatever has been billed is in the total, surprising or not. */
  lemma TotalAtLeastBilled(v: LedgerView)
    requires Sound(v)
    ensures AccruedSpec(v).total >= SumOf(v.confirmations, Bill())
  {
    hide Sound, TallyOf, SumOf, Believed, Raw, Calibration, Bill;
    var cs := v.confirmations;
    assert cs[..|cs|] == cs;
    TallyIs(v, |cs|);
    BillsAreBelieved(v, |cs|);
    CoveredAtMostRaw(v);
    CalibrationIsClamped(v);
    ScaledByAtLeastHalf(Uncovered(FinalTally(v), Raw(v)), Calibration(FinalTally(v)));
  }

  lemma {:induction false} UnderbilledAsModelled(v: LedgerView, n: nat)
    requires n <= |v.confirmations|
    requires forall i :: 0 <= i < n ==> v.confirmations[i].usd < 0.5 * Modelled(v, v.confirmations[i])
    ensures SumOf(v.confirmations[..n], Believed(v)) == SumOf(v.confirmations[..n], Model(v))
  {
    if n > 0 {
      hide Modelled, SumOf;
      UnderbilledAsModelled(v, n - 1);
      SumOfNext(v.confirmations, n, Believed(v));
      SumOfNext(v.confirmations, n, Model(v));
    }
  }

  /** A feed that bills next to nothing for everything it confirms changes nothing: the
      total stays what the model says. */
  lemma NextToNothingChangesNothing(v: LedgerView)
    requires Sound(v)
    requires forall i :: 0 <= i < |v.confirmations| ==> v.confirmations[i].usd < 0.5 * Modelled(v, v.confirmations[i])
    ensures AccruedSpec(v).total == Raw(v)
  {
    hide Sound, Raw, AccruedSpec, Modelled;
    var cs := v.confirmations;
    assert cs[..|cs|] == cs;
    TotalIs(v);
    UnderbilledAsModelled(v, |cs|);
  }

  // ---------------------------------------------------------------- fresh spend

  /** Every hour the interval touches begins inside the period and outside every
      confirmed window. */
  ghost predicate LandsUnconfirmed(v: LedgerView, from: Time, to: Time) {
    forall h :: Overlap(h, from, to) > 0 ==>
      Begins(h, v.start, v.end) && forall c :: c in v.confirmations ==> !Begins(h, c.start, c.end)
  }

  /** Hours an interval does not touch cost what they did. */
  lemma UntouchedWindow(hourly: map<int, real>, from: Time, to: Time, rate: real, a: Time, b: Time)
    requires 0 <= from <= to
    requires forall h :: Begins(h, a, b) ==> Overlap(h, from, to) == 0
    ensures ExpectedIn(Spread(hourly, from, to, rate), a, b) == ExpectedIn(hourly, a, b)
  {
    var spread := Spread(hourly, from, to, rate);
    forall h | Begins(h, a, b)
      ensures h in spread <==> h in hourly
      ensures h in hourly ==> spread[h] == hourly[h]
    {
      UntouchedHour(hourly, from, to, rate, h);
    }
    assert Within(spread, a, b) == Within(hourly, a, b);
  }

  /** Hours an interval stays inside of take all of its cost. */
  lemma TouchedWindow(hourly: map<int, real>, from: Time, to: Time, rate: real, a: Time, b: Time)
    requires 0 <= from <= to
    requires forall h :: Overlap(h, from, to) > 0 ==> Begins(h, a, b)
    ensures ExpectedIn(Spread(hourly, from, to, rate), a, b) == ExpectedIn(hourly, a, b) + Charge(rate, to - from)
  {
    var spread := Spread(hourly, from, to, rate);
    SpreadConserves(hourly, from, to, rate);
    SplitAtWindow(hourly, a, b);
    SplitAtWindow(spread, a, b);
    OutsideUntouched(hourly, from, to, rate, a, b);
  }

  function Outside(hourly: map<int, real>, a: Time, b: Time): map<int, real> {
    map h | h in hourly && !Begins(h, a, b) :: hourly[h]
  }

  lemma SplitAtWindow(hourly: map<int, real>, a: Time, b: Time)
    ensures Sum(hourly) == ExpectedIn(hourly, a, b) + Sum(Outside(hourly, a, b))
  {
    var inside := Within(hourly, a, b);
    SumSplit(hourly, inside.Keys);
    assert inside == map h | h in inside.Keys :: hourly[h];
    assert hourly - inside.Keys == Outside(hourly, a, b);
  }

  lemma OutsideUntouched(hourly: map<int, real>, from: Time, to: Time, rate: real, a: Time, b: Time)
    requires 0 <= from <= to
    requires forall h :: Overlap(h, from, to) > 0 ==> Begins(h, a, b)
    ensures Outside(Spread(hourly, from, to, rate), a, b) == Outside(hourly, a, b)
  {
    var spread := Spread(hourly, from, to, rate);
    forall h | !Begins(h, a, b)
      ensures h in spread <==> h in hourly
      ensures h in hourly ==> spread[h] == hourly[h]
    {
      UntouchedHour(hourly, from, to, rate, h);
    }
  }

  lemma UntouchedHour(hourly: map<int, real>, from: Time, to: Time, rate: real, h: int)
    requires 0 <= from <= to && Overlap(h, from, to) == 0
    ensures h in Spread(hourly, from, to, rate) <==> h in hourly
    ensures h in hourly ==> Spread(hourly, from, to, rate)[h] == hourly[h]
  {
    SpreadIsExact(hourly, from, to, rate, h);
    assert Charge(rate, 0) == 0.0;
  }

  lemma WindowUnmoved(v: LedgerView, now: Time, app: Text, rate: real, d: Duration, c: Confirmation)
    requires 0 <= now - d < now && rate > 0.0 && c in v.confirmations
    requires LandsUnconfirmed(v, now - d, now)
    ensures Modelled(AccrueSpec(v, now, app, rate, d), c) == Modelled(v, c)
  {
    forall h | Begins(h, c.start, c.end)
      ensures Overlap(h, now - d, now) == 0
    {
    }
    UntouchedWindow(v.hourly, now - d, now, rate, c.start, c.end);
  }

  lemma {:induction false} TallyUnmoved(v: LedgerView, now: Time, app: Text, rate: real, d: Duration, n: nat)
    requires 0 <= now - d < now && rate > 0.0 && n <= |v.confirmations|
    requires LandsUnconfirmed(v, now - d, now)
    ensures TallyOf(AccrueSpec(v, now, app, rate, d), n) == TallyOf(v, n)
  {
    hide Modelled, Spread, Charge, Counted, CalibratesFrom, CalibratesTo, LandsUnconfirmed;
    if n > 0 {
      TallyUnmoved(v, now, app, rate, d, n - 1);
      assert v.confirmations[n - 1] in v.confirmations;
      WindowUnmoved(v, now, app, rate, d, v.confirmations[n - 1]);
    }
  }

  lemma Distributes(x: real, y: real, k: real)
    ensures (x + y) * k == x * k + k * y
  {
  }

  lemma EstimateGrows(t: Tally, raw: real, raw': real, x: real)
    requires t.covered <= raw && x >= 0.0 && raw' == raw + x
    ensures Estimate(t, raw') == Estimate(t, raw) + Calibration(t) * x
  {
    Distributes(Uncovered(t, raw), x, Calibration(t));
    assert Uncovered(t, raw') == Uncovered(t, raw) + x;
  }

  lemma FreshSpendMovesRawOnly(v: LedgerView, now: Time, app: Text, rate: real, d: Duration, v': LedgerView)
    requires Sound(v) && 0 <= now - d < now && rate > 0.0
    requires LandsUnconfirmed(v, now - d, now)
    requires v' == AccrueSpec(v, now, app, rate, d)
    ensures FinalTally(v') == FinalTally(v) && Raw(v') == Raw(v) + Charge(rate, d)
    ensures FinalTally(v).covered <= Raw(v) && Charge(rate, d) >= 0.0
  {
    CoveredAtMostRaw(v);
    ChargePositive(rate, d);
    TallyUnmoved(v, now, app, rate, d, |v.confirmations|);
    TouchedWindow(v.hourly, now - d, now, rate, v.start, v.end);
  }

  lemma SameTally(v: LedgerView, v': LedgerView, x: real)
    requires FinalTally(v') == FinalTally(v) && Raw(v') == Raw(v) + x
    requires FinalTally(v).covered <= Raw(v) && x >= 0.0
    ensures AccruedSpec(v').total == AccruedSpec(v).total + AccruedSpec(v).calibration * x
    ensures AccruedSpec(v').confirmed == AccruedSpec(v).confirmed
    ensures AccruedSpec(v').calibration == AccruedSpec(v).calibration
  {
    hide FinalTally, Raw, Estimate, Calibration;
    EstimateGrows(FinalTally(v), Raw(v), Raw(v'), x);
  }

  /** Spending that lands outside every confirmed window raises the total by
      exactly the calibrated amount, and changes neither what is confirmed nor
      the calibration. */
  lemma FreshSpendRaisesTotal(v: LedgerView, now: Time, app: Text, rate: real, d: Duration, v': LedgerView)
    requires Sound(v) && 0 <= now - d < now && rate > 0.0
    requires LandsUnconfirmed(v, now - d, now)
    requires v' == AccrueSpec(v, now, app, rate, d)
    ensures AccruedSpec(v').total == AccruedSpec(v).total + AccruedSpec(v).calibration * Charge(rate, d)
    ensures AccruedSpec(v').confirmed == AccruedSpec(v).confirmed
    ensures AccruedSpec(v').calibration == AccruedSpec(v).calibration
  {
    hide AccruedSpec, FinalTally, Raw, Charge, Sound, LandsUnconfirmed, AccrueSpec;
    FreshSpendMovesRawOnly(v, now, app, rate, d, v');
    var amount := Charge(rate, d);
    SameTally(v, v', amount);
  }
}
