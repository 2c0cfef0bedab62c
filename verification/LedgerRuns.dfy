/** Whole runs of a ledger: any order of accruals, confirmations and restarts. */
module LedgerRuns {
  import opened Basics
  import opened Sums
  import opened LedgerSpec
  import opened CostGuard
  import opened Snapshots
  import opened Limits

  datatype Event =
    | Accrues(now: Time, app: Text, rate: real, d: Duration)
    | Confirms(c: Confirmation)
    | Restarts

  /** One event. A restart is a save followed by a restore. */
  ghost function Step(v: LedgerView, e: Event): LedgerView {
    match e
    case Accrues(now, app, rate, d) => AccrueSpec(v, now, app, rate, d)
    case Confirms(c) => ConfirmSpec(v, c)
    case Restarts => var r := RestoreSpec(SnapshotSpec(v)); if r.Some? then r.value else v
  }

  ghost function Run(v: LedgerView, es: seq<Event>): LedgerView {
    if es == [] then v else Step(Run(v, es[..|es| - 1]), es[|es| - 1])
  }

  lemma AccruesKeeps(v: LedgerView, now: Time, app: Text, rate: real, d: Duration)
    requires Sound(v) && Balanced(v)
    ensures var w := AccrueSpec(v, now, app, rate, d); Sound(w) && Balanced(w) && w.start == v.start && w.end == v.end
  {
    hide Sound, Balanced;
    AccrueKeepsSound(v, now, app, rate, d);
    AccrueKeepsBalanced(v, now, app, rate, d);
  }

  lemma ConfirmsKeeps(v: LedgerView, c: Confirmation)
    requires Sound(v) && Balanced(v)
    ensures var w := ConfirmSpec(v, c); Sound(w) && Balanced(w) && w.start == v.start && w.end == v.end
  {
    hide Sound;
    ConfirmKeepsSound(v, c);
  }

  lemma RestartsKeeps(v: LedgerView)
    requires Sound(v) && Balanced(v)
    ensures RestoreSpec(SnapshotSpec(v)).Some?
    ensures
      var w := RestoreSpec(SnapshotSpec(v)).value;
      Sound(w) && Balanced(w) && w.start == v.start && w.end == v.end
  {
    hide Sound, RestoreSpec, SnapshotSpec;
    RestoreInvertsSnapshot(v);
    RestoredIsSound(SnapshotSpec(v));
  }

  lemma StepKeepsInvariant(v: LedgerView, e: Event)
    requires Sound(v) && Balanced(v)
    ensures Sound(Step(v, e)) && Balanced(Step(v, e))
    ensures Step(v, e).start == v.start && Step(v, e).end == v.end
  {
    hide Sound, Balanced, AccrueSpec, ConfirmSpec, RestoreSpec, SnapshotSpec;
    match e
    case Accrues(now, app, rate, d) => AccruesKeeps(v, now, app, rate, d);
    case Confirms(c) => ConfirmsKeeps(v, c);
    case Restarts => RestartsKeeps(v);
  }

  /** Every ledger a run can reach has ordered, disjoint windows, no negative
      figure, and buckets that add up to the per-application totals. */
  lemma {:induction false} ReachableInvariant(start: Time, end: Time, es: seq<Event>)
    requires start < end
    ensures Sound(Run(NewLedger(start, end), es)) && Balanced(Run(NewLedger(start, end), es))
  {
    if es == [] {
      NewLedgerIsSound(start, end);
    } else {
      ReachableInvariant(start, end, es[..|es| - 1]);
      StepKeepsInvariant(Run(NewLedger(start, end), es[..|es| - 1]), es[|es| - 1]);
    }
  }

  /** What enforcement decides from a ledger. */
  ghost predicate GuardActs(v: LedgerView, limit: real, rate: real, now: Time) {
    Assess(AccruedSpec(v).total, limit, rate, now, v.end).level.Acts()
  }

  /** No confirmation feed can switch the guard off: once the model stands at
      twice the limit, every run assesses as reached, whatever was confirmed. */
  lemma GuardCannotBeSwitchedOff(start: Time, end: Time, es: seq<Event>, limit: real, rate: real, now: Time)
    requires start < end && limit > 0.0
    requires Raw(Run(NewLedger(start, end), es)) >= 2.0 * limit
    ensures GuardActs(Run(NewLedger(start, end), es), limit, rate, now)
  {
    hide Run, AccruedSpec, Raw, Sound, Assess;
    var v := Run(NewLedger(start, end), es);
    ReachableInvariant(start, end, es);
    TotalAtLeastHalf(v);
    ActsIffReached(AccruedSpec(v).total, limit, rate, now, v.end);
  }

  /** What has been billed counts, whatever the model says: once the bills confirmed in
      a run add up to the limit, the guard acts. */
  lemma BilledTripsGuard(start: Time, end: Time, es: seq<Event>, limit: real, rate: real, now: Time)
    requires start < end && limit > 0.0
    requires SumOf(Run(NewLedger(start, end), es).confirmations, Bill()) >= limit
    ensures GuardActs(Run(NewLedger(start, end), es), limit, rate, now)
  {
    hide Run, AccruedSpec, Sound, Assess, SumOf;
    var v := Run(NewLedger(start, end), es);
    ReachableInvariant(start, end, es);
    TotalAtLeastBilled(v);
    ActsIffReached(AccruedSpec(v).total, limit, rate, now, v.end);
  }

  /** Nor does a feed that stays inside the clamp trip it early. */
  lemma GuardDoesNotTripEarly(start: Time, end: Time, es: seq<Event>, limit: real, rate: real, now: Time)
    requires start < end && limit > 0.0
    requires NoWindowAboveClamp(Run(NewLedger(start, end), es))
    requires 2.0 * Raw(Run(NewLedger(start, end), es)) < limit
    ensures !GuardActs(Run(NewLedger(start, end), es), limit, rate, now)
  {
    hide Run, AccruedSpec, Raw, Sound, Assess, NoWindowAboveClamp;
    var v := Run(NewLedger(start, end), es);
    ReachableInvariant(start, end, es);
    TotalAtMostTwice(v);
    ActsIffReached(AccruedSpec(v).total, limit, rate, now, v.end);
  }

  /** The run in which an hour is spent at a given rate and then confirmed at
      half of what the model says. */
  function HalvedHour(raw: real): seq<Event> {
    [Accrues(HourStart(1), [], raw, HourStart(1)), Confirms(Confirmation(0, HourStart(1), raw / 2.0, 0))]
  }

  lemma HalvedHourFigures(raw: real)
    requires raw > 0.0
    ensures var v := Run(NewLedger(0, HourStart(1)), HalvedHour(raw));
            && Raw(v) == raw
            && AccruedSpec(v).total == raw / 2.0
  {
    var v0 := NewLedger(0, HourStart(1));
    var es := HalvedHour(raw);
    var c := Confirmation(0, HourStart(1), raw / 2.0, 0);
    assert es[..1][..0] == [];
    assert Run(v0, es[..1][..0]) == v0;
    var v1 := AccrueSpec(v0, HourStart(1), [], raw, HourStart(1));
    assert Run(v0, es[..1]) == v1;
    assert es[..|es| - 1] == es[..1];
    assert Charge(raw, HourStart(1)) == raw;
    assert v1.hourly == map[0 := raw];
    SumRemove(map[0 := raw], 0);
    assert map[0 := raw] - {0} == map[];
    assert Within(v1.hourly, 0, HourStart(1)) == v1.hourly;
    assert Raw(v1) == raw && Modelled(v1, c) == raw;
    var v2 := ConfirmSpec(v1, c);
    assert v2.confirmations == [c];
    assert TallyOf(v2, 0) == Tally(0.0, 0.0, 0.0, 0.0, None);
  }

  /** Two is the exact factor: below it, some feed keeps the guard from acting. */
  lemma FactorTwoIsExact(raw: real, limit: real, rate: real, now: Time)
    requires raw > 0.0 && limit > 0.0
    ensures (forall start: Time, end: Time, es: seq<Event> ::
               start < end && Raw(Run(NewLedger(start, end), es)) == raw
               ==> GuardActs(Run(NewLedger(start, end), es), limit, rate, now))
            <==> raw >= 2.0 * limit
  {
    hide Run, AccruedSpec, Raw, Assess, GuardActs;
    if raw >= 2.0 * limit {
      forall start: Time, end: Time, es: seq<Event> | start < end && Raw(Run(NewLedger(start, end), es)) == raw
        ensures GuardActs(Run(NewLedger(start, end), es), limit, rate, now)
      {
        GuardCannotBeSwitchedOff(start, end, es, limit, rate, now);
      }
    } else {
      HalvedHourDoesNotTrip(raw, limit, rate, now);
    }
  }

  lemma HalvedHourDoesNotTrip(raw: real, limit: real, rate: real, now: Time)
    requires 0.0 < raw < 2.0 * limit
    ensures Raw(Run(NewLedger(0, HourStart(1)), HalvedHour(raw))) == raw
    ensures !GuardActs(Run(NewLedger(0, HourStart(1)), HalvedHour(raw)), limit, rate, now)
  {
    hide Run, AccruedSpec, Raw, Assess, HalvedHour;
    HalvedHourFigures(raw);
    var v := Run(NewLedger(0, HourStart(1)), HalvedHour(raw));
    ActsIffReached(AccruedSpec(v).total, limit, rate, now, v.end);
  }
}
