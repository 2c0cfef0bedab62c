/** The reconciler's accounting state, its checkpoint, and the billing of the
    gap a restart leaves. */
module Checkpoints {
  import opened Basics
  import opened Sums
  import opened LedgerSpec
  import opened Ledgers
  import opened CostGuard
  import opened Snapshots

  const CHECKPOINT_VERSION := 1

  /** What the kernel last saw, carried across a restart unread. */
  datatype Observation = Observation(at: Time, pods: nat, rateHourlyUsd: real)

  datatype Checkpoint = Checkpoint(version: int, ledger: Snapshot, last: Option<Time>, observed: Observation)

  /** What the checkpoint store answers. */
  datatype Loaded = LoadFailed | NoCheckpoint | Found(cp: Checkpoint)

  datatype RestoreOutcome = FirstRun | OtherPeriod | Restored | Failed

  datatype Workload = Workload(app: Text, hourlyUsd: real)

  datatype Books = Books(ledger: LedgerView, last: Option<Time>, observed: Observation)

  function SaveSpec(b: Books): Checkpoint {
    Checkpoint(CHECKPOINT_VERSION, SnapshotSpec(b.ledger), b.last, b.observed)
  }

  ghost function RestoreSpecOf(b: Books, loaded: Loaded): (Books, RestoreOutcome) {
    match loaded
    case LoadFailed => (b, Failed)
    case NoCheckpoint => (b, FirstRun)
    case Found(cp) =>
      if cp.version != CHECKPOINT_VERSION then (b, Failed)
      else if cp.ledger.periodStart != b.ledger.start || cp.ledger.periodEnd != b.ledger.end then (b, OtherPeriod)
      else match RestoreSpec(cp.ledger)
           case None => (b, Failed)
           case Some(l) => (Books(l, cp.last, cp.observed), Restored)
  }

  /** How long a tick charges for: nothing before the first observation, then
      everything since the last, floored at the period's start. */
  function BillableInterval(b: Books, now: Time): Duration {
    if b.last.None? then 0
    else Max(0, now - Max(b.last.value, b.ledger.start))
  }

  function AccrueAll(v: LedgerView, ws: seq<Workload>, now: Time, d: Duration): LedgerView {
    if ws == [] then v
    else AccrueSpec(AccrueAll(v, ws[..|ws| - 1], now, d), now, ws[|ws| - 1].app, ws[|ws| - 1].hourlyUsd, d)
  }

  function TickSpec(b: Books, ws: seq<Workload>, now: Time): Books {
    b.(ledger := AccrueAll(b.ledger, ws, now, BillableInterval(b, now)), last := Some(now))
  }

  class Reconciler {
    var ledger: Ledger
    var last: Option<Time>
    var observed: Observation

    ghost function View(): Books
      reads this, ledger
    {
      Books(ledger.View(), last, observed)
    }

    constructor (l: Ledger, seen: Observation)
      ensures ledger == l && View() == Books(l.View(), None, seen)
    {
      ledger, last, observed := l, None, seen;
    }

    method Save() returns (cp: Checkpoint)
      ensures cp == SaveSpec(View())
    {
      var s := TakeSnapshot(ledger);
      cp := Checkpoint(CHECKPOINT_VERSION, s, last, observed);
    }

    /** A first run and another period's checkpoint leave everything as it was;
        a checkpoint that does not replay is a failure, not a fresh start. */
    method Restore(loaded: Loaded) returns (outcome: RestoreOutcome)
      modifies this
      ensures (View(), outcome) == RestoreSpecOf(old(View()), loaded)
      ensures outcome != Restored ==> ledger == old(ledger)
    {
      match loaded
      case LoadFailed => return Failed;
      case NoCheckpoint => return FirstRun;
      case Found(cp) =>
        if cp.version != CHECKPOINT_VERSION {
          return Failed;
        }
        if cp.ledger.periodStart != ledger.periodStart || cp.ledger.periodEnd != ledger.periodEnd {
          return OtherPeriod;
        }
        var l, e := Snapshots.Restore(cp.ledger);
        if l == null {
          return Failed;
        }
        ledger := l;
        last := cp.last;
        observed := cp.observed;
        return Restored;
    }

    /** Bill every workload for the interval since the last tick. */
    method Tick(ws: seq<Workload>, now: Time)
      modifies this`last, ledger
      ensures View() == TickSpec(old(View()), ws, now)
      ensures ledger == old(ledger)
    {
      var billed := 0;
      if last.Some? {
        var from := Max(last.value, ledger.periodStart);
        if now > from {
          billed := now - from;
        }
      }
      if billed > 0 {
        for i := 0 to |ws|
          invariant ledger.View() == AccrueAll(old(ledger.View()), ws[..i], now, billed)
        {
          assert ws[..i + 1][..i] == ws[..i];
          ledger.Accrue(now, ws[i].app, ws[i].hourlyUsd, billed);
        }
        assert ws[..|ws|] == ws;
      } else {
        NothingBilled(ledger.View(), ws, now, billed);
      }
      last := Some(now);
    }
  }

  lemma {:induction false} NothingBilled(v: LedgerView, ws: seq<Workload>, now: Time, d: Duration)
    requires d <= 0
    ensures AccrueAll(v, ws, now, d) == v
  {
    if ws != [] {
      NothingBilled(v, ws[..|ws| - 1], now, d);
    }
  }

  // ---------------------------------------------------------------- exactness

  function Positive(rate: real): real { MaxReal(0.0, rate) }

  /** The whole burn rate, and one application's share of it. */
  function TotalRate(ws: seq<Workload>): real {
    if ws == [] then 0.0 else TotalRate(ws[..|ws| - 1]) + Positive(ws[|ws| - 1].hourlyUsd)
  }

  function AppRate(ws: seq<Workload>, app: Text): real {
    if ws == [] then 0.0
    else AppRate(ws[..|ws| - 1], app) + (if ws[|ws| - 1].app == app then Positive(ws[|ws| - 1].hourlyUsd) else 0.0)
  }

  lemma {:induction false} RatesNonNegative(ws: seq<Workload>, app: Text)
    ensures 0.0 <= AppRate(ws, app) <= TotalRate(ws)
  {
    if ws != [] {
      RatesNonNegative(ws[..|ws| - 1], app);
    }
  }

  lemma RatesAdd(a: real, b: real, d: Duration)
    ensures Charge(a + b, d) == Charge(a, d) + Charge(b, d)
  {
  }

  lemma ChargeOfNothing(rate: real, d: Duration)
    requires rate == 0.0 || d == 0
    ensures Charge(rate, d) == 0.0
  {
  }

  /** One tick, read off hour by hour: each bucket grows by the whole burn rate
      times its overlap with the interval. */
  lemma {:induction false} BucketsExact(v: LedgerView, ws: seq<Workload>, now: Time, d: Duration, h: int)
    requires 0 <= now - d <= now
    ensures var after := AccrueAll(v, ws, now, d).hourly;
            && Get(after, h) == Get(v.hourly, h) + Charge(TotalRate(ws), Overlap(h, now - d, now))
            && (h in after <==> h in v.hourly || (TotalRate(ws) > 0.0 && Overlap(h, now - d, now) > 0))
  {
    if ws == [] {
      ChargeOfNothing(0.0, Overlap(h, now - d, now));
    } else {
      var init, w := ws[..|ws| - 1], ws[|ws| - 1];
      BucketsExact(v, init, now, d, h);
      RatesNonNegative(init, []);
      RatesAdd(TotalRate(init), Positive(w.hourlyUsd), Overlap(h, now - d, now));
      OneBucket(AccrueAll(v, init, now, d), w, now, d, h);
    }
  }

  lemma OneBucket(v: LedgerView, w: Workload, now: Time, d: Duration, h: int)
    requires 0 <= now - d <= now
    ensures var after := AccrueSpec(v, now, w.app, w.hourlyUsd, d).hourly;
            && Get(after, h) == Get(v.hourly, h) + Charge(Positive(w.hourlyUsd), Overlap(h, now - d, now))
            && (h in after <==> h in v.hourly || (Positive(w.hourlyUsd) > 0.0 && Overlap(h, now - d, now) > 0))
  {
    if d <= 0 || w.hourlyUsd <= 0.0 {
      ChargeOfNothing(Positive(w.hourlyUsd), Overlap(h, now - d, now));
    } else {
      SpreadIsExact(v.hourly, now - d, now, w.hourlyUsd, h);
    }
  }

  lemma {:induction false} AppsExact(v: LedgerView, ws: seq<Workload>, now: Time, d: Duration, app: Text)
    requires d >= 0
    ensures var after := AccrueAll(v, ws, now, d).apps;
            && Get(after, app) == Get(v.apps, app) + Charge(AppRate(ws, app), d)
            && (app in after <==> app in v.apps || (AppRate(ws, app) > 0.0 && d > 0))
  {
    if ws == [] {
      ChargeOfNothing(0.0, d);
    } else {
      var init, w := ws[..|ws| - 1], ws[|ws| - 1];
      AppsExact(v, init, now, d, app);
      RatesNonNegative(init, app);
      RatesAdd(AppRate(init, app), Positive(w.hourlyUsd), d);
      ChargeOfNothing(0.0, d);
      if d == 0 {
        ChargeOfNothing(Positive(w.hourlyUsd), d);
      }
    }
  }

  lemma {:induction false} RestUntouched(v: LedgerView, ws: seq<Workload>, now: Time, d: Duration)
    ensures AccrueAll(v, ws, now, d) == v.(hourly := AccrueAll(v, ws, now, d).hourly, apps := AccrueAll(v, ws, now, d).apps)
  {
    if ws != [] {
      RestUntouched(v, ws[..|ws| - 1], now, d);
    }
  }

  /** Two ticks over an unchanged set of workloads charge what one tick over
      both intervals charges, hour by hour and application by application. */
  lemma TicksJoin(v: LedgerView, ws: seq<Workload>, a: Time, b: Time, c: Time)
    requires 0 <= a <= b <= c
    ensures AccrueAll(AccrueAll(v, ws, b, b - a), ws, c, c - b) == AccrueAll(v, ws, c, c - a)
  {
    hide AccrueAll;
    var mid := AccrueAll(v, ws, b, b - a);
    var twice, once := AccrueAll(mid, ws, c, c - b), AccrueAll(v, ws, c, c - a);
    forall h
      ensures Get(twice.hourly, h) == Get(once.hourly, h) && (h in twice.hourly <==> h in once.hourly)
    {
      BucketsJoin(v, ws, a, b, c, h);
    }
    SameByGet(twice.hourly, once.hourly);
    forall app
      ensures Get(twice.apps, app) == Get(once.apps, app) && (app in twice.apps <==> app in once.apps)
    {
      AppsJoin(v, ws, a, b, c, app);
    }
    SameByGet(twice.apps, once.apps);
    RestUntouched(v, ws, b, b - a);
    RestUntouched(mid, ws, c, c - b);
    RestUntouched(v, ws, c, c - a);
  }

  lemma SameByGet<K(!new)>(m: map<K, real>, m': map<K, real>)
    requires forall k :: Get(m, k) == Get(m', k) && (k in m <==> k in m')
    ensures m == m'
  {
    forall k | k in m
      ensures m[k] == m'[k]
    {
      assert Get(m, k) == Get(m', k);
    }
  }

  lemma BucketsJoin(v: LedgerView, ws: seq<Workload>, a: Time, b: Time, c: Time, h: int)
    requires 0 <= a <= b <= c
    ensures var twice, once := AccrueAll(AccrueAll(v, ws, b, b - a), ws, c, c - b).hourly, AccrueAll(v, ws, c, c - a).hourly;
            Get(twice, h) == Get(once, h) && (h in twice <==> h in once)
  {
    hide AccrueAll, TotalRate, Charge, Overlap;
    BucketsExact(v, ws, b, b - a, h);
    BucketsExact(AccrueAll(v, ws, b, b - a), ws, c, c - b, h);
    BucketsExact(v, ws, c, c - a, h);
    OverlapSplits(h, a, b, c);
    ChargeAdds(TotalRate(ws), Overlap(h, a, b), Overlap(h, b, c));
  }

  lemma AppsJoin(v: LedgerView, ws: seq<Workload>, a: Time, b: Time, c: Time, app: Text)
    requires 0 <= a <= b <= c
    ensures var twice, once := AccrueAll(AccrueAll(v, ws, b, b - a), ws, c, c - b).apps, AccrueAll(v, ws, c, c - a).apps;
            Get(twice, app) == Get(once, app) && (app in twice <==> app in once)
  {
    hide AccrueAll, AppRate, Charge;
    AppsExact(v, ws, b, b - a, app);
    AppsExact(AccrueAll(v, ws, b, b - a), ws, c, c - b, app);
    AppsExact(v, ws, c, c - a, app);
    ChargeAdds(AppRate(ws, app), b - a, c - b);
  }

  /** What one tick charges: nothing on the first, and after that everything since the
      last, or since the period began if that is later, to each hour for the part of the
      interval inside it and to each application for all of it. */
  lemma TickBills(b: Books, ws: seq<Workload>, now: Time, h: int, app: Text)
    requires 0 <= b.ledger.start
    ensures
      var from := if b.last.None? then now else Min(now, Max(b.last.value, b.ledger.start));
      var w := TickSpec(b, ws, now);
      && Get(w.ledger.hourly, h) == Get(b.ledger.hourly, h) + Charge(TotalRate(ws), Overlap(h, from, now))
      && Get(w.ledger.apps, app) == Get(b.ledger.apps, app) + Charge(AppRate(ws, app), now - from)
      && w.last == Some(now) && w.observed == b.observed
      && w.ledger == b.ledger.(hourly := w.ledger.hourly, apps := w.ledger.apps)
  {
    hide AccrueAll, Charge, Overlap, TotalRate, AppRate;
    var from := if b.last.None? then now else Min(now, Max(b.last.value, b.ledger.start));
    var d := BillableInterval(b, now);
    RestUntouched(b.ledger, ws, now, d);
    assert d == now - from;
    if d > 0 {
      BucketsExact(b.ledger, ws, now, d, h);
      AppsExact(b.ledger, ws, now, d, app);
    } else {
      NothingBilled(b.ledger, ws, now, d);
      NoOverlap(h, now, TotalRate(ws));
      ChargeOfNothing(AppRate(ws, app), 0);
    }
  }

  /** What comes of a checkpoint: none is a first run, one of another period is left
      alone, one that cannot be read or does not replay is a failure and never a fresh
      start; and only a good one changes the books. */
  lemma RestoreOutcomes(b: Books, loaded: Loaded)
    ensures
      var (w, outcome) := RestoreSpecOf(b, loaded);
      var readable := loaded.Found? && loaded.cp.version == 1;
      var ours := readable && loaded.cp.ledger.periodStart == b.ledger.start && loaded.cp.ledger.periodEnd == b.ledger.end;
      && (outcome == FirstRun <==> loaded.NoCheckpoint?)
      && (outcome == OtherPeriod <==> readable && !ours)
      && (outcome == Restored <==> ours && RestoreSpec(loaded.cp.ledger).Some?)
      && (outcome == Failed <==> loaded.LoadFailed? || (loaded.Found? && !readable)
                                 || (ours && RestoreSpec(loaded.cp.ledger).None?))
      && (outcome != Restored ==> w == b)
      && (outcome == Restored ==> w == Books(RestoreSpec(loaded.cp.ledger).value, loaded.cp.last, loaded.cp.observed))
  {
    hide RestoreSpec;
  }

  // ---------------------------------------------------------------- restarts

  function Ticks(b: Books, ws: seq<Workload>, ts: seq<Time>): Books {
    if ts == [] then b else TickSpec(Ticks(b, ws, ts[..|ts| - 1]), ws, ts[|ts| - 1])
  }

  predicate Increasing(from: Time, ts: seq<Time>) {
    && (forall i :: 0 <= i < |ts| ==> from <= ts[i])
    && (forall i, j :: 0 <= i < j < |ts| ==> ts[i] <= ts[j])
  }

  /** Any partition of an interval into ticks bills what one tick bills. */
  lemma {:induction false} TicksAreOneTick(b: Books, ws: seq<Workload>, ts: seq<Time>)
    requires b.last.Some? && 0 <= b.ledger.start
    requires ts != [] && Increasing(b.last.value, ts)
    ensures Ticks(b, ws, ts) == TickSpec(b, ws, ts[|ts| - 1])
  {
    hide AccrueAll;
    var n := |ts| - 1;
    if n == 0 {
      assert ts[..0] == [];
    } else {
      TicksAreOneTick(b, ws, ts[..n]);
      assert ts[..n][n - 1] == ts[n - 1];
      TwoTicksAreOne(b, ws, ts[n - 1], ts[n]);
    }
  }

  lemma TwoTicksAreOne(b: Books, ws: seq<Workload>, t: Time, t': Time)
    requires b.last.Some? && 0 <= b.ledger.start && b.last.value <= t <= t'
    ensures TickSpec(TickSpec(b, ws, t), ws, t') == TickSpec(b, ws, t')
  {
    hide AccrueAll;
    var d := BillableInterval(b, t);
    RestUntouched(b.ledger, ws, t, d);
    if t <= b.ledger.start {
      NothingBilled(b.ledger, ws, t, d);
    } else {
      TicksJoin(b.ledger, ws, Max(b.last.value, b.ledger.start), t, t');
    }
  }

  /** A restored kernel's books, but for the record of past disagreements. */
  lemma RestoredBooks(b: Books, newborn: Books)
    requires Sound(b.ledger)
    requires newborn.ledger.start == b.ledger.start && newborn.ledger.end == b.ledger.end
    ensures RestoreSpecOf(newborn, Found(SaveSpec(b)))
         == (b.(ledger := b.ledger.(discrepancies := Recomputed(b.ledger, |b.ledger.confirmations|))), Restored)
  {
    hide Recomputed, Sound, RestoreSpec;
    RestoreInvertsSnapshot(b.ledger);
  }

  /** The kernel that never stopped and the kernel that was saved, lost and
      restored at the end of the same gap agree on every bucket, every
      application and every window. */
  lemma RestartGapBilledAtOnce(b: Books, newborn: Books, ws: seq<Workload>, ts: seq<Time>)
    requires Sound(b.ledger) && b.last.Some? && 0 <= b.ledger.start
    requires newborn.ledger.start == b.ledger.start && newborn.ledger.end == b.ledger.end
    requires ts != [] && Increasing(b.last.value, ts)
    ensures RestoreSpecOf(newborn, Found(SaveSpec(b))).1 == Restored
    ensures TickSpec(RestoreSpecOf(newborn, Found(SaveSpec(b))).0, ws, ts[|ts| - 1])
         == Ticks(b, ws, ts).(ledger := Ticks(b, ws, ts).ledger.(discrepancies := Recomputed(b.ledger, |b.ledger.confirmations|)))
  {
    hide AccrueAll, Sound, Recomputed, RestoreSpecOf, SaveSpec, Ticks, Increasing;
    RestoredBooks(b, newborn);
    TicksAreOneTick(b, ws, ts);
    var now := ts[|ts| - 1];
    OnlyFiguresMatter(b.ledger, Recomputed(b.ledger, |b.ledger.confirmations|), ws, now, BillableInterval(b, now));
  }

  lemma {:induction false} OnlyFiguresMatter(v: LedgerView, ds: seq<Discrepancy>, ws: seq<Workload>, now: Time, d: Duration)
    ensures AccrueAll(v.(discrepancies := ds), ws, now, d) == AccrueAll(v, ws, now, d).(discrepancies := ds)
  {
    if ws != [] {
      OnlyFiguresMatter(v, ds, ws[..|ws| - 1], now, d);
    }
  }
}
