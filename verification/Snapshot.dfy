/** A ledger in a form that survives a restart, and its validated replay. */
module Snapshots {
  import opened Basics
  import opened Sums
  import opened LedgerSpec
  import opened Ledgers
  import opened CostGuard

  const SNAPSHOT_VERSION := 1

  /** An hour's index as text: a decimal, or something else found in its place. */
  datatype HourText = Decimal(hour: int) | NotDecimal(text: Text)

  datatype Snapshot = Snapshot(
    version: int, periodStart: Time, periodEnd: Time,
    hourly: map<HourText, real>, apps: map<Text, real>,
    confirmations: seq<Confirmation>)

  datatype RestoreError =
    | UnknownVersion
    | PeriodInvalid
    | BadHour
    | NegativeHour
    | NegativeApp
    | ReplayRefused(error: ConfirmError)

  function HourTexts(hourly: map<int, real>): map<HourText, real> {
    map k | k in (set h | h in hourly :: Decimal(h)) :: hourly[k.hour]
  }

  function HoursOf(texts: map<HourText, real>): map<int, real> {
    map h | h in (set k | k in texts && k.Decimal? :: k.hour) :: texts[Decimal(h)]
  }

  function SnapshotSpec(v: LedgerView): Snapshot {
    Snapshot(SNAPSHOT_VERSION, v.start, v.end, HourTexts(v.hourly), v.apps, v.confirmations)
  }

  /** Confirm each in turn; nothing, when one of them is refused. */
  ghost function Replay(v: LedgerView, cs: seq<Confirmation>): Option<LedgerView>
    decreases |cs|
  {
    if cs == [] then Some(v)
    else if Refusal(v, cs[0]).Some? then None
    else Replay(ConfirmSpec(v, cs[0]), cs[1..])
  }

  ghost predicate HoursWellFormed(texts: map<HourText, real>) {
    forall k :: k in texts ==> k.Decimal? && texts[k] >= 0.0
  }

  /** The ledger a checkpoint's windows are replayed into. */
  ghost function Header(s: Snapshot): LedgerView {
    NewLedger(s.periodStart, s.periodEnd).(hourly := HoursOf(s.hourly), apps := s.apps)
  }

  ghost function RestoreSpec(s: Snapshot): Option<LedgerView> {
    if s.version == SNAPSHOT_VERSION && s.periodStart < s.periodEnd
       && HoursWellFormed(s.hourly) && NonNegative(s.apps)
    then Replay(Header(s), s.confirmations)
    else None
  }

  /** A checkpoint is not trusted: whatever it holds, a ledger restored from it
      satisfies the invariant the clamp and the limit depend on. */
  lemma RestoredIsSound(s: Snapshot)
    ensures RestoreSpec(s).Some? ==> Sound(RestoreSpec(s).value)
  {
    if s.version == SNAPSHOT_VERSION && s.periodStart < s.periodEnd && HoursWellFormed(s.hourly) && NonNegative(s.apps) {
      HeaderIsSound(s);
      ReplayKeepsSound(Header(s), s.confirmations);
    }
  }

  lemma {:induction false} ReplayKeepsSound(v: LedgerView, cs: seq<Confirmation>)
    requires Sound(v)
    ensures Replay(v, cs).Some? ==> Sound(Replay(v, cs).value)
    decreases |cs|
  {
    if cs != [] && Refusal(v, cs[0]).None? {
      ConfirmKeepsSound(v, cs[0]);
      ReplayKeepsSound(ConfirmSpec(v, cs[0]), cs[1..]);
    }
  }

  predicate Inside(v: LedgerView, c: Confirmation) {
    c.usd >= 0.0 && c.start < c.end && v.start <= c.start && c.end <= v.end
  }

  predicate Apart(a: Confirmation, b: Confirmation) { a.end <= b.start || b.end <= a.start }

  /** A list of windows that a ledger can take one after another, in this order or any. */
  predicate Fit(v: LedgerView, cs: seq<Confirmation>) {
    && (forall i :: 0 <= i < |cs| ==> Inside(v, cs[i]))
    && (forall i, e :: 0 <= i < |cs| && e in v.confirmations ==> Apart(cs[i], e))
    && (forall i, j :: 0 <= i < j < |cs| ==> Apart(cs[i], cs[j]))
  }

  lemma RefusedUnlessFit(v: LedgerView, c: Confirmation)
    requires Sound(v)
    ensures Refusal(v, c).None? <==> Inside(v, c) && forall e :: e in v.confirmations ==> Apart(c, e)
  {
    if c.start < c.end {
      forall e | e in v.confirmations
        ensures Overlapping(c, e) <==> !Apart(c, e)
      {
        var i :| 0 <= i < |v.confirmations| && v.confirmations[i] == e;
      }
    }
  }

  lemma FitOneByOne(v: LedgerView, cs: seq<Confirmation>)
    requires Sound(v) && cs != [] && Refusal(v, cs[0]).None?
    ensures Fit(v, cs) <==> Fit(ConfirmSpec(v, cs[0]), cs[1..])
  {
    hide Disagreement, InsertByStart;
    var w, rest := ConfirmSpec(v, cs[0]), cs[1..];
    RefusedUnlessFit(v, cs[0]);
    hide Sound, Refusal;
    InsertHasOnly(v.confirmations, cs[0]);
    assert forall i :: 0 <= i < |rest| ==> rest[i] == cs[i + 1];
    if Fit(w, rest) {
      assert cs[0] in w.confirmations;
      assert forall i :: 0 <= i < |rest| ==> Apart(rest[i], cs[0]);
      assert forall i :: 1 <= i < |cs| ==> cs[i] == rest[i - 1];
    }
  }

  lemma InsertHasOnly(cs: seq<Confirmation>, c: Confirmation)
    ensures forall e :: e in InsertByStart(cs, c) <==> e == c || e in cs
  {
    InsertKeepsAll(cs, c);
    forall e
      ensures e in InsertByStart(cs, c) <==> e == c || e in cs
    {
      assert e in multiset(InsertByStart(cs, c)) <==> e in multiset(cs) + multiset{c};
    }
  }

  lemma {:induction false} ReplaysIffFit(v: LedgerView, cs: seq<Confirmation>)
    requires Sound(v)
    ensures Replay(v, cs).Some? <==> Fit(v, cs)
    ensures Replay(v, cs).Some? ==>
      var w := Replay(v, cs).value;
      && w == v.(confirmations := w.confirmations, discrepancies := w.discrepancies)
      && multiset(w.confirmations) == multiset(v.confirmations) + multiset(cs)
    decreases |cs|
  {
    if cs != [] {
      hide Fit, Sound, Refusal, ConfirmSpec;
      var c := cs[0];
      assert cs == [c] + cs[1..];
      if Refusal(v, c).None? {
        FitOneByOne(v, cs);
        ConfirmKeepsSound(v, c);
        TakenIff(v, c);
        ReplaysIffFit(ConfirmSpec(v, c), cs[1..]);
      } else {
        FirstFits(v, cs);
      }
    }
  }

  lemma FirstFits(v: LedgerView, cs: seq<Confirmation>)
    requires Sound(v) && cs != []
    ensures Fit(v, cs) ==> Refusal(v, cs[0]).None?
  {
    RefusedUnlessFit(v, cs[0]);
  }

  /** What a checkpoint must hold to be restored: the version and a period, hours that
      are hours, no negative figure, and windows inside the period of which no two share
      an instant, in whatever order they were kept. */
  lemma RestoresIff(s: Snapshot)
    ensures RestoreSpec(s).Some? <==>
      && s.version == 1 && s.periodStart < s.periodEnd
      && (forall k :: k in s.hourly ==> k.Decimal? && s.hourly[k] >= 0.0)
      && (forall app :: app in s.apps ==> s.apps[app] >= 0.0)
      && (forall i :: 0 <= i < |s.confirmations| ==>
            var c := s.confirmations[i];
            c.usd >= 0.0 && s.periodStart <= c.start < c.end <= s.periodEnd)
      && (forall i, j :: 0 <= i < j < |s.confirmations| ==> Apart(s.confirmations[i], s.confirmations[j]))
  {
    if s.version == SNAPSHOT_VERSION && s.periodStart < s.periodEnd && HoursWellFormed(s.hourly) && NonNegative(s.apps) {
      hide RestoreSpec, HoursWellFormed, NonNegative;
      ReplaysFromHeader(s);
    }
  }

  lemma ReplaysFromHeader(s: Snapshot)
    requires s.version == SNAPSHOT_VERSION && s.periodStart < s.periodEnd && HoursWellFormed(s.hourly) && NonNegative(s.apps)
    ensures RestoreSpec(s).Some? <==>
      && (forall i :: 0 <= i < |s.confirmations| ==>
            var c := s.confirmations[i];
            c.usd >= 0.0 && s.periodStart <= c.start < c.end <= s.periodEnd)
      && (forall i, j :: 0 <= i < j < |s.confirmations| ==> Apart(s.confirmations[i], s.confirmations[j]))
  {
    hide Replay, Sound, Fit, HoursOf, Apart;
    var base := Header(s);
    HeaderIsSound(s);
    hide HoursWellFormed, NonNegative;
    ReplaysIffFit(base, s.confirmations);
    FitAfresh(base, s.confirmations);
  }

  lemma HeaderIsSound(s: Snapshot)
    requires s.periodStart < s.periodEnd && HoursWellFormed(s.hourly) && NonNegative(s.apps)
    ensures Sound(Header(s))
  {
    HoursListed(s.hourly);
  }

  /** And what is restored from it. */
  lemma RestoredIsWhatWasKept(s: Snapshot)
    requires RestoreSpec(s).Some?
    ensures
      var v := RestoreSpec(s).value;
      && v.start == s.periodStart && v.end == s.periodEnd && v.apps == s.apps
      && (forall h :: h in v.hourly <==> Decimal(h) in s.hourly)
      && (forall h :: h in v.hourly ==> v.hourly[h] == s.hourly[Decimal(h)])
      && multiset(v.confirmations) == multiset(s.confirmations)
  {
    HoursListed(s.hourly);
    HeaderIsSound(s);
    hide Replay, Sound, Fit, HoursOf, NonNegative;
    ReplaysIffFit(Header(s), s.confirmations);
  }

  lemma FitAfresh(v: LedgerView, cs: seq<Confirmation>)
    requires v.confirmations == []
    ensures Fit(v, cs) <==>
      && (forall i :: 0 <= i < |cs| ==> var c := cs[i]; c.usd >= 0.0 && v.start <= c.start < c.end <= v.end)
      && (forall i, j :: 0 <= i < j < |cs| ==> Apart(cs[i], cs[j]))
  {
  }

  lemma HoursListed(texts: map<HourText, real>)
    ensures forall h :: h in HoursOf(texts) <==> Decimal(h) in texts
    ensures forall h :: h in HoursOf(texts) ==> HoursOf(texts)[h] == texts[Decimal(h)]
  {
    forall h
      ensures h in HoursOf(texts) <==> Decimal(h) in texts
    {
      assert Decimal(h).hour == h;
    }
  }

  /** The discrepancies the model as it now stands finds in the first windows. */
  ghost function Recomputed(v: LedgerView, n: nat): seq<Discrepancy>
    requires n <= |v.confirmations|
  {
    if n == 0 then []
    else match Disagreement(v, v.confirmations[n - 1])
         case None => Recomputed(v, n - 1)
         case Some(d) => Recomputed(v, n - 1) + [d]
  }

  lemma {:induction false} InsertLast(cs: seq<Confirmation>, c: Confirmation)
    requires forall e :: e in cs ==> e.start <= c.start
    ensures InsertByStart(cs, c) == cs + [c]
  {
    if cs != [] {
      assert cs[0] in cs;
      assert forall e :: e in cs[1..] ==> e in cs;
      InsertLast(cs[1..], c);
      assert cs == [cs[0]] + cs[1..];
    }
  }

  /** A saved window is admissible after the ones saved before it. */
  lemma NextWindowAdmissible(v: LedgerView, n: nat)
    requires Sound(v) && n < |v.confirmations|
    ensures Refusal(v.(confirmations := v.confirmations[..n]), v.confirmations[n]).None?
    ensures InsertByStart(v.confirmations[..n], v.confirmations[n]) == v.confirmations[..n + 1]
  {
    var c := v.confirmations[n];
    assert c in v.confirmations;
    forall e | e in v.confirmations[..n]
      ensures e.end <= c.start && e.start <= c.start
    {
      var i :| 0 <= i < n && v.confirmations[i] == e;
    }
    InsertLast(v.confirmations[..n], c);
    assert v.confirmations[..n] + [c] == v.confirmations[..n + 1];
  }

  ghost function SavedUpTo(v: LedgerView, n: nat): LedgerView
    requires n <= |v.confirmations|
  {
    v.(confirmations := v.confirmations[..n], discrepancies := Recomputed(v, n))
  }

  lemma NextWindowReplays(v: LedgerView, n: nat)
    requires Sound(v) && n < |v.confirmations|
    ensures Refusal(SavedUpTo(v, n), v.confirmations[n]).None?
    ensures ConfirmSpec(SavedUpTo(v, n), v.confirmations[n]) == SavedUpTo(v, n + 1)
  {
    hide Sound, ExpectedIn, InClamp, InsertByStart;
    NextWindowAdmissible(v, n);
  }

  lemma SavedWhole(v: LedgerView)
    ensures SavedUpTo(v, |v.confirmations|) == v.(discrepancies := Recomputed(v, |v.confirmations|))
  {
    assert v.confirmations[..|v.confirmations|] == v.confirmations;
  }

  lemma {:induction false} ReplayFrom(v: LedgerView, n: nat)
    requires Sound(v) && n <= |v.confirmations|
    ensures Replay(SavedUpTo(v, n), v.confirmations[n..])
         == Some(v.(discrepancies := Recomputed(v, |v.confirmations|)))
    decreases |v.confirmations| - n
  {
    hide Sound, ConfirmSpec, Refusal, SavedUpTo, Recomputed;
    if n == |v.confirmations| {
      SavedWhole(v);
    } else {
      NextWindowReplays(v, n);
      assert v.confirmations[n..][1..] == v.confirmations[n + 1..];
      ReplayFrom(v, n + 1);
    }
  }

  lemma HoursRoundTrip(hourly: map<int, real>)
    ensures HoursOf(HourTexts(hourly)) == hourly
    ensures NonNegative(hourly) ==> HoursWellFormed(HourTexts(hourly))
  {
    var texts := HourTexts(hourly);
    forall h
      ensures h in HoursOf(texts) <==> h in hourly
      ensures h in hourly ==> HoursOf(texts)[h] == hourly[h]
    {
      assert Decimal(h) in texts <==> h in hourly;
    }
  }

  /** Restoring what a ledger was saved as always succeeds, and everything but
      the record of past disagreements comes back as it was. */
  lemma RestoreInvertsSnapshot(v: LedgerView)
    requires Sound(v)
    ensures RestoreSpec(SnapshotSpec(v)) == Some(v.(discrepancies := Recomputed(v, |v.confirmations|)))
  {
    hide HoursOf, HourTexts, HoursWellFormed, Replay;
    HoursRoundTrip(v.hourly);
    ReplayFrom(v, 0);
    assert v.confirmations[..0] == [] && v.confirmations[0..] == v.confirmations;
    assert NewLedger(v.start, v.end).(hourly := v.hourly, apps := v.apps) == SavedUpTo(v, 0);
  }

  lemma {:induction false} TallyIgnoresDiscrepancies(v: LedgerView, ds: seq<Discrepancy>, n: nat)
    requires n <= |v.confirmations|
    ensures TallyOf(v.(discrepancies := ds), n) == TallyOf(v, n)
  {
    hide Counted, CalibratesFrom, CalibratesTo;
    if n > 0 {
      TallyIgnoresDiscrepancies(v, ds, n - 1);
    }
  }

  /** Every figure enforcement reads survives a restart. */
  lemma RestartKeepsFigures(v: LedgerView)
    requires Sound(v)
    ensures RestoreSpec(SnapshotSpec(v)).Some?
    ensures AccruedSpec(RestoreSpec(SnapshotSpec(v)).value)
         == AccruedSpec(v).(discrepancies := Recomputed(v, |v.confirmations|))
  {
    hide Calibration, Estimate, TallyOf, Recomputed, Sound, Raw, RestoreSpec, SnapshotSpec;
    RestoreInvertsSnapshot(v);
    TallyIgnoresDiscrepancies(v, Recomputed(v, |v.confirmations|), |v.confirmations|);
    RawIgnoresDiscrepancies(v, Recomputed(v, |v.confirmations|));
  }

  lemma RawIgnoresDiscrepancies(v: LedgerView, ds: seq<Discrepancy>)
    ensures Raw(v.(discrepancies := ds)) == Raw(v)
  {
  }

  // ---------------------------------------------------------------- methods

  method TakeSnapshot(l: Ledger) returns (s: Snapshot)
    ensures s == SnapshotSpec(l.View())
  {
    var texts: map<HourText, real> := map[];
    var rest := l.hourly.Keys;
    while rest != {}
      invariant rest <= l.hourly.Keys
      invariant texts == HourTexts(l.hourly - rest)
      decreases rest
    {
      ghost var _ := Member(rest);
      var h :| h in rest;
      texts := texts[Decimal(h) := l.hourly[h]];
      rest := rest - {h};
    }
    assert l.hourly - {} == l.hourly;
    s := Snapshot(SNAPSHOT_VERSION, l.periodStart, l.periodEnd, texts, l.apps, l.confirmations);
  }

  lemma OneMoreHour(texts: map<HourText, real>, rest: set<HourText>, k: HourText)
    requires rest <= texts.Keys && k in rest && k.Decimal?
    ensures HoursOf(texts - (rest - {k})) == HoursOf(texts - rest)[k.hour := texts[k]]
  {
    var before, after := texts - rest, texts - (rest - {k});
    assert after == before[k := texts[k]];
    assert Decimal(k.hour) == k;
    forall h
      ensures h in HoursOf(after) <==> h in HoursOf(before) || h == k.hour
    {
      assert Decimal(h) in after <==> Decimal(h) in before || h == k.hour;
    }
  }

  method CopyHours(texts: map<HourText, real>, l: Ledger) returns (e: Option<RestoreError>)
    modifies l`hourly
    requires l.hourly == map[]
    ensures e.None? <==> HoursWellFormed(texts)
    ensures e.None? ==> l.hourly == HoursOf(texts)
    ensures e.Some? ==> e.value.BadHour? || e.value.NegativeHour?
  {
    assert HoursOf(texts - texts.Keys) == map[];
    hide HoursOf;
    var rest := texts.Keys;
    while rest != {}
      invariant rest <= texts.Keys
      invariant l.hourly == HoursOf(texts - rest)
      invariant forall k :: k in texts && k !in rest ==> k.Decimal? && texts[k] >= 0.0
      decreases rest
    {
      ghost var _ := Member(rest);
      var k :| k in rest;
      var v := texts[k];
      if k.NotDecimal? {
        return Some(BadHour);
      }
      if v < 0.0 {
        return Some(NegativeHour);
      }
      OneMoreHour(texts, rest, k);
      l.hourly := l.hourly[k.hour := v];
      rest := rest - {k};
    }
    assert texts - {} == texts;
    return None;
  }

  method CopyApps(apps: map<Text, real>, l: Ledger) returns (ok: bool)
    modifies l`apps
    requires l.apps == map[]
    ensures ok <==> NonNegative(apps)
    ensures ok ==> l.apps == apps
  {
    var rest := apps.Keys;
    while rest != {}
      invariant rest <= apps.Keys
      invariant l.apps == apps - rest
      invariant NonNegative(apps - rest)
      decreases rest
    {
      ghost var _ := Member(rest);
      var k :| k in rest;
      if apps[k] < 0.0 {
        return false;
      }
      l.apps := l.apps[k := apps[k]];
      rest := rest - {k};
    }
    assert apps - {} == apps;
    return true;
  }

  method Restore(s: Snapshot) returns (l: Ledger?, e: Option<RestoreError>)
    ensures l == null <==> RestoreSpec(s).None?
    ensures l == null <==> e.Some?
    ensures l != null ==> fresh(l) && RestoreSpec(s) == Some(l.View())
    ensures e == Some(UnknownVersion) <==> s.version != SNAPSHOT_VERSION
    ensures e == Some(PeriodInvalid) <==> s.version == SNAPSHOT_VERSION && s.periodEnd <= s.periodStart
  {
    if s.version != SNAPSHOT_VERSION {
      return null, Some(UnknownVersion);
    }
    if !(s.periodEnd > s.periodStart) {
      return null, Some(PeriodInvalid);
    }
    var r := new Ledger(s.periodStart, s.periodEnd);
    var bad := CopyHours(s.hourly, r);
    if bad.Some? {
      return null, bad;
    }
    var ok := CopyApps(s.apps, r);
    if !ok {
      return null, Some(NegativeApp);
    }
    ghost var base := r.View();
    for i := 0 to |s.confirmations|
      invariant Replay(r.View(), s.confirmations[i..]) == Replay(base, s.confirmations)
    {
      assert s.confirmations[i..][1..] == s.confirmations[i + 1..];
      var c := r.Confirm(s.confirmations[i]);
      if c.Err? {
        return null, Some(ReplayRefused(c.error));
      }
    }
    return r, None;
  }
}
