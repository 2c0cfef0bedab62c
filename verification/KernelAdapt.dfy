/** The kernel's side of resizing: the cluster's veto over a recommendation, the
    pass that applies advice, and the cooldown that survives restarts because
    its record lives on the workload. */
module KernelAdapt {
  import opened Basics
  import opened LedgerSpec
  import opened Limits
  import Adapt

  const DEFAULT_COOLDOWN: Duration := 6 * 3_600_000_000_000
  const HOURS_PER_MONTH := 730.0

  /** The adapted-at annotation: whole seconds once written, or text that does
      not parse. */
  datatype Stamp = At(seconds: int) | Unparseable(text: Text)

  /** Formatting drops the fraction of a second. */
  function Format(now: Time): Stamp { At(now / 1_000_000_000) }

  /** What a workload is for: the kernel resizes applications and nothing else. */
  datatype Tier = App | Other

  datatype Deployment = Deployment(tier: Tier, containers: nat, cpu: int, mem: int, replicas: int, stamp: Option<Stamp>)

  type Cluster = map<Text, Deployment>

  /** What is known about the instance's spending when a pass begins. */
  datatype Spending = Spending(total: real, limit: real, rateHourly: real, periodEnd: Time)

  datatype HoldReason = NoProfile | ManyContainers | Cooldown(left: Duration) | WouldReachLimit

  /** The cooldown in force: an unset one is the default. */
  function Effective(cooldown: Duration): (cd: Duration)
    ensures cd > 0
  {
    if cooldown <= 0 then DEFAULT_COOLDOWN else cooldown
  }

  /** An absent or unparseable stamp reads as "never resized". */
  function CooldownLeft(stamp: Option<Stamp>, now: Time, cooldown: Duration): Duration {
    match stamp
    case Some(At(seconds)) => Max(0, Effective(cooldown) - (now - seconds * 1_000_000_000))
    case _ => 0
  }

  function MonthlyDelta(price: Adapt.Price, a: Adapt.Advice, replicas: int): real {
    (price(a.cpu, a.mem) - price(a.currentCpu, a.currentMem)) * Max(replicas, 1) as real
  }

  /** The cluster's veto over an otherwise sound recommendation. */
  function Veto(price: Adapt.Price, d: Deployment, a: Adapt.Advice, m: Spending, now: Time, cooldown: Duration): Option<HoldReason> {
    var left := CooldownLeft(d.stamp, now, cooldown);
    if left > 0 then Some(Cooldown(left))
    else
      var delta := MonthlyDelta(price, a, d.replicas);
      var after := Assess(m.total, m.limit, m.rateHourly + delta / HOURS_PER_MONTH, now, m.periodEnd);
      if delta > 0.0 && (after.projectedOver || after.level.Acts()) then Some(WouldReachLimit)
      else None
  }

  /** Advice for one workload, resolved against the cluster: held advice carries
      the current values and no target. */
  function Resolve(price: Adapt.Price, d: Deployment, s: Adapt.Summary, cfg: Adapt.Config, m: Spending, now: Time, cooldown: Duration): Adapt.Advice {
    var a := Adapt.Recommend(price, s, cfg);
    if a.act && Veto(price, d, a, m, now, cooldown).Some? then
      a.(act := false, cpu := a.currentCpu, mem := a.currentMem, stepped := false)
    else a
  }

  /** What the kernel says of a workload: nothing unless it is an application, and to
      leave it alone when it was not measured or its pod has not exactly one container,
      a profile being of the whole pod. */
  function Advise(price: Adapt.Price, d: Deployment, usage: Option<Adapt.Summary>, cfg: Adapt.Config, m: Spending, now: Time,
                  cooldown: Duration): Option<Result<Adapt.Advice, HoldReason>>
  {
    if d.tier != App then None
    else match usage
    case None => Some(Err(NoProfile))
    case Some(s) => if d.containers != 1 then Some(Err(ManyContainers)) else Some(Ok(Resolve(price, d, s, cfg, m, now, cooldown)))
  }

  predicate Acts(advice: Option<Result<Adapt.Advice, HoldReason>>) {
    advice.Some? && advice.value.Ok? && advice.value.value.act
  }

  /** What the API server does with a resize: refuses it, or keeps these values. */
  datatype Answer = Refused | Kept(cpu: int, mem: int)

  /** One workload of a pass: its name, what was measured if anything, and the answer
      its resize would get. */
  datatype Item = Item(name: Text, usage: Option<Adapt.Summary>, answer: Answer)

  datatype Applied = Applied(name: Text, at: Time)

  datatype Pass = Pass(now: Time, price: Adapt.Price, cfg: Adapt.Config, spending: Spending, cooldown: Duration, items: seq<Item>)

  /** Every workload appears once, as a listing of deployments yields them. */
  predicate Distinct(items: seq<Item>) {
    forall i, j :: 0 <= i < j < |items| ==> items[i].name != items[j].name
  }

  predicate Resizes(c: Cluster, p: Pass, it: Item) {
    && it.name in c
    && it.answer.Kept?
    && Acts(Advise(p.price, c[it.name], it.usage, p.cfg, p.spending, p.now, p.cooldown))
  }

  /** A workload keeps what the API server kept, and the pass's stamp. */
  function WithResize(c: Cluster, after: Cluster, it: Item, now: Time): Cluster
    requires it.name in c && it.answer.Kept?
  {
    after[it.name := c[it.name].(cpu := it.answer.cpu, mem := it.answer.mem, stamp := Some(Format(now)))]
  }

  /** The cluster and the record of applied resizes after the first n items:
      advice is computed against the cluster the pass began with. */
  function PassSpec(c: Cluster, p: Pass, n: nat): (Cluster, seq<Applied>)
    requires n <= |p.items|
  {
    if n == 0 then (c, [])
    else
      var (after, log) := PassSpec(c, p, n - 1);
      var it := p.items[n - 1];
      if Resizes(c, p, it) then
        (WithResize(c, after, it, p.now), log + [Applied(it.name, p.now)])
      else (after, log)
  }

  /** How many of the first n items act and are refused. */
  function RefusedUpTo(c: Cluster, p: Pass, n: nat): nat
    requires n <= |p.items|
  {
    if n == 0 then 0
    else
      var it := p.items[n - 1];
      RefusedUpTo(c, p, n - 1)
      + if it.name in c && it.answer.Refused? && Acts(Advise(p.price, c[it.name], it.usage, p.cfg, p.spending, p.now, p.cooldown))
        then 1 else 0
  }

  class ClusterState {
    var deployments: Cluster

    constructor (c: Cluster)
      ensures deployments == c
    {
      deployments := c;
    }

    /** Advise every workload against the cluster as the pass found it, then
        apply what says to act. One refusal does not stop the rest. */
    method Adapt(p: Pass) returns (applied: seq<Applied>, failed: nat)
      requires Distinct(p.items)
      modifies this
      ensures (deployments, applied) == PassSpec(old(deployments), p, |p.items|)
      ensures failed == RefusedUpTo(old(deployments), p, |p.items|)
    {
      var before := deployments;
      applied, failed := [], 0;
      for i := 0 to |p.items|
        invariant (deployments, applied) == PassSpec(before, p, i)
        invariant failed == RefusedUpTo(before, p, i)
      {
        var it := p.items[i];
        if it.name in before {
          var advice := Advise(p.price, before[it.name], it.usage, p.cfg, p.spending, p.now, p.cooldown);
          if Acts(advice) {
            match it.answer
            case Refused => failed := failed + 1;
            case Kept(cpu, mem) =>
              deployments := deployments[it.name := before[it.name].(cpu := cpu, mem := mem, stamp := Some(Format(p.now)))];
              applied := applied + [Applied(it.name, p.now)];
          }
        }
      }
    }
  }

  // ---------------------------------------------------------------- runs

  /** What survives of a run: the cluster, the record of resizes, the latest
      clock reading. A kernel restart forgets nothing here, because the kernel
      keeps nothing of its own. */
  datatype World = World(cluster: Cluster, log: seq<Applied>, clock: Time)

  /** A pass; a workload changed by somebody else, who leaves its stamp alone; or a
      workload deployed. */
  datatype Event =
    | Passes(pass: Pass)
    | Edits(name: Text, tier: Tier, containers: nat, cpu: int, mem: int, replicas: int)
    | Joins(name: Text, deployment: Deployment)

  function Next(w: World, e: Event): World {
    match e
    case Passes(p) =>
      var (c, applied) := PassSpec(w.cluster, p, |p.items|);
      World(c, w.log + applied, p.now)
    case Edits(name, tier, containers, cpu, mem, replicas) =>
      if name !in w.cluster then w
      else w.(cluster := w.cluster[name := Deployment(tier, containers, cpu, mem, replicas, w.cluster[name].stamp)])
    case Joins(name, d) => if name in w.cluster then w else w.(cluster := w.cluster[name := d])
  }

  /** Passes over one cooldown setting, at non-decreasing clock readings. */
  predicate Admissible(w: World, e: Event, cooldown: Duration) {
    e.Passes? ==> w.clock <= e.pass.now && e.pass.cooldown == cooldown && Distinct(e.pass.items)
  }

  function After(w: World, events: seq<Event>): World {
    if events == [] then w else Next(After(w, events[..|events| - 1]), events[|events| - 1])
  }

  predicate AdmissibleRun(w: World, events: seq<Event>, cooldown: Duration) {
    events == [] ||
    (AdmissibleRun(w, events[..|events| - 1], cooldown)
     && Admissible(After(w, events[..|events| - 1]), events[|events| - 1], cooldown))
  }

  /** How long a workload rests after a resize: six hours, unless told otherwise. */
  function Rest(cooldown: Duration): Duration { if cooldown > 0 then cooldown else 21_600_000_000_000 }

  /** Any two resizes of one workload are more than the cooldown less a second
      apart, and the last one is what its stamp says. */
  ghost predicate Spaced(w: World, cooldown: Duration) {
    && (forall i, j :: 0 <= i < j < |w.log| && w.log[i].name == w.log[j].name ==>
          w.log[j].at - w.log[i].at > Rest(cooldown) - 1_000_000_000)
    && (forall i :: 0 <= i < |w.log| ==> w.log[i].at <= w.clock)
    && (forall i :: 0 <= i < |w.log| ==> StampCovers(w.cluster, w.log[i]))
  }

  /** The stamp is no earlier than the second this resize happened in. */
  predicate StampCovers(c: Cluster, a: Applied) {
    && a.name in c
    && c[a.name].stamp.Some? && c[a.name].stamp.value.At?
    && a.at / 1_000_000_000 <= c[a.name].stamp.value.seconds
  }

  /** What a pass has added so far: at most one resize per workload it has come to,
      each past the cooldown counted from the stamp the pass began with. */
  ghost predicate Adds(c: Cluster, p: Pass, n: nat, after: Cluster, log: seq<Applied>)
    requires n <= |p.items|
  {
    && (forall a :: a in log ==> a.at == p.now && a.name in c && CooldownLeft(c[a.name].stamp, p.now, p.cooldown) == 0)
    && (forall a :: a in log ==> a.name in after && after[a.name].stamp == Some(Format(p.now)))
    && (forall k :: k in c ==> k in after)
    && (forall k :: k in c && after[k] != c[k] ==> Applied(k, p.now) in log)
    && (forall i, j :: 0 <= i < j < |log| ==> log[i].name != log[j].name)
    && (forall a :: a in log ==> exists i :: 0 <= i < n && p.items[i].name == a.name)
  }

  lemma AddsOne(c: Cluster, p: Pass, n: nat, after: Cluster, log: seq<Applied>)
    requires n < |p.items| && Distinct(p.items) && Adds(c, p, n, after, log) && Resizes(c, p, p.items[n])
    ensures
      var it := p.items[n];
      Adds(c, p, n + 1, WithResize(c, after, it, p.now), log + [Applied(it.name, p.now)])
  {
    var it := p.items[n];
    assert CooldownLeft(c[it.name].stamp, p.now, p.cooldown) == 0;
    hide Advise, CooldownLeft, Format;
    forall a | a in log
      ensures a.name != it.name && exists i :: 0 <= i < n + 1 && p.items[i].name == a.name
    {
      var i :| 0 <= i < n && p.items[i].name == a.name;
    }
    forall a | a in log + [Applied(it.name, p.now)]
      ensures a in log || a == Applied(it.name, p.now)
    {
    }
    assert p.items[n].name == it.name;
    assert Applied(it.name, p.now) in log + [Applied(it.name, p.now)];
  }

  lemma AddsNone(c: Cluster, p: Pass, n: nat, after: Cluster, log: seq<Applied>)
    requires n < |p.items| && Adds(c, p, n, after, log)
    ensures Adds(c, p, n + 1, after, log)
  {
    hide CooldownLeft;
    forall a | a in log
      ensures exists i :: 0 <= i < n + 1 && p.items[i].name == a.name
    {
      var i :| 0 <= i < n && p.items[i].name == a.name;
    }
  }

  lemma PassOne(c: Cluster, p: Pass, n: nat)
    requires 0 < n <= |p.items|
    ensures
      var it := p.items[n - 1];
      var (before, log) := PassSpec(c, p, n - 1);
      PassSpec(c, p, n) ==
      if Resizes(c, p, it) then
        (WithResize(c, before, it, p.now), log + [Applied(it.name, p.now)])
      else (before, log)
  {
    hide Advise;
  }

  lemma {:induction false} PassAdds(c: Cluster, p: Pass, n: nat)
    requires n <= |p.items| && Distinct(p.items)
    ensures Adds(c, p, n, PassSpec(c, p, n).0, PassSpec(c, p, n).1)
  {
    if n > 0 {
      hide Adds, Distinct, WithResize, Advise, Acts;
      var (before, log) := PassSpec(c, p, n - 1);
      PassOne(c, p, n);
      PassAdds(c, p, n - 1);
      hide PassSpec;
      if Resizes(c, p, p.items[n - 1]) {
        AddsOne(c, p, n - 1, before, log);
      } else {
        AddsNone(c, p, n - 1, before, log);
      }
    }
  }

  /** A resize allowed by a stamp comes more than the cooldown less a second
      after every resize the stamp covers. */
  lemma AllowedMeansSpaced(c: Cluster, a: Applied, now: Time, cooldown: Duration)
    requires StampCovers(c, a) && CooldownLeft(c[a.name].stamp, now, cooldown) == 0
    ensures now - a.at > Rest(cooldown) - 1_000_000_000
  {
  }

  lemma PassKeepsSpaced(w: World, p: Pass, cooldown: Duration)
    requires Spaced(w, cooldown) && Admissible(w, Passes(p), cooldown)
    ensures Spaced(Next(w, Passes(p)), cooldown)
  {
    hide PassSpec, CooldownLeft;
    PassAdds(w.cluster, p, |p.items|);
    var (after, applied) := PassSpec(w.cluster, p, |p.items|);
    var w' := Next(w, Passes(p));
    assert forall k :: |w.log| <= k < |w'.log| ==> w'.log[k] == applied[k - |w.log|];
    forall i, j | 0 <= i < j < |w'.log| && w'.log[i].name == w'.log[j].name
      ensures w'.log[j].at - w'.log[i].at > Rest(cooldown) - 1_000_000_000
    {
      if j >= |w.log| {
        assert w'.log[j] == applied[j - |w.log|] && w'.log[j] in applied;
        assert i < |w.log|;
        AllowedMeansSpaced(w.cluster, w.log[i], p.now, cooldown);
      }
    }
    forall i | 0 <= i < |w'.log|
      ensures w'.log[i].at <= w'.clock && StampCovers(w'.cluster, w'.log[i])
    {
      var a := w'.log[i];
      if i < |w.log| {
        assert a == w.log[i];
        StampAdvances(w.cluster, after, applied, a, p.now);
      } else {
        assert a == applied[i - |w.log|] && a in applied;
        NewStampCovers(after, a, p.now);
      }
    }
  }

  lemma NewStampCovers(after: Cluster, a: Applied, now: Time)
    requires a.name in after && after[a.name].stamp == Some(Format(now)) && a.at <= now
    ensures StampCovers(after, a)
  {
  }

  lemma StampAdvances(before: Cluster, after: Cluster, applied: seq<Applied>, a: Applied, now: Time)
    requires StampCovers(before, a) && a.at <= now && a.name in before && a.name in after
    requires after[a.name] != before[a.name] ==> Applied(a.name, now) in applied
    requires Applied(a.name, now) in applied ==> after[a.name].stamp == Some(Format(now))
    ensures StampCovers(after, a)
  {
    if after[a.name] != before[a.name] {
      NewStampCovers(after, a, now);
    }
  }

  /** Nor does anybody who leaves the stamps alone change what they say. */
  lemma NextKeepsSpaced(w: World, e: Event, cooldown: Duration)
    requires Spaced(w, cooldown) && Admissible(w, e, cooldown)
    ensures Spaced(Next(w, e), cooldown)
  {
    match e
    case Passes(p) => PassKeepsSpaced(w, p, cooldown);
    case _ =>
      var w' := Next(w, e);
      assert w'.log == w.log && w'.clock == w.clock;
      forall i | 0 <= i < |w.log|
        ensures StampCovers(w'.cluster, w.log[i])
      {
        assert StampCovers(w.cluster, w.log[i]);
      }
  }

  /** The cooldown holds over every run of passes, whatever is measured, advised,
      refused, overridden, deployed or changed by hand, and however often the kernel
      restarts between. */
  lemma {:induction false} CooldownHolds(c: Cluster, start: Time, events: seq<Event>, cooldown: Duration)
    requires AdmissibleRun(World(c, [], start), events, cooldown)
    ensures Spaced(After(World(c, [], start), events), cooldown)
  {
    if events != [] {
      CooldownHolds(c, start, events[..|events| - 1], cooldown);
      NextKeepsSpaced(After(World(c, [], start), events[..|events| - 1]), events[|events| - 1], cooldown);
    }
  }

  /** A pass resizes applications of one container and leaves everything else alone. */
  lemma {:induction false} OnlyApplications(c: Cluster, p: Pass, n: nat)
    requires n <= |p.items| && Distinct(p.items)
    ensures forall name :: name in c && (c[name].tier != App || c[name].containers != 1) ==>
      var after := PassSpec(c, p, n).0;
      name in after && after[name] == c[name]
  {
    hide Resolve;
    if n > 0 { OnlyApplications(c, p, n - 1); }
  }

  /** Long enough after the resize on record, if there is one that can be read. */
  predicate Rested(stamp: Option<Stamp>, now: Time, cooldown: Duration) {
    stamp.Some? && stamp.value.At? ==> now - stamp.value.seconds * 1_000_000_000 >= Rest(cooldown)
  }

  /** A change of the bill that leaves the instance where its operator agreed to: a
      saving, or a growth under which the limit is neither reached nor, at the new rate,
      passed before the period ends. */
  predicate Affordable(m: Spending, monthly: real, now: Time) {
    var burn := m.rateHourly + monthly / 730.0;
    || monthly <= 0.0 || m.limit <= 0.0
    || (m.total < m.limit && (m.periodEnd <= now || burn <= 0.0 || m.total + Charge(burn, m.periodEnd - now) <= m.limit))
  }

  /** What a change would do to the monthly bill, over every replica there is, and over one
      where there is none. */
  function BillChange(price: Adapt.Price, a: Adapt.Advice, replicas: int): real {
    (price(a.cpu, a.mem) - price(a.currentCpu, a.currentMem)) * (if replicas > 1 then replicas else 1) as real
  }

  lemma BillChangeIs(price: Adapt.Price, a: Adapt.Advice, replicas: int)
    ensures BillChange(price, a, replicas) == MonthlyDelta(price, a, replicas)
  {
  }

  /** Which workloads a pass resizes: exactly the applications of one container that
      were measured, whose recommendation says to act, that have rested, and whose change
      can be afforded, when the API server keeps it. */
  lemma ResizesIff(c: Cluster, p: Pass, it: Item)
    ensures Resizes(c, p, it) <==>
      && it.name in c && it.answer.Kept? && it.usage.Some?
      && var d, a := c[it.name], Adapt.Recommend(p.price, it.usage.value, p.cfg);
      && d.tier == App && d.containers == 1
      && a.act && Rested(d.stamp, p.now, p.cooldown)
      && Affordable(p.spending, BillChange(p.price, a, d.replicas), p.now)
  {
    hide Adapt.Recommend, Veto, MonthlyDelta, Affordable, Rested, BillChange;
    if it.name in c && it.usage.Some? {
      var d, a := c[it.name], Adapt.Recommend(p.price, it.usage.value, p.cfg);
      BillChangeIs(p.price, a, d.replicas);
      VetoesIff(p.price, d, a, p.spending, p.now, p.cooldown, BillChange(p.price, a, d.replicas));
    }
  }

  lemma VetoesIff(price: Adapt.Price, d: Deployment, a: Adapt.Advice, m: Spending, now: Time, cooldown: Duration, monthly: real)
    requires monthly == MonthlyDelta(price, a, d.replicas)
    ensures Veto(price, d, a, m, now, cooldown).None? <==> Rested(d.stamp, now, cooldown) && Affordable(m, monthly, now)
  {
    hide Charge, MonthlyDelta, Assess;
    var burn := m.rateHourly + monthly / HOURS_PER_MONTH;
    assert burn == m.rateHourly + monthly / 730.0;
    ActsIffReached(m.total, m.limit, burn, now, m.periodEnd);
    ProjectionNeverActs(m.total, m.limit, burn, now, m.periodEnd);
  }

  /** What is said of a workload, acting or not: nothing unless it is an application, why
      it cannot be advised, or the recommendation, which acts only if nothing vetoes it and
      otherwise names what is reserved. */
  lemma AdviceIs(price: Adapt.Price, d: Deployment, usage: Option<Adapt.Summary>, cfg: Adapt.Config, m: Spending, now: Time,
                 cooldown: Duration)
    ensures
      var said := Advise(price, d, usage, cfg, m, now, cooldown);
      && (said == None <==> d.tier != App)
      && (said == Some(Err(NoProfile)) <==> d.tier == App && usage.None?)
      && (said == Some(Err(ManyContainers)) <==> d.tier == App && usage.Some? && d.containers != 1)
      && (said.Some? && said.value.Ok? <==> d.tier == App && usage.Some? && d.containers == 1)
      && (said.Some? && said.value.Ok? ==>
            var a, whole := said.value.value, Adapt.Recommend(price, usage.value, cfg);
            && (a.act <==> whole.act && Veto(price, d, whole, m, now, cooldown).None?)
            && (a.act ==> a == whole)
            && (!a.act ==> a.cpu == usage.value.requestCpu && a.mem == usage.value.requestMem && !a.stepped)
            && a.currentCpu == usage.value.requestCpu && a.currentMem == usage.value.requestMem && a.app == usage.value.app)
  {
    hide Veto, Adapt.Recommend;
    if usage.Some? { HeldNamesCurrent(price, usage.value, cfg); }
  }

  lemma HeldNamesCurrent(price: Adapt.Price, s: Adapt.Summary, cfg: Adapt.Config)
    ensures
      var a := Adapt.Recommend(price, s, cfg);
      && (!a.act ==> a.cpu == s.requestCpu && a.mem == s.requestMem && !a.stepped)
      && a.currentCpu == s.requestCpu && a.currentMem == s.requestMem && a.app == s.app
  {
    hide Adapt.Step, Adapt.CpuTarget, Adapt.MemTarget, Adapt.OutsideDeadband;
  }

  /** And why: a workload that has not rested is left alone for what remains of its rest,
      and one that has, because of the limit. */
  lemma VetoedWhy(price: Adapt.Price, d: Deployment, a: Adapt.Advice, m: Spending, now: Time, cooldown: Duration)
    ensures !Rested(d.stamp, now, cooldown) ==>
      Veto(price, d, a, m, now, cooldown) == Some(Cooldown(d.stamp.value.seconds * 1_000_000_000 + Rest(cooldown) - now))
    ensures Rested(d.stamp, now, cooldown) ==>
      Veto(price, d, a, m, now, cooldown).None? || Veto(price, d, a, m, now, cooldown) == Some(WouldReachLimit)
  {
    hide Assess, MonthlyDelta;
  }

  /** What a pass leaves: a workload it resized at what the API server kept, stamped with
      the second of the pass and otherwise as it was; every other as it was; and on record
      exactly those it resized. */
  lemma {:induction false} PassLeaves(c: Cluster, p: Pass, n: nat, i: nat)
    requires i < n <= |p.items| && Distinct(p.items) && p.items[i].name in c
    ensures
      var (after, log) := PassSpec(c, p, n);
      var it, d := p.items[i], c[p.items[i].name];
      && it.name in after
      && after[it.name] ==
           (if Resizes(c, p, it)
            then Deployment(d.tier, d.containers, it.answer.cpu, it.answer.mem, d.replicas, Some(At(p.now / 1_000_000_000)))
            else d)
      && (Applied(it.name, p.now) in log <==> Resizes(c, p, it))
  {
    hide Resizes, Distinct;
    PassAdds(c, p, n - 1);
    if i < n - 1 {
      PassLeaves(c, p, n - 1, i);
      assert p.items[i].name != p.items[n - 1].name by { Different(p.items, i, n - 1); }
    } else {
      NotYet(c, p, i);
    }
  }

  lemma Different(items: seq<Item>, i: nat, j: nat)
    requires Distinct(items) && i < j < |items|
    ensures items[i].name != items[j].name
  {
  }

  /** A workload a pass has not come to is as it was. */
  lemma NotYet(c: Cluster, p: Pass, n: nat)
    requires n < |p.items| && Distinct(p.items) && p.items[n].name in c
    ensures
      var (after, log) := PassSpec(c, p, n);
      var name := p.items[n].name;
      name in after && after[name] == c[name] && Applied(name, p.now) !in log
  {
    hide PassSpec;
    PassAdds(c, p, n);
  }

  /** And workloads nothing was measured or asked of are not touched at all. */
  lemma OthersUntouched(c: Cluster, p: Pass, name: Text)
    requires Distinct(p.items) && name in c && forall i :: 0 <= i < |p.items| ==> p.items[i].name != name
    ensures name in PassSpec(c, p, |p.items|).0 && PassSpec(c, p, |p.items|).0[name] == c[name]
  {
    hide PassSpec;
    PassAdds(c, p, |p.items|);
  }

  /** The second lost to the stamp is really lost: a resize late in a second can
      be followed by one a cooldown after that second began. */
  lemma SecondIsLost(now: Time)
    requires now % 1_000_000_000 == 999_999_999
    ensures CooldownLeft(Some(Format(now)), now + DEFAULT_COOLDOWN - 999_999_999, 0) == 0
  {
  }

  /** A growth that is applied is one that, taken alone, neither stands at the
      limit nor is projected to reach it before the period ends. */
  lemma GrowthStaysUnderLimit(price: Adapt.Price, d: Deployment, s: Adapt.Summary, cfg: Adapt.Config, m: Spending, now: Time, cooldown: Duration)
    requires Resolve(price, d, s, cfg, m, now, cooldown).act
    requires MonthlyDelta(price, Resolve(price, d, s, cfg, m, now, cooldown), d.replicas) > 0.0
    requires m.limit > 0.0 && now < m.periodEnd && m.rateHourly >= 0.0
    ensures var burn := m.rateHourly + MonthlyDelta(price, Resolve(price, d, s, cfg, m, now, cooldown), d.replicas) / HOURS_PER_MONTH;
            m.total < m.limit && m.total + Charge(burn, m.periodEnd - now) <= m.limit
  {
    hide Adapt.Recommend, CooldownLeft, Charge;
    var a := Resolve(price, d, s, cfg, m, now, cooldown);
    var delta := MonthlyDelta(price, a, d.replicas);
    assert delta / HOURS_PER_MONTH > 0.0;
    ActsIffReached(m.total, m.limit, m.rateHourly + delta / HOURS_PER_MONTH, now, m.periodEnd);
  }
}
