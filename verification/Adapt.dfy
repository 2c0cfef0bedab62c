/** What an application's reservation should be, given what it used. Every
    theorem holds for any price of a (CPU, memory) reservation. */
module Adapt {
  import opened Basics

  const MIN_CPU_MILLI := 50
  const MIN_MEM_MIB := 64
  const MIN_SAMPLES := 120
  const WORTHWHILE_USD := 0.01

  /** The monthly price of one pod reserving this much CPU and memory. */
  type Price = (int, int) -> real

  datatype Summary = Summary(
    app: Text, requestCpu: int, requestMem: int,
    cpuP95: int, memPeak: int, cpuSamples: int, memSamples: int)

  datatype Config = Config(
    cpuHeadroom: real, memHeadroom: real, deadband: real, maxStep: real,
    minCpu: int, minMem: int)
  {
    function WithDefaults(): (c: Config)
      ensures c.deadband > 0.0 && c.maxStep > 1.0 && c.minCpu > 0 && c.minMem > 0
    {
      Config(if cpuHeadroom <= 0.0 then 1.3 else cpuHeadroom,
             if memHeadroom <= 0.0 then 1.5 else memHeadroom,
             if deadband <= 0.0 then 0.25 else deadband,
             if maxStep <= 1.0 then 2.0 else maxStep,
             if minCpu <= 0 then MIN_CPU_MILLI else minCpu,
             if minMem <= 0 then MIN_MEM_MIB else minMem)
    }
  }

  datatype Hold = ReservationUnknown | TooFewReadings | WithinDeadband | BillUnchanged

  datatype Advice = Advice(
    app: Text, currentCpu: int, currentMem: int,
    cpu: int, mem: int, act: bool, hold: Option<Hold>, stepped: bool)

  function Ceil(x: real): int { -((-x).Floor) }

  function Scale(observed: int, headroom: real, floor: int): int {
    Max(Ceil(observed as real * headroom), floor)
  }

  /** The most one step may name. */
  function Reach(current: int, maxStep: real): int { Ceil(current as real * maxStep) }

  /** The least. */
  function Fall(current: int, maxStep: real): int
    requires maxStep > 1.0
  {
    Ceil(current as real / maxStep)
  }

  function Step(current: int, target: int, maxStep: real, floor: int): (int, bool)
    requires maxStep > 1.0
  {
    var upper := Reach(current, maxStep);
    var lower := Max(Fall(current, maxStep), floor);
    if target > upper then (upper, true)
    else if target < lower then (lower, true)
    else (target, false)
  }

  function Abs(x: real): real { if x < 0.0 then -x else x }

  function OutsideDeadband(current: int, target: int, band: real): bool {
    if current <= 0 then target > 0
    else Abs((target - current) as real) / current as real > band
  }

  function CpuTarget(s: Summary, cfg: Config): int {
    var c := cfg.WithDefaults(); Scale(s.cpuP95, c.cpuHeadroom, c.minCpu)
  }

  function MemTarget(s: Summary, cfg: Config): int {
    var c := cfg.WithDefaults(); Scale(s.memPeak, c.memHeadroom, c.minMem)
  }

  function Declined(s: Summary, why: Hold): Advice {
    Advice(s.app, s.requestCpu, s.requestMem, s.requestCpu, s.requestMem, false, Some(why), false)
  }

  function Recommend(price: Price, s: Summary, cfg: Config): Advice {
    var c := cfg.WithDefaults();
    if s.requestCpu <= 0 || s.requestMem <= 0 then Declined(s, ReservationUnknown)
    else if s.cpuSamples < MIN_SAMPLES || s.memSamples < MIN_SAMPLES then Declined(s, TooFewReadings)
    else
      var (cpu, cpuStepped) := Step(s.requestCpu, CpuTarget(s, cfg), c.maxStep, c.minCpu);
      var (mem, memStepped) := Step(s.requestMem, MemTarget(s, cfg), c.maxStep, c.minMem);
      if !OutsideDeadband(s.requestCpu, cpu, c.deadband) && !OutsideDeadband(s.requestMem, mem, c.deadband) then
        Declined(s, WithinDeadband)
      else if Abs(price(cpu, mem) - price(s.requestCpu, s.requestMem)) < WORTHWHILE_USD then
        Declined(s, BillUnchanged)
      else
        Advice(s.app, s.requestCpu, s.requestMem, cpu, mem, true, None, cpuStepped || memStepped)
  }

  /** The workload after the advice is carried out, seen through the same
      observation. */
  function Resized(s: Summary, a: Advice): Summary {
    s.(requestCpu := a.cpu, requestMem := a.mem)
  }

  // ---------------------------------------------------------------- one step

  lemma CeilBounds(x: real)
    ensures Ceil(x) as real - 1.0 < x <= Ceil(x) as real
  {
  }

  /** The smallest integer at or above x. */
  lemma CeilLeast(x: real, n: int)
    requires x <= n as real
    ensures Ceil(x) <= n
  {
  }

  lemma ScaledUp(n: int, k: real)
    requires n > 0 && k > 1.0
    ensures n as real / k < n as real < n as real * k
  {
    var q := n as real / k;
    assert q * k == n as real;
    assert n as real * k - n as real == n as real * (k - 1.0);
    assert (q - n as real) * k == n as real - n as real * k;
    SignOfFactor(q - n as real, k);
  }

  lemma StepReaches(current: int, maxStep: real)
    requires current > 0 && maxStep > 1.0
    ensures Fall(current, maxStep) <= current <= Reach(current, maxStep)
  {
    ScaledUp(current, maxStep);
    var up, down := current as real * maxStep, current as real / maxStep;
    assert Reach(current, maxStep) == Ceil(up) && Fall(current, maxStep) == Ceil(down);
    hide Reach, Fall, Ceil;
    CeilBounds(up);
    CeilLeast(down, current);
  }

  /** A step never moves away from its target and never passes it. */
  lemma StepApproaches(current: int, target: int, maxStep: real, floor: int)
    requires current > 0 && maxStep > 1.0 && target >= floor
    ensures var r := Step(current, target, maxStep, floor).0;
            current <= r <= target || target <= r <= current
    ensures !Step(current, target, maxStep, floor).1 <==> Step(current, target, maxStep, floor).0 == target
  {
    hide Reach, Fall;
    StepReaches(current, maxStep);
  }

  /** A change outside a positive deadband is a change. */
  lemma OutsideMeansMoved(current: int, target: int, band: real)
    requires current > 0 && band > 0.0 && OutsideDeadband(current, target, band)
    ensures current != target
  {
  }

  function Gap(a: int, b: int): nat { if a < b then b - a else a - b }

  function Distance(s: Summary, cfg: Config): nat {
    Gap(s.requestCpu, CpuTarget(s, cfg)) + Gap(s.requestMem, MemTarget(s, cfg))
  }

  predicate Between(x: int, from: int, to: int) { from <= x <= to || to <= x <= from }

  /** Acting moves both reservations weakly toward their targets without passing
      them, so the summed distance strictly falls. */
  lemma ActApproaches(price: Price, s: Summary, cfg: Config)
    requires Recommend(price, s, cfg).act
    ensures var a := Recommend(price, s, cfg);
            && Between(a.cpu, s.requestCpu, CpuTarget(s, cfg))
            && Between(a.mem, s.requestMem, MemTarget(s, cfg))
            && Distance(Resized(s, a), cfg) < Distance(s, cfg)
  {
    hide Step, Scale, OutsideDeadband;
    var c := cfg.WithDefaults();
    var cpu := Step(s.requestCpu, CpuTarget(s, cfg), c.maxStep, c.minCpu).0;
    var mem := Step(s.requestMem, MemTarget(s, cfg), c.maxStep, c.minMem).0;
    TargetsAboveFloors(s, cfg);
    StepApproaches(s.requestCpu, CpuTarget(s, cfg), c.maxStep, c.minCpu);
    StepApproaches(s.requestMem, MemTarget(s, cfg), c.maxStep, c.minMem);
    if OutsideDeadband(s.requestCpu, cpu, c.deadband) {
      OutsideMeansMoved(s.requestCpu, cpu, c.deadband);
    } else {
      OutsideMeansMoved(s.requestMem, mem, c.deadband);
    }
  }

  lemma TargetsAboveFloors(s: Summary, cfg: Config)
    ensures CpuTarget(s, cfg) >= cfg.WithDefaults().minCpu > 0
    ensures MemTarget(s, cfg) >= cfg.WithDefaults().minMem > 0
  {
  }

  lemma AtTargetHolds(price: Price, s: Summary, cfg: Config)
    requires s.requestCpu == CpuTarget(s, cfg) && s.requestMem == MemTarget(s, cfg)
    ensures !Recommend(price, s, cfg).act
  {
    hide Step, Scale;
    var c := cfg.WithDefaults();
    TargetsAboveFloors(s, cfg);
    StepApproaches(s.requestCpu, CpuTarget(s, cfg), c.maxStep, c.minCpu);
    StepApproaches(s.requestMem, MemTarget(s, cfg), c.maxStep, c.minMem);
  }

  /** An act that no bound clamped lands on the targets, and the next evaluation
      declines. */
  lemma UnclampedActIsFinal(price: Price, s: Summary, cfg: Config)
    requires Recommend(price, s, cfg).act && !Recommend(price, s, cfg).stepped
    ensures !Recommend(price, Resized(s, Recommend(price, s, cfg)), cfg).act
  {
    hide Step, Scale, OutsideDeadband;
    var c := cfg.WithDefaults();
    TargetsAboveFloors(s, cfg);
    StepApproaches(s.requestCpu, CpuTarget(s, cfg), c.maxStep, c.minCpu);
    StepApproaches(s.requestMem, MemTarget(s, cfg), c.maxStep, c.minMem);
    AtTargetHolds(price, Resized(s, Recommend(price, s, cfg)), cfg);
  }

  // ---------------------------------------------------------------- what is recommended

  /** The least integer that is neither below a floor nor below a figure. */
  predicate IsLeast(n: int, floor: int, x: real) {
    floor <= n && x <= n as real && (n == floor || (n - 1) as real < x)
  }

  lemma LeastIsUnique(m: int, n: int, floor: int, x: real)
    requires IsLeast(m, floor, x) && IsLeast(n, floor, x)
    ensures m == n
  {
  }

  lemma ScaleIsLeast(observed: int, headroom: real, floor: int, x: real)
    requires x == observed as real * headroom
    ensures IsLeast(Scale(observed, headroom, floor), floor, x)
  {
    CeilBounds(x);
    hide Ceil;
  }

  /** What one bounded step from a reservation names: no more than the step's factor
      above it nor below it, and the target unless a whole step falls short of it, which
      it then takes; downward it stops at the floor. */
  predicate IsNamed(n: int, from: int, target: int, maxStep: real, floor: int)
    requires maxStep > 1.0
  {
    && (n - 1) as real < from as real * maxStep && from as real / maxStep <= n as real
    && (n < target ==> from as real * maxStep <= n as real)
    && (target < n ==> IsLeast(n, floor, from as real / maxStep))
  }

  lemma StepIsNamed(current: int, target: int, maxStep: real, floor: int)
    requires current > 0 && maxStep > 1.0 && floor <= target
    ensures IsNamed(Step(current, target, maxStep, floor).0, current, target, maxStep, floor)
    ensures Step(current, target, maxStep, floor).1 <==> Step(current, target, maxStep, floor).0 != target
  {
    ScaledUp(current, maxStep);
    var up, down := current as real * maxStep, current as real / maxStep;
    assert Reach(current, maxStep) == Ceil(up) && Fall(current, maxStep) == Ceil(down);
    hide Reach, Fall, Ceil;
    CeilBounds(up);
    CeilBounds(down);
    StepApproaches(current, target, maxStep, floor);
  }

  lemma NamedIsUnique(m: int, n: int, from: int, target: int, maxStep: real, floor: int)
    requires from > 0 && maxStep > 1.0 && floor <= target
    requires IsNamed(m, from, target, maxStep, floor) && IsNamed(n, from, target, maxStep, floor)
    ensures m == n
  {
    ScaledUp(from, maxStep);
  }

  /** What was used, with its headroom. */
  function CpuUse(s: Summary, cfg: Config): real { s.cpuP95 as real * cfg.WithDefaults().cpuHeadroom }

  function MemUse(s: Summary, cfg: Config): real { s.memPeak as real * cfg.WithDefaults().memHeadroom }

  /** The figures a recommendation is made of: the targets, the least whole millicores
      and mebibytes that give what was used its headroom, and what a step names. */
  predicate Figures(s: Summary, cfg: Config, cpuTarget: int, memTarget: int, cpu: int, mem: int) {
    var c := cfg.WithDefaults();
    && IsLeast(cpuTarget, c.minCpu, CpuUse(s, cfg)) && IsLeast(memTarget, c.minMem, MemUse(s, cfg))
    && IsNamed(cpu, s.requestCpu, cpuTarget, c.maxStep, c.minCpu)
    && IsNamed(mem, s.requestMem, memTarget, c.maxStep, c.minMem)
  }

  lemma TargetsAreLeast(s: Summary, cfg: Config)
    ensures IsLeast(CpuTarget(s, cfg), cfg.WithDefaults().minCpu, CpuUse(s, cfg))
    ensures IsLeast(MemTarget(s, cfg), cfg.WithDefaults().minMem, MemUse(s, cfg))
  {
    hide IsLeast, Scale, Config.WithDefaults;
    var c := cfg.WithDefaults();
    ScaleIsLeast(s.cpuP95, c.cpuHeadroom, c.minCpu, CpuUse(s, cfg));
    ScaleIsLeast(s.memPeak, c.memHeadroom, c.minMem, MemUse(s, cfg));
  }

  lemma FiguresAre(s: Summary, cfg: Config, cpuTarget: int, memTarget: int, cpu: int, mem: int)
    requires s.requestCpu > 0 && s.requestMem > 0
    ensures
      var c := cfg.WithDefaults();
      Figures(s, cfg, cpuTarget, memTarget, cpu, mem)
      <==> cpuTarget == CpuTarget(s, cfg) && memTarget == MemTarget(s, cfg)
           && cpu == Step(s.requestCpu, CpuTarget(s, cfg), c.maxStep, c.minCpu).0
           && mem == Step(s.requestMem, MemTarget(s, cfg), c.maxStep, c.minMem).0
  {
    hide Step, Scale, IsNamed, CpuTarget, MemTarget, CpuUse, MemUse;
    var c := cfg.WithDefaults();
    TargetsAboveFloors(s, cfg);
    TargetsAreLeast(s, cfg);
    StepIsNamed(s.requestCpu, CpuTarget(s, cfg), c.maxStep, c.minCpu);
    StepIsNamed(s.requestMem, MemTarget(s, cfg), c.maxStep, c.minMem);
    if Figures(s, cfg, cpuTarget, memTarget, cpu, mem) {
      LeastIsUnique(cpuTarget, CpuTarget(s, cfg), c.minCpu, CpuUse(s, cfg));
      LeastIsUnique(memTarget, MemTarget(s, cfg), c.minMem, MemUse(s, cfg));
      NamedIsUnique(cpu, Step(s.requestCpu, cpuTarget, c.maxStep, c.minCpu).0, s.requestCpu, cpuTarget, c.maxStep, c.minCpu);
      NamedIsUnique(mem, Step(s.requestMem, memTarget, c.maxStep, c.minMem).0, s.requestMem, memTarget, c.maxStep, c.minMem);
    }
  }

  /** Every workload whose reservation is known has such figures, and only one set. */
  lemma FiguresExist(s: Summary, cfg: Config)
    returns (cpuTarget: int, memTarget: int, cpu: int, mem: int)
    requires s.requestCpu > 0 && s.requestMem > 0
    ensures Figures(s, cfg, cpuTarget, memTarget, cpu, mem)
    ensures forall t, u, m, n :: Figures(s, cfg, t, u, m, n) ==> t == cpuTarget && u == memTarget && m == cpu && n == mem
  {
    hide Figures, Step;
    var c := cfg.WithDefaults();
    cpuTarget, memTarget := CpuTarget(s, cfg), MemTarget(s, cfg);
    cpu := Step(s.requestCpu, cpuTarget, c.maxStep, c.minCpu).0;
    mem := Step(s.requestMem, memTarget, c.maxStep, c.minMem).0;
    FiguresAre(s, cfg, cpuTarget, memTarget, cpu, mem);
    forall t, u, m, n | Figures(s, cfg, t, u, m, n)
      ensures t == cpuTarget && u == memTarget && m == cpu && n == mem
    {
      FiguresAre(s, cfg, t, u, m, n);
    }
  }

  lemma OutsideInMultiples(current: int, target: int, band: real)
    requires current > 0
    ensures OutsideDeadband(current, target, band) <==> Gap(current, target) as real > band * current as real
  {
    var x := Abs((target - current) as real);
    assert x == Gap(current, target) as real;
    var q := x / current as real;
    assert x - band * current as real == (q - band) * current as real;
    assert band * current as real - x == (band - q) * current as real;
    SignOfFactor(q - band, current as real);
    SignOfFactor(band - q, current as real);
  }

  /** The whole of a recommendation: it acts exactly when the reservation is known,
      either resource was read 120 times, what a step names is further than the deadband
      from what is reserved in one of them, and the bill moves by a cent or more; acting,
      it names what the step names; holding, it names what is reserved, and says why. */
  lemma RecommendsIff(price: Price, s: Summary, cfg: Config, cpuTarget: int, memTarget: int, cpu: int, mem: int)
    requires s.requestCpu > 0 && s.requestMem > 0 ==> Figures(s, cfg, cpuTarget, memTarget, cpu, mem)
    ensures
      var a, band := Recommend(price, s, cfg), cfg.WithDefaults().deadband;
      var known := s.requestCpu > 0 && s.requestMem > 0;
      var measured := s.cpuSamples >= 120 && s.memSamples >= 120;
      var moves := Gap(s.requestCpu, cpu) as real > band * s.requestCpu as real
                   || Gap(s.requestMem, mem) as real > band * s.requestMem as real;
      var bill := price(cpu, mem) - price(s.requestCpu, s.requestMem);
      && (a.act <==> known && measured && moves && (bill >= 0.01 || bill <= -0.01))
      && (a.act ==> a.cpu == cpu && a.mem == mem && a.hold == None && (a.stepped <==> (cpu, mem) != (cpuTarget, memTarget)))
      && (!a.act ==> a.cpu == s.requestCpu && a.mem == s.requestMem && !a.stepped && a.hold.Some?)
      && (a.hold == Some(ReservationUnknown) <==> !known)
      && (a.hold == Some(TooFewReadings) <==> known && !measured)
      && (a.hold == Some(WithinDeadband) <==> known && measured && !moves)
      && (a.app, a.currentCpu, a.currentMem) == (s.app, s.requestCpu, s.requestMem)
  {
    hide Step, CpuTarget, MemTarget, OutsideDeadband, Figures, Gap;
    if s.requestCpu > 0 && s.requestMem > 0 {
      var c := cfg.WithDefaults();
      FiguresAre(s, cfg, cpuTarget, memTarget, cpu, mem);
      TargetsAboveFloors(s, cfg);
      StepIsNamed(s.requestCpu, cpuTarget, c.maxStep, c.minCpu);
      StepIsNamed(s.requestMem, memTarget, c.maxStep, c.minMem);
      OutsideInMultiples(s.requestCpu, cpu, c.deadband);
      OutsideInMultiples(s.requestMem, mem, c.deadband);
    }
  }

  /** So an act that no bound clamped reserves exactly what was used with its headroom,
      and one that was clamped lies between what was reserved and that. */
  lemma ActCoversUse(price: Price, s: Summary, cfg: Config)
    requires Recommend(price, s, cfg).act
    ensures
      var a, c := Recommend(price, s, cfg), cfg.WithDefaults();
      && (!a.stepped ==> IsLeast(a.cpu, c.minCpu, CpuUse(s, cfg)) && IsLeast(a.mem, c.minMem, MemUse(s, cfg)))
      && (exists t :: IsLeast(t, c.minCpu, CpuUse(s, cfg)) && Between(a.cpu, s.requestCpu, t))
      && (exists t :: IsLeast(t, c.minMem, MemUse(s, cfg)) && Between(a.mem, s.requestMem, t))
  {
    assert s.requestCpu > 0 && s.requestMem > 0;
    hide Step, Scale, CpuTarget, MemTarget, IsNamed, IsLeast, Recommend, CpuUse, MemUse, Distance, Gap, Config.WithDefaults;
    var t, u, m, n := FiguresExist(s, cfg);
    RecommendsIff(price, s, cfg, t, u, m, n);
    FiguresAre(s, cfg, t, u, m, n);
    ActApproaches(price, s, cfg);
  }

  /** What is not configured, or not sensibly. */
  lemma UnsetTakesDefault(cfg: Config)
    ensures
      var c := cfg.WithDefaults();
      && c.cpuHeadroom == (if cfg.cpuHeadroom > 0.0 then cfg.cpuHeadroom else 1.3)
      && c.memHeadroom == (if cfg.memHeadroom > 0.0 then cfg.memHeadroom else 1.5)
      && c.deadband == (if cfg.deadband > 0.0 then cfg.deadband else 0.25)
      && c.maxStep == (if cfg.maxStep > 1.0 then cfg.maxStep else 2.0)
      && c.minCpu == (if cfg.minCpu > 0 then cfg.minCpu else 50)
      && c.minMem == (if cfg.minMem > 0 then cfg.minMem else 64)
  {
  }

  lemma StepBelowFloorIff(current: int, target: int, maxStep: real, floor: int)
    requires maxStep > 1.0 && target >= floor
    ensures Step(current, target, maxStep, floor).0 < floor <==> Reach(current, maxStep) < floor
  {
  }

  /** The documented floors, and exactly when a recommendation keeps them: acting,
      it is below one only where a bounded step from the current reservation cannot
      reach it; holding, it names the reservation there is, wherever that stands. */
  lemma RecommendBelowFloorIff(price: Price, s: Summary, cfg: Config)
    ensures
      var a, c := Recommend(price, s, cfg), cfg.WithDefaults();
      && (a.cpu < c.minCpu
          <==> if a.act then Reach(s.requestCpu, c.maxStep) < c.minCpu else s.requestCpu < c.minCpu)
      && (a.mem < c.minMem
          <==> if a.act then Reach(s.requestMem, c.maxStep) < c.minMem else s.requestMem < c.minMem)
  {
    hide Step, Reach, Scale, OutsideDeadband, CpuTarget, MemTarget;
    var c := cfg.WithDefaults();
    TargetsAboveFloors(s, cfg);
    StepBelowFloorIff(s.requestCpu, CpuTarget(s, cfg), c.maxStep, c.minCpu);
    StepBelowFloorIff(s.requestMem, MemTarget(s, cfg), c.maxStep, c.minMem);
  }

  /** Under the defaults a reservation of ten millicores is doubled, to twenty, and
      the floor is fifty. */
  lemma ActsBelowFloor(price: Price)
    requires price(20, 64) - price(10, 64) >= 0.01
    ensures
      var a := Recommend(price, Summary([], 10, 64, 1, 1, 200, 200), Config(0.0, 0.0, 0.0, 0.0, 0, 0));
      a.act && a.cpu == 20 && a.cpu < MIN_CPU_MILLI
  {
    assert 10 as real * 2.0 == 20.0 && Ceil(20.0) == 20;
    assert 64 as real * 2.0 == 128.0 && Ceil(128.0) == 128;
    assert Ceil(64.0 / 2.0) == 32;
    assert Ceil(1 as real * 1.3) == 2 && Ceil(1 as real * 1.5) == 2;
  }

  // ---------------------------------------------------------------- runs

  /** How many times in a row the same observation makes the kernel act. */
  function Acts(price: Price, s: Summary, cfg: Config): nat
    decreases Distance(s, cfg)
  {
    var a := Recommend(price, s, cfg);
    if a.act then
      ActApproaches(price, s, cfg);
      1 + Acts(price, Resized(s, a), cfg)
    else 0
  }

  /** Whatever the configuration, resizing stops. */
  lemma {:induction false} ActsBoundedByDistance(price: Price, s: Summary, cfg: Config)
    ensures Acts(price, s, cfg) <= Distance(s, cfg)
    decreases Distance(s, cfg)
  {
    if Recommend(price, s, cfg).act {
      ActApproaches(price, s, cfg);
      ActsBoundedByDistance(price, Resized(s, Recommend(price, s, cfg)), cfg);
    }
  }

  function Pow(b: nat, n: nat): nat {
    if n == 0 then 1 else b * Pow(b, n - 1)
  }

  /** Neither value is more than b^n times the other. */
  predicate WithinPower(b: nat, n: nat, x: int, y: int) {
    x <= Pow(b, n) * y && y <= Pow(b, n) * x
  }

  /** One step by an integral factor closes one power of it. */
  lemma StepClosesPower(b: nat, n: nat, current: int, target: int, floor: int)
    requires b >= 2 && n > 0 && current > 0 && target > 0 && target >= floor
    requires WithinPower(b, n, current, target)
    ensures WithinPower(b, n - 1, Step(current, target, b as real, floor).0, target)
  {
    hide Step;
    PowPositive(b, n - 1);
    var (r, clamped) := Step(current, target, b as real, floor);
    StepApproaches(current, target, b as real, floor);
    if !clamped {
      AtLeastOnce(Pow(b, n - 1), target);
    } else if target > current {
      ClampedAbove(current, target, b, floor);
      Reassociate(Pow(b, n - 1), current, b);
      AtMostPower(Pow(b, n - 1), r, target);
    } else {
      ClampedBelow(current, target, b, floor);
      Reassociate(Pow(b, n - 1), target, b);
      QuotientAtMost(current, b, Pow(b, n - 1) * target);
      AtMostPower(Pow(b, n - 1), target, r);
    }
  }

  lemma ClampedAbove(current: int, target: int, b: nat, floor: int)
    requires b >= 2 && 0 < current < target && target >= floor
    requires Step(current, target, b as real, floor).1
    ensures Step(current, target, b as real, floor).0 == current * b
  {
    ScaledUp(current, b as real);
    CeilLeast(current as real / b as real, current);
    assert current as real * b as real == (current * b) as real;
  }

  lemma ClampedBelow(current: int, target: int, b: nat, floor: int)
    requires b >= 2 && 0 < target <= current && target >= floor
    requires Step(current, target, b as real, floor).1
    ensures Step(current, target, b as real, floor).0 == Ceil(current as real / b as real)
  {
    ScaledUp(current, b as real);
    CeilBounds(current as real * b as real);
  }

  lemma {:induction false} PowPositive(b: nat, n: nat)
    requires b >= 1
    ensures Pow(b, n) >= 1
  {
    if n > 0 {
      PowPositive(b, n - 1);
      AtLeastOnce(Pow(b, n - 1), b);
    }
  }

  lemma AtLeastOnce(p: int, x: int)
    requires p >= 1 && x >= 0
    ensures x <= p * x
  {
  }

  lemma AtMostPower(p: int, small: int, large: int)
    requires p >= 1 && 0 < small <= large
    ensures small <= p * large
  {
    AtLeastOnce(p, large);
  }

  lemma Reassociate(p: int, x: int, b: int)
    ensures p * (x * b) == (b * p) * x == b * (p * x)
  {
  }

  lemma QuotientAtMost(x: int, b: int, q: int)
    requires b >= 2 && x <= b * q
    ensures Ceil(x as real / b as real) <= q
  {
    var y := x as real / b as real;
    assert y * b as real == x as real;
    assert (b * q) as real == q as real * b as real;
    assert (q as real - y) * b as real == (b * q) as real - x as real;
    SignOfFactor(q as real - y, b as real);
    CeilLeast(y, q);
  }

  /** Resizing takes at most as many acts as the larger current-to-target ratio
      has powers of the step, rounded up: one doubling or halving each. */
  lemma {:induction false} ActsAreLogarithmic(price: Price, s: Summary, cfg: Config, b: nat, n: nat)
    requires b >= 2 && cfg.WithDefaults().maxStep == b as real
    requires WithinPower(b, n, s.requestCpu, CpuTarget(s, cfg))
    requires WithinPower(b, n, s.requestMem, MemTarget(s, cfg))
    ensures Acts(price, s, cfg) <= n
    decreases n
  {
    hide Step, Scale, OutsideDeadband, WithinPower;
    var a := Recommend(price, s, cfg);
    TargetsAboveFloors(s, cfg);
    if n == 0 {
      NoPowerLeft(b, s.requestCpu, CpuTarget(s, cfg));
      NoPowerLeft(b, s.requestMem, MemTarget(s, cfg));
      AtTargetHolds(price, s, cfg);
    } else if a.act {
      var c := cfg.WithDefaults();
      StepClosesPower(b, n, s.requestCpu, CpuTarget(s, cfg), c.minCpu);
      StepClosesPower(b, n, s.requestMem, MemTarget(s, cfg), c.minMem);
      ActsAreLogarithmic(price, Resized(s, a), cfg, b, n - 1);
    }
  }

  lemma NoPowerLeft(b: nat, x: int, y: int)
    requires WithinPower(b, 0, x, y)
    ensures x == y
  {
  }
}
