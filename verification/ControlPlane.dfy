/**
 The leaderless control plane: signed heartbeats, liveness, health scores and
 route costs, and quarantine recommendations.

 Signatures are ideal, so `genuine` says whether one verifies under the
 presented identity. Times, counters and metrics are integers.
 */
module ControlPlane {
  import opened Rounding
  import opened Wrappers

  datatype PolicyRecord = Policy(
    heartbeatInterval: int,
    degradedAfter: int,
    unreachableAfter: int,
    quarantineAfterFailures: int,
    quarantineScoreThreshold: int,
    congestionWarning: int,
    congestionCritical: int,
    maximumClockSkew: int,
    baseRouteCost: int)

  predicate ValidPolicy(p: PolicyRecord) {
    && p.heartbeatInterval > 0 && 0 < p.degradedAfter < p.unreachableAfter
    && p.quarantineAfterFailures > 0 && p.maximumClockSkew > 0 && p.baseRouteCost > 0
    && 0 <= p.quarantineScoreThreshold <= 100
    && 0 <= p.congestionWarning < p.congestionCritical <= 100
  }

  type Policy = p: PolicyRecord | ValidPolicy(p)
    witness PolicyRecord.Policy(30, 90, 180, 5, 20, 75, 95, 300, 100)

  datatype Status = Healthy | Degraded | Unreachable | Maintenance | QuarantineRecommended | Other(text: string)

  /** What a heartbeat reports about its office. */
  datatype Metrics = Metrics(
    latency: int,
    queueDepth: int,
    queueCapacity: int,
    workers: int,
    services: map<string, string>)

  datatype Observation = Observation(
    sequence: int,
    lastSeen: Option<int>,
    lastIssued: Option<int>,
    failures: nat,
    latency: Option<nat>,
    queueDepth: nat,
    queueCapacity: nat,
    workers: nat,
    maintenanceUntil: Option<int>,
    advertised: Status,
    services: map<string, string>,
    digest: Option<string>,
    score: int,
    status: Status,
    routeCost: int,
    quarantine: bool)

  const FRESH := Observation(0, None, None, 0, None, 0, 0, 0, None, Healthy, map[], None, 0, Unreachable, 10000, false)

  function Congestion(o: Observation): (c: nat)
    ensures 0 <= c <= 100
  {
    if o.queueCapacity <= 0 then 0
    else MinInt(100, MaxInt(0, Round((o.queueDepth * 100) as real / o.queueCapacity as real)))
  }

  // ------------------------------------------------------------ deriving health

  function AgeAt(p: Policy, o: Observation, now: int): (age: nat) {
    if o.lastSeen.None? then p.unreachableAfter + 1 else MaxInt(0, now - o.lastSeen.value)
  }

  predicate InMaintenance(o: Observation, now: int) {
    (o.maintenanceUntil.Some? && now < o.maintenanceUntil.value) || o.advertised.Maintenance?
  }

  predicate ServiceIsFine(text: string) {
    text in {"healthy", "ok", "ready"}
  }

  function LiveStatus(p: Policy, o: Observation, now: int): Status {
    var age := AgeAt(p, o, now);
    if InMaintenance(o, now) then Maintenance
    else if age >= p.unreachableAfter then Unreachable
    else if age >= p.degradedAfter then Degraded
    else if o.advertised.Degraded? || o.advertised.Unreachable? then o.advertised
    else if exists s :: s in o.services && !ServiceIsFine(o.services[s]) then Degraded
    else Healthy
  }

  function BaseScore(s: Status): int {
    match s
    case Maintenance => 40
    case Degraded => 65
    case Unreachable => 0
    case _ => 100
  }

  function CongestionPenalty(p: Policy, o: Observation): nat {
    if Congestion(o) >= p.congestionCritical then 35
    else if Congestion(o) >= p.congestionWarning then 15 else 0
  }

  /** What failures, latency, congestion and an idle backlog take off the score. */
  function Penalties(p: Policy, o: Observation): nat {
    MinInt(40, o.failures * 10)
    + (if o.latency.Some? then MinInt(25, o.latency.value / 100) else 0)
    + CongestionPenalty(p, o)
    + (if o.workers == 0 && o.queueDepth > 0 then 20 else 0)
  }

  function ScoreAt(p: Policy, o: Observation, now: int): (score: int)
    ensures 0 <= score <= 100
  {
    MinInt(100, MaxInt(0, BaseScore(LiveStatus(p, o, now)) - Penalties(p, o)))
  }

  predicate QuarantineAt(p: Policy, o: Observation, now: int) {
    || o.failures >= p.quarantineAfterFailures
    || (LiveStatus(p, o, now).Unreachable? && ScoreAt(p, o, now) <= p.quarantineScoreThreshold)
  }

  function StatusAt(p: Policy, o: Observation, now: int): Status {
    if QuarantineAt(p, o, now) then QuarantineRecommended else LiveStatus(p, o, now)
  }

  function StatusCost(s: Status): nat {
    match s
    case Maintenance => 5000
    case Unreachable => 100000
    case QuarantineRecommended => 100000
    case _ => 0
  }

  function CostAt(p: Policy, o: Observation, now: int): int {
    p.baseRouteCost + (100 - ScoreAt(p, o, now)) * 10 + Congestion(o) * 3
    + (if o.latency.Some? then o.latency.value else 0) + StatusCost(StatusAt(p, o, now))
  }

  function Derived(p: Policy, o: Observation, now: int): Observation {
    o.(score := ScoreAt(p, o, now), status := StatusAt(p, o, now),
       routeCost := CostAt(p, o, now), quarantine := QuarantineAt(p, o, now))
  }

  // ------------------------------------------------------------ what the derivation guarantees

  /** An unreachable peer always scores zero, so it is always recommended for quarantine: the status never survives. */
  lemma UnreachableCollapses(p: Policy, o: Observation, now: int)
    ensures !StatusAt(p, o, now).Unreachable?
    ensures LiveStatus(p, o, now).Unreachable? ==> StatusAt(p, o, now) == QuarantineRecommended && ScoreAt(p, o, now) == 0
  {}

  /** More failures never raise the score nor lower the cost, and at the limit they recommend quarantine. */
  lemma FailuresOnlyHurt(p: Policy, o: Observation, more: nat, now: int)
    requires more >= o.failures
    ensures var worse := o.(failures := more);
            && ScoreAt(p, worse, now) <= ScoreAt(p, o, now)
            && CostAt(p, worse, now) >= CostAt(p, o, now)
            && (QuarantineAt(p, o, now) ==> QuarantineAt(p, worse, now))
            && (more >= p.quarantineAfterFailures ==> StatusAt(p, worse, now) == QuarantineRecommended)
  {
    var worse := o.(failures := more);
    assert Congestion(worse) == Congestion(o) && CongestionPenalty(p, worse) == CongestionPenalty(p, o);
    assert LiveStatus(p, worse, now) == LiveStatus(p, o, now);
    assert MinInt(40, more * 10) >= MinInt(40, o.failures * 10);
    hide Congestion, CongestionPenalty, LiveStatus;
  }

  /** Silence never raises the score over time. */
  ghost predicate ScoreOnlyFalls(p: Policy, o: Observation) {
    forall t, u :: t <= u ==> ScoreAt(p, o, u) <= ScoreAt(p, o, t)
  }

  /** Silence never lowers the cost over time. */
  ghost predicate CostOnlyRises(p: Policy, o: Observation) {
    forall t, u :: t <= u ==> CostAt(p, o, t) <= CostAt(p, o, u)
  }

  predicate NoWindow(o: Observation) {
    o.maintenanceUntil.None? && !o.advertised.Maintenance?
  }

  lemma StatusesAgeInOrder(p: Policy, o: Observation, t: int, u: int)
    requires NoWindow(o) && t <= u
    requires !o.advertised.Unreachable? || o.lastSeen.None?
    ensures BaseScore(LiveStatus(p, o, u)) <= BaseScore(LiveStatus(p, o, t))
    ensures StatusCost(StatusAt(p, o, t)) <= StatusCost(StatusAt(p, o, u))
  {
    hide Penalties;
    var before, after := AgeAt(p, o, t), AgeAt(p, o, u);
    assert before <= after;
  }

  /** A peer that calls itself unreachable recovers to a degraded score when its heartbeat grows old. */
  lemma ScoreFallsWithoutWindow(p: Policy, o: Observation)
    requires NoWindow(o)
    ensures ScoreOnlyFalls(p, o) <==> !o.advertised.Unreachable? || o.lastSeen.None? || Penalties(p, o) >= 65
  {
    hide Penalties;
    if !o.advertised.Unreachable? || o.lastSeen.None? {
      forall t, u | t <= u
        ensures ScoreAt(p, o, u) <= ScoreAt(p, o, t)
      {
        StatusesAgeInOrder(p, o, t, u);
      }
    } else if Penalties(p, o) >= 65 {
      forall t
        ensures ScoreAt(p, o, t) == 0
      {
        AdvertisedUnreachable(p, o, t);
      }
    } else {
      var seen := o.lastSeen.value;
      AdvertisedUnreachable(p, o, seen);
      AdvertisedUnreachable(p, o, seen + p.degradedAfter);
      assert ScoreAt(p, o, seen + p.degradedAfter) > ScoreAt(p, o, seen);
    }
  }

  lemma AdvertisedUnreachable(p: Policy, o: Observation, now: int)
    requires NoWindow(o) && o.advertised.Unreachable? && o.lastSeen.Some?
    ensures LiveStatus(p, o, now) ==
              (if p.degradedAfter <= AgeAt(p, o, now) < p.unreachableAfter then Degraded else Unreachable)
  {}

  lemma CostRisesWithoutWindow(p: Policy, o: Observation)
    requires NoWindow(o)
    ensures CostOnlyRises(p, o) <==>
              (|| !o.advertised.Unreachable? || o.lastSeen.None?
               || (o.failures >= p.quarantineAfterFailures && Penalties(p, o) >= 65))
  {
    hide Penalties, Congestion;
    if !o.advertised.Unreachable? || o.lastSeen.None? {
      forall t, u | t <= u
        ensures CostAt(p, o, t) <= CostAt(p, o, u)
      {
        StatusesAgeInOrder(p, o, t, u);
        assert ScoreAt(p, o, u) <= ScoreAt(p, o, t);
        hide StatusAt, ScoreAt;
      }
    } else if o.failures >= p.quarantineAfterFailures && Penalties(p, o) >= 65 {
      forall t
        ensures ScoreAt(p, o, t) == 0 && StatusAt(p, o, t) == QuarantineRecommended
      {
        AdvertisedUnreachable(p, o, t);
      }
    } else {
      var seen := o.lastSeen.value;
      var later := seen + p.degradedAfter;
      AdvertisedUnreachable(p, o, seen);
      AdvertisedUnreachable(p, o, later);
      assert StatusAt(p, o, seen) == QuarantineRecommended && ScoreAt(p, o, seen) == 0;
      assert StatusCost(StatusAt(p, o, later)) <= 100000;
      assert CostAt(p, o, later) < CostAt(p, o, seen);
    }
  }

  /** The score that penalties have to take when the maintenance window ends, or they fall short and it rises. */
  function LevelAfter(p: Policy, o: Observation, end: int): int {
    if LiveStatus(p, o, end).Healthy? then 100 else 65
  }

  /** What the end of the window does to score and cost of a peer that was last heard of at `seen`. */
  lemma WindowEnds(p: Policy, o: Observation, end: int, seen: int, now: int)
    requires o.maintenanceUntil == Some(end) && o.lastSeen == Some(seen) && !o.advertised.Maintenance?
    ensures now < end ==> ScoreAt(p, o, now) == MaxInt(0, 40 - Penalties(p, o)) && LiveStatus(p, o, now).Maintenance?
    ensures now >= end ==> BaseScore(LiveStatus(p, o, now)) <= LevelAfter(p, o, end)
    ensures now >= end && end - seen >= p.unreachableAfter ==> LiveStatus(p, o, now).Unreachable?
  {
    hide Penalties;
  }

  /** A moment after the window at which the peer is seen at its best. */
  function BestMoment(p: Policy, o: Observation, end: int, seen: int): int {
    if o.advertised.Unreachable? then MaxInt(end, seen + p.degradedAfter) else end
  }

  lemma BestMomentShows(p: Policy, o: Observation, end: int, seen: int)
    requires o.maintenanceUntil == Some(end) && o.lastSeen == Some(seen) && !o.advertised.Maintenance?
    requires end - seen < p.unreachableAfter
    ensures var best := BestMoment(p, o, end, seen);
            && best >= end && BaseScore(LiveStatus(p, o, best)) == LevelAfter(p, o, end)
            && (LiveStatus(p, o, best).Healthy? || LiveStatus(p, o, best).Degraded?)
  {}

  /**
   Exactly when the score of a silent peer only falls. It can rise in two ways: a peer that calls itself
   unreachable recovers to a degraded score when its heartbeat grows old, and a maintenance window ends
   while the last heartbeat still counts. Penalties that take the score to zero anyway hide both.
   */
  lemma ScoreFallsWithAge(p: Policy, o: Observation)
    ensures ScoreOnlyFalls(p, o) <==>
              || o.advertised.Maintenance? || o.lastSeen.None?
              || match o.maintenanceUntil
                 case None => !o.advertised.Unreachable? || Penalties(p, o) >= 65
                 case Some(end) => end - o.lastSeen.value >= p.unreachableAfter || Penalties(p, o) >= LevelAfter(p, o, end)
  {
    if NoWindow(o) {
      ScoreFallsWithoutWindow(p, o);
    } else if o.advertised.Maintenance? || o.lastSeen.None? {
      hide Penalties;
    } else {
      ScoreFallsAcrossTheWindow(p, o, o.maintenanceUntil.value, o.lastSeen.value);
    }
  }

  lemma ScoreFallsAcrossTheWindow(p: Policy, o: Observation, end: int, seen: int)
    requires o.maintenanceUntil == Some(end) && o.lastSeen == Some(seen) && !o.advertised.Maintenance?
    ensures ScoreOnlyFalls(p, o) <==> end - seen >= p.unreachableAfter || Penalties(p, o) >= LevelAfter(p, o, end)
  {
    hide Penalties, LiveStatus, LevelAfter, BestMoment;
    if end - seen >= p.unreachableAfter || Penalties(p, o) >= LevelAfter(p, o, end) {
      forall t, u | t <= u
        ensures ScoreAt(p, o, u) <= ScoreAt(p, o, t)
      {
        WindowEnds(p, o, end, seen, t);
        WindowEnds(p, o, end, seen, u);
      }
    } else {
      LevelIsAboveMaintenance(p, o, end);
      WindowEnds(p, o, end, seen, end - 1);
      BestMomentShows(p, o, end, seen);
      assert ScoreAt(p, o, BestMoment(p, o, end, seen)) > ScoreAt(p, o, end - 1);
    }
  }

  lemma LevelIsAboveMaintenance(p: Policy, o: Observation, end: int)
    ensures 65 <= LevelAfter(p, o, end) <= 100
  {}

  /**
   Exactly when the cost of a silent peer only rises: as for the score, except that being taken out of
   quarantine, or out of maintenance, also makes a peer cheaper, so its failures must keep it there.
   */
  lemma CostRisesWithAge(p: Policy, o: Observation)
    ensures CostOnlyRises(p, o) <==>
              || o.advertised.Maintenance? || o.lastSeen.None?
              || match o.maintenanceUntil
                 case None => !o.advertised.Unreachable? || (o.failures >= p.quarantineAfterFailures && Penalties(p, o) >= 65)
                 case Some(end) =>
                   || end - o.lastSeen.value >= p.unreachableAfter
                   || (o.failures >= p.quarantineAfterFailures && Penalties(p, o) >= LevelAfter(p, o, end))
  {
    if NoWindow(o) {
      CostRisesWithoutWindow(p, o);
    } else if o.advertised.Maintenance? || o.lastSeen.None? {
      CostRisesOutOfSight(p, o);
    } else {
      CostRisesAcrossTheWindow(p, o, o.maintenanceUntil.value, o.lastSeen.value);
    }
  }

  lemma CostRisesOutOfSight(p: Policy, o: Observation)
    requires o.advertised.Maintenance? || o.lastSeen.None?
    ensures CostOnlyRises(p, o)
  {
    hide Penalties, Congestion;
  }

  lemma CostRisesAcrossTheWindow(p: Policy, o: Observation, end: int, seen: int)
    requires o.maintenanceUntil == Some(end) && o.lastSeen == Some(seen) && !o.advertised.Maintenance?
    ensures CostOnlyRises(p, o) <==>
              || end - seen >= p.unreachableAfter
              || (o.failures >= p.quarantineAfterFailures && Penalties(p, o) >= LevelAfter(p, o, end))
  {
    hide Penalties, LiveStatus, LevelAfter, BestMoment, Congestion;
    if || end - seen >= p.unreachableAfter
       || (o.failures >= p.quarantineAfterFailures && Penalties(p, o) >= LevelAfter(p, o, end))
    {
      LevelIsAboveMaintenance(p, o, end);
      forall t, u | t <= u
        ensures CostAt(p, o, t) <= CostAt(p, o, u)
      {
        WindowEnds(p, o, end, seen, t);
        WindowEnds(p, o, end, seen, u);
      }
    } else {
      LevelIsAboveMaintenance(p, o, end);
      WindowEnds(p, o, end, seen, end - 1);
      BestMomentShows(p, o, end, seen);
      assert CostAt(p, o, BestMoment(p, o, end, seen)) < CostAt(p, o, end - 1);
    }
  }

  // ------------------------------------------------------------ health in full

  /** Nothing was heard of the peer for so many seconds, or ever. */
  predicate Silent(o: Observation, now: int, seconds: int) {
    o.lastSeen.None? || now - o.lastSeen.value >= seconds
  }

  predicate OnLeave(o: Observation, now: int) {
    o.advertised.Maintenance? || (o.maintenanceUntil.Some? && now < o.maintenanceUntil.value)
  }

  ghost predicate SomethingIsWrong(o: Observation) {
    exists s :: s in o.services && o.services[s] != "healthy" && o.services[s] != "ok" && o.services[s] != "ready"
  }

  /** How alive a peer is: on leave, or else as silent as it is, or else as it says itself. */
  ghost predicate IsAlive(p: Policy, o: Observation, now: int, s: Status) {
    var silent, lost := Silent(o, now, p.degradedAfter), Silent(o, now, p.unreachableAfter);
    && (s.Maintenance? <==> OnLeave(o, now))
    && (s.Unreachable? <==> !OnLeave(o, now) && (lost || (!silent && o.advertised.Unreachable?)))
    && (s.Degraded? <==>
          !OnLeave(o, now) && !lost &&
          (silent || o.advertised.Degraded? || (!o.advertised.Unreachable? && SomethingIsWrong(o))))
    && (s.Healthy? <==>
          !OnLeave(o, now) && !silent && !o.advertised.Degraded? && !o.advertised.Unreachable? && !SomethingIsWrong(o))
  }

  /** How full the queue is, in whole percent, halves to the even one; a queue without capacity is never full. */
  ghost predicate IsPercentage(o: Observation, percent: nat) {
    if o.queueCapacity == 0 then percent == 0
    else if o.queueDepth >= o.queueCapacity then percent == 100
    else
      var capacity: int, off: int := o.queueCapacity, 2 * (100 * o.queueDepth - percent * o.queueCapacity);
      && percent <= 100
      && -capacity <= off <= capacity
      && (off == capacity || off == -capacity ==> percent % 2 == 0)
  }

  /** What a peer's failures, its latency, its congestion and an idle backlog cost it in points. */
  function Deductions(p: Policy, o: Observation, percent: nat): nat {
    (if o.failures >= 4 then 40 else 10 * o.failures)
    + (if o.latency.None? then 0 else if o.latency.value >= 2500 then 25 else o.latency.value / 100)
    + (if percent < p.congestionWarning then 0 else if percent < p.congestionCritical then 15 else 35)
    + (if o.queueDepth > 0 && o.workers == 0 then 20 else 0)
  }

  /** Out of a hundred points, of which a degraded peer starts with 65, one on leave with 40 and an unreachable one with none. */
  function Points(p: Policy, o: Observation, s: Status, percent: nat): int {
    var start := if s.Maintenance? then 40 else if s.Degraded? then 65 else if s.Unreachable? then 0 else 100;
    if start < Deductions(p, o, percent) then 0 else start - Deductions(p, o, percent)
  }

  /** A peer is given up when it fails too often or is unreachable, and whatever is wrong with it makes it dearer. */
  ghost predicate IsDerivedFrom(p: Policy, o: Observation, now: int, d: Observation, s: Status, percent: nat) {
    var givenUp := o.failures >= p.quarantineAfterFailures || s.Unreachable?;
    && IsAlive(p, o, now, s) && IsPercentage(o, percent)
    && d.score == Points(p, o, s, percent)
    && (d.quarantine <==> givenUp)
    && d.status == (if givenUp then QuarantineRecommended else s)
    && d.routeCost ==
         p.baseRouteCost + 10 * (100 - d.score) + 3 * percent + (if o.latency.Some? then o.latency.value else 0)
         + (if givenUp then 100000 else if s.Maintenance? then 5000 else 0)
    && d == o.(score := d.score, status := d.status, routeCost := d.routeCost, quarantine := d.quarantine)
  }

  ghost predicate IsDerivation(p: Policy, o: Observation, now: int, d: Observation) {
    exists s, percent :: IsDerivedFrom(p, o, now, d, s, percent)
  }

  lemma LivenessInFull(p: Policy, o: Observation, now: int)
    ensures IsAlive(p, o, now, LiveStatus(p, o, now))
    ensures !LiveStatus(p, o, now).QuarantineRecommended?
  {
    assert AgeAt(p, o, now) >= p.unreachableAfter <==> Silent(o, now, p.unreachableAfter);
    assert AgeAt(p, o, now) >= p.degradedAfter <==> Silent(o, now, p.degradedAfter);
    hide AgeAt, Silent;
    assert (exists s :: s in o.services && !ServiceIsFine(o.services[s])) <==> SomethingIsWrong(o);
  }

  lemma PositiveProduct(a: real, b: real)
    requires a > 0.0 && b > 0.0
    ensures a * b > 0.0
  {}

  /** Where a quotient lies, and how far it can be from the number it is rounded to. */
  lemma RoundedQuotient(x: real, depth: real, capacity: real, n: int)
    requires capacity > 0.0 && x * capacity == depth * 100.0 && -0.5 <= x - n as real <= 0.5
    ensures depth >= capacity ==> x >= 100.0
    ensures 0.0 <= depth < capacity ==> 0.0 <= x < 100.0
    ensures -capacity <= 2.0 * (100.0 * depth - n as real * capacity) <= capacity
    ensures 2.0 * (100.0 * depth - n as real * capacity) == capacity ==> x - n as real == 0.5
    ensures 2.0 * (100.0 * depth - n as real * capacity) == -capacity ==> x - n as real == -0.5
  {
    var d := x - n as real;
    assert 100.0 * depth - n as real * capacity == d * capacity;
    if x < 100.0 { PositiveProduct(100.0 - x, capacity); }
    if x > 100.0 { PositiveProduct(x - 100.0, capacity); }
    if x < 0.0 { PositiveProduct(-x, capacity); }
    if d < 0.5 { PositiveProduct(0.5 - d, capacity); }
    if d > -0.5 { PositiveProduct(0.5 + d, capacity); }
  }

  lemma SameNumber(depth: nat, capacity: nat, n: int)
    ensures (2 * (100 * depth - n * capacity)) as real == 2.0 * (100.0 * depth as real - n as real * capacity as real)
  {
    assert (n * capacity) as real == n as real * capacity as real;
  }

  lemma CongestionIsRounded(o: Observation) returns (x: real, n: int)
    requires o.queueCapacity > 0
    ensures x == (o.queueDepth * 100) as real / o.queueCapacity as real
    ensures Congestion(o) == MinInt(100, MaxInt(0, n))
    ensures -0.5 <= x - n as real <= 0.5 && (x - n as real == 0.5 || x - n as real == -0.5 ==> n % 2 == 0)
  {
    x := (o.queueDepth * 100) as real / o.queueCapacity as real;
    n := Round(x);
  }

  lemma QuotientIs(x: real, a: real, b: real)
    requires b > 0.0 && x == a / b
    ensures x * b == a
  {}

  lemma CongestionQuotient(o: Observation) returns (x: real, n: int)
    requires o.queueCapacity > 0
    ensures x * o.queueCapacity as real == (o.queueDepth * 100) as real
    ensures Congestion(o) == MinInt(100, MaxInt(0, n))
    ensures -0.5 <= x - n as real <= 0.5 && (x - n as real == 0.5 || x - n as real == -0.5 ==> n % 2 == 0)
  {
    hide Congestion, MinInt, MaxInt;
    x, n := CongestionIsRounded(o);
    QuotientIs(x, (o.queueDepth * 100) as real, o.queueCapacity as real);
  }

  /** The nearest number to a quotient of the queue is its percentage. */
  lemma CongestionInFull(o: Observation)
    ensures IsPercentage(o, Congestion(o))
  {
    if o.queueCapacity > 0 {
      hide Congestion, IsPercentage, MinInt, MaxInt;
      var x, n := CongestionQuotient(o);
      PercentageOf(o, x, n);
    }
  }

  lemma PercentageOf(o: Observation, x: real, n: int)
    requires o.queueCapacity > 0 && x * o.queueCapacity as real == (o.queueDepth * 100) as real
    requires -0.5 <= x - n as real <= 0.5 && (x - n as real == 0.5 || x - n as real == -0.5 ==> n % 2 == 0)
    ensures IsPercentage(o, MinInt(100, MaxInt(0, n)))
  {
    var depth, capacity := o.queueDepth, o.queueCapacity;
    RoundedQuotient(x, depth as real, capacity as real, n);
    SameNumber(depth, capacity, n);
  }

  lemma PenaltiesInFull(p: Policy, o: Observation)
    ensures Penalties(p, o) == Deductions(p, o, Congestion(o))
  {
    hide Congestion;
  }

  /** Status, score, cost and recommendation follow from what was observed, point by point. */
  lemma DerivationInFull(p: Policy, o: Observation, now: int)
    ensures IsDerivation(p, o, now, Derived(p, o, now))
  {
    LivenessInFull(p, o, now);
    CongestionInFull(o);
    PenaltiesInFull(p, o);
    UnreachableCollapses(p, o, now);
    hide Congestion, LiveStatus, Penalties, Deductions, IsAlive, IsPercentage;
    assert IsDerivedFrom(p, o, now, Derived(p, o, now), LiveStatus(p, o, now), Congestion(o));
  }

  // ------------------------------------------------------------ heartbeats

  datatype Heartbeat = Heartbeat(
    office: string,
    sequence: int,
    issuedAt: int,
    validUntil: int,
    status: Status,
    maintenanceUntil: Option<int>,
    metrics: Metrics,
    digest: Option<string>)

  datatype Report = Report(metrics: Metrics, status: Status, maintenanceUntil: Option<int>, digest: Option<string>)

  datatype Refusal =
    | InvalidQueueMetrics | IdentityMismatch | InvalidSignature | OutsideClockSkew | Expired | Stale | DepthExceedsCapacity

  predicate QueueIsPlausible(m: Metrics) {
    m.queueDepth >= 0 && m.queueCapacity >= 0 && !(m.queueDepth > m.queueCapacity > 0)
  }

  function HeartbeatFor(p: Policy, office: string, sequence: int, r: Report, now: int): Heartbeat {
    Heartbeat(office, sequence, now, now + p.heartbeatInterval * 2, r.status, r.maintenanceUntil,
              r.metrics.(latency := MaxInt(0, r.metrics.latency), workers := MaxInt(0, r.metrics.workers)), r.digest)
  }

  type Peers = map<string, Observation>

  function PeerOf(peers: Peers, office: string): Observation {
    if office in peers then peers[office] else FRESH
  }

  /** Some refusals come after the peer has been given an entry. */
  function Verdict(p: Policy, peers: Peers, hb: Heartbeat, identity: string, genuine: bool, now: int): Option<Refusal> {
    if identity != hb.office then Some(IdentityMismatch)
    else if !genuine then Some(InvalidSignature)
    else if now - hb.issuedAt > p.maximumClockSkew || hb.issuedAt - now > p.maximumClockSkew then Some(OutsideClockSkew)
    else if hb.validUntil < now then Some(Expired)
    else if hb.sequence <= PeerOf(peers, hb.office).sequence then Some(Stale)
    else
      var depth, capacity := MaxInt(0, hb.metrics.queueDepth), MaxInt(0, hb.metrics.queueCapacity);
      if capacity > 0 && depth > capacity then Some(DepthExceedsCapacity) else None
  }

  function Observed(o: Observation, hb: Heartbeat, measured: Option<int>, now: int): Observation {
    o.(sequence := hb.sequence,
       lastSeen := Some(now),
       lastIssued := Some(hb.issuedAt),
       failures := 0,
       latency := Some(MaxInt(0, if measured.Some? then measured.value else hb.metrics.latency)),
       queueDepth := MaxInt(0, hb.metrics.queueDepth),
       queueCapacity := MaxInt(0, hb.metrics.queueCapacity),
       workers := MaxInt(0, hb.metrics.workers),
       maintenanceUntil := hb.maintenanceUntil,
       advertised := hb.status,
       services := hb.metrics.services,
       digest := hb.digest)
  }

  function Ingested(p: Policy, peers: Peers, hb: Heartbeat, identity: string, genuine: bool, measured: Option<int>,
                    now: int): Peers
  {
    match Verdict(p, peers, hb, identity, genuine, now)
    case None => peers[hb.office := Derived(p, Observed(PeerOf(peers, hb.office), hb, measured, now), now)]
    case Some(Stale) => peers[hb.office := PeerOf(peers, hb.office)]
    case Some(DepthExceedsCapacity) => peers[hb.office := PeerOf(peers, hb.office)]
    case Some(_) => peers
  }

  function Failed(p: Policy, peers: Peers, office: string, now: int): Peers {
    var o := PeerOf(peers, office);
    peers[office := Derived(p, o.(failures := o.failures + 1), now)]
  }

  function Refreshed(p: Policy, peers: Peers, now: int): Peers {
    map office | office in peers :: Derived(p, peers[office], now)
  }

  /** A heartbeat that one office makes is accepted by another exactly when it is in time and newer than the last one,
      and then the other office sees the reported metrics unchanged. */
  lemma HeartbeatsArrive(sender: Policy, receiver: Policy, peers: Peers, office: string, sequence: int, r: Report,
                        made: int, now: int)
    requires QueueIsPlausible(r.metrics)
    ensures var hb := HeartbeatFor(sender, office, sequence, r, made);
            var after := Ingested(receiver, peers, hb, office, true, None, now);
            && (Verdict(receiver, peers, hb, office, true, now) == None <==>
                  && -receiver.maximumClockSkew <= now - made <= receiver.maximumClockSkew
                  && now <= made + 2 * sender.heartbeatInterval
                  && sequence > PeerOf(peers, office).sequence)
            && (Verdict(receiver, peers, hb, office, true, now) == None ==>
                  && office in after && after[office].sequence == sequence && after[office].failures == 0
                  && after[office].queueDepth == r.metrics.queueDepth
                  && after[office].queueCapacity == r.metrics.queueCapacity
                  && after[office].latency == Some(MaxInt(0, r.metrics.latency))
                  && after[office].workers == MaxInt(0, r.metrics.workers)
                  && after[office].services == r.metrics.services && after[office].advertised == r.status
                  && after[office].maintenanceUntil == r.maintenanceUntil && after[office].digest == r.digest
                  && after[office].lastSeen == Some(now) && after[office].lastIssued == Some(made))
  {
    hide ScoreAt, StatusAt, CostAt, QuarantineAt;
  }

  /** The heartbeat is its office's own, in time, newer than the last one, and does not overfill its queue. */
  predicate IsTimely(p: Policy, peers: Peers, hb: Heartbeat, identity: string, genuine: bool, now: int) {
    && identity == hb.office && genuine
    && -p.maximumClockSkew <= now - hb.issuedAt <= p.maximumClockSkew
    && now <= hb.validUntil
    && hb.sequence > (if hb.office in peers then peers[hb.office].sequence else 0)
    && (hb.metrics.queueCapacity > 0 ==> hb.metrics.queueDepth <= hb.metrics.queueCapacity)
  }

  /** What was observed is what the heartbeat reports, no number below zero, and a measured latency before a reported one. */
  predicate IsReported(o: Observation, hb: Heartbeat, measured: Option<int>, now: int) {
    var latency := if measured.Some? then measured.value else hb.metrics.latency;
    && o.sequence == hb.sequence && o.lastIssued == Some(hb.issuedAt) && o.lastSeen == Some(now) && o.failures == 0
    && o.latency.Some? && (latency >= 0 ==> o.latency.value == latency) && (latency < 0 ==> o.latency.value == 0)
    && (if hb.metrics.queueDepth >= 0 then o.queueDepth == hb.metrics.queueDepth else o.queueDepth == 0)
    && (if hb.metrics.queueCapacity >= 0 then o.queueCapacity == hb.metrics.queueCapacity else o.queueCapacity == 0)
    && (if hb.metrics.workers >= 0 then o.workers == hb.metrics.workers else o.workers == 0)
    && o.maintenanceUntil == hb.maintenanceUntil && o.advertised == hb.status
    && o.services == hb.metrics.services && o.digest == hb.digest
  }

  /** Which heartbeats are accepted: exactly the timely ones. */
  lemma HeartbeatInFull(p: Policy, peers: Peers, hb: Heartbeat, identity: string, genuine: bool, now: int)
    ensures Verdict(p, peers, hb, identity, genuine, now).None? <==> IsTimely(p, peers, hb, identity, genuine, now)
  {}

  lemma ReportInFull(o: Observation, hb: Heartbeat, measured: Option<int>, now: int)
    ensures IsReported(Observed(o, hb, measured, now), hb, measured, now)
  {}

  // ------------------------------------------------------------ every run

  datatype Op =
    | Ingest(heartbeat: Heartbeat, identity: string, genuine: bool, measured: Option<int>, now: int)
    | RecordFailure(office: string, now: int)
    | Refresh(now: int)

  function Apply(p: Policy, peers: Peers, op: Op): Peers {
    match op
    case Ingest(hb, identity, genuine, measured, now) => Ingested(p, peers, hb, identity, genuine, measured, now)
    case RecordFailure(office, now) => Failed(p, peers, office, now)
    case Refresh(now) => Refreshed(p, peers, now)
  }

  function After(p: Policy, ops: seq<Op>): Peers {
    if ops == [] then map[] else Apply(p, After(p, ops[..|ops| - 1]), ops[|ops| - 1])
  }

  /** A peer is either untouched since it was first heard of, or fully derived. */
  predicate Consistent(o: Observation) {
    || o == FRESH
    || (0 <= o.score <= 100 && !o.status.Unreachable? && (o.quarantine <==> o.status.QuarantineRecommended?))
  }

  lemma DerivedIsConsistent(p: Policy, o: Observation, now: int)
    ensures Consistent(Derived(p, o, now))
  {
    UnreachableCollapses(p, o, now);
    hide ScoreAt, CostAt;
  }

  ghost predicate AllConsistent(peers: Peers) {
    forall office :: office in peers ==> Consistent(peers[office])
  }

  lemma StepKeepsConsistent(p: Policy, peers: Peers, op: Op)
    requires AllConsistent(peers)
    ensures AllConsistent(Apply(p, peers, op))
  {
    forall o, now {
      DerivedIsConsistent(p, o, now);
    }
    hide Derived, Observed, Verdict, Consistent;
    assert Consistent(FRESH) by { FreshIsConsistent(); }
  }

  lemma FreshIsConsistent()
    ensures Consistent(FRESH)
  {}

  /** In every run scores stay within bounds and the only unreachable peers are those nothing was ever accepted from. */
  lemma OnlyFreshPeersAreUnreachable(p: Policy, ops: seq<Op>, office: string)
    requires office in After(p, ops)
    ensures var o := After(p, ops)[office];
            0 <= o.score <= 100 && (o.status.Unreachable? ==> o == FRESH)
  {
    RunsAreConsistent(p, ops);
  }

  lemma {:induction false} RunsAreConsistent(p: Policy, ops: seq<Op>)
    ensures AllConsistent(After(p, ops))
  {
    if ops != [] {
      RunsAreConsistent(p, ops[..|ops| - 1]);
      StepKeepsConsistent(p, After(p, ops[..|ops| - 1]), ops[|ops| - 1]);
    }
  }

  /** A refresh leaves no peer unreachable, whatever happened before. */
  lemma RefreshLeavesNoneUnreachable(p: Policy, ops: seq<Op>, now: int, office: string)
    requires office in After(p, ops)
    ensures var after := After(p, ops + [Refresh(now)]);
            office in after && !after[office].status.Unreachable? && 0 <= after[office].score <= 100
  {
    assert (ops + [Refresh(now)])[..|ops|] == ops;
    DerivedIsConsistent(p, After(p, ops)[office], now);
    UnreachableCollapses(p, After(p, ops)[office], now);
    hide StatusAt, ScoreAt;
  }

  predicate Accepts(p: Policy, ops: seq<Op>, i: nat)
    requires i < |ops|
  {
    ops[i].Ingest? &&
    Verdict(p, After(p, ops[..i]), ops[i].heartbeat, ops[i].identity, ops[i].genuine, ops[i].now) == None
  }

  lemma StepNeverLowersSequence(p: Policy, peers: Peers, op: Op, office: string)
    ensures PeerOf(Apply(p, peers, op), office).sequence >= PeerOf(peers, office).sequence
  {
    hide ScoreAt, StatusAt, CostAt, QuarantineAt;
  }

  lemma {:induction false} SequencesNeverFall(p: Policy, ops: seq<Op>, i: nat, office: string)
    requires i <= |ops|
    ensures PeerOf(After(p, ops[..i]), office).sequence <= PeerOf(After(p, ops), office).sequence
    decreases |ops|
  {
    hide Apply, PeerOf;
    if i < |ops| {
      var n := |ops| - 1;
      assert ops[..n][..i] == ops[..i];
      SequencesNeverFall(p, ops[..n], i, office);
      StepNeverLowersSequence(p, After(p, ops[..n]), ops[n], office);
    } else {
      assert ops[..i] == ops;
    }
  }

  /** Of one office, accepted heartbeats carry strictly increasing sequence numbers: none is ever accepted twice. */
  lemma AcceptedSequencesIncrease(p: Policy, ops: seq<Op>, i: nat, j: nat)
    requires i < j < |ops| && Accepts(p, ops, i) && Accepts(p, ops, j)
    requires ops[i].heartbeat.office == ops[j].heartbeat.office
    ensures ops[i].heartbeat.sequence < ops[j].heartbeat.sequence
  {
    assert ops[..i + 1][..i] == ops[..i];
    assert ops[..j][..i + 1] == ops[..i + 1];
    SequencesNeverFall(p, ops[..j], i + 1, ops[i].heartbeat.office);
    hide ScoreAt, StatusAt, CostAt, QuarantineAt;
  }

  // ------------------------------------------------------------ the control plane object

  class TelegraphControlPlane {
    const office: string
    const policy: Policy
    var localSequence: int
    var peers: Peers

    constructor (office: string, policy: Policy)
      ensures this.office == office && this.policy == policy
      ensures localSequence == 0 && peers == map[]
    {
      this.office, this.policy := office, policy;
      localSequence, peers := 0, map[];
    }

    /** A number is spent even on metrics that are refused. */
    method MakeHeartbeat(r: Report, now: int) returns (h: Result<Heartbeat, Refusal>)
      modifies this`localSequence
      ensures localSequence == old(localSequence) + 1
      ensures h == if QueueIsPlausible(r.metrics) then Ok(HeartbeatFor(policy, office, localSequence, r, now))
                   else Err(InvalidQueueMetrics)
      ensures h.Ok? <==>
        && 0 <= r.metrics.queueDepth && 0 <= r.metrics.queueCapacity
        && (r.metrics.queueCapacity == 0 || r.metrics.queueDepth <= r.metrics.queueCapacity)
      ensures h.Ok? ==>
        && h.value.office == office && h.value.sequence == old(localSequence) + 1
        && h.value.issuedAt == now && h.value.validUntil == now + 2 * policy.heartbeatInterval
    {
      localSequence := localSequence + 1;
      if r.metrics.queueDepth < 0 || r.metrics.queueCapacity < 0 || r.metrics.queueDepth > r.metrics.queueCapacity > 0 {
        return Err(InvalidQueueMetrics);
      }
      h := Ok(HeartbeatFor(policy, office, localSequence, r, now));
    }

    method IngestHeartbeat(hb: Heartbeat, identity: string, genuine: bool, measured: Option<int>, now: int)
        returns (r: Result<Observation, Refusal>)
      modifies this`peers
      ensures peers == Apply(policy, old(peers), Ingest(hb, identity, genuine, measured, now))
      ensures r.Err? <==> Verdict(policy, old(peers), hb, identity, genuine, now).Some?
      ensures r.Err? ==> Verdict(policy, old(peers), hb, identity, genuine, now) == Some(r.error)
      ensures r.Ok? ==> hb.office in peers && peers[hb.office] == r.value
      ensures r.Ok? <==> IsTimely(policy, old(peers), hb, identity, genuine, now)
      ensures r.Ok? ==> peers == old(peers)[hb.office := r.value]
      ensures r.Ok? ==> exists o :: IsReported(o, hb, measured, now) && IsDerivation(policy, o, now, r.value)
      ensures r.Err? ==> peers == old(peers) || (hb.office !in old(peers) && peers == old(peers)[hb.office := FRESH])
      ensures r == Err(IdentityMismatch) <==> identity != hb.office
      ensures r == Err(InvalidSignature) <==> identity == hb.office && !genuine
    {
      HeartbeatInFull(policy, peers, hb, identity, genuine, now);
      ReportInFull(PeerOf(peers, hb.office), hb, measured, now);
      hide Derived, IsTimely, IsReported, IsDerivation;
      if identity != hb.office {
        return Err(IdentityMismatch);
      }
      if !genuine {
        return Err(InvalidSignature);
      }
      if now - hb.issuedAt > policy.maximumClockSkew || hb.issuedAt - now > policy.maximumClockSkew {
        return Err(OutsideClockSkew);
      }
      if hb.validUntil < now {
        return Err(Expired);
      }
      var o := PeerOf(peers, hb.office);
      peers := peers[hb.office := o];
      if hb.sequence <= o.sequence {
        return Err(Stale);
      }
      var capacity := MaxInt(0, hb.metrics.queueCapacity);
      if capacity > 0 && MaxInt(0, hb.metrics.queueDepth) > capacity {
        return Err(DepthExceedsCapacity);
      }
      o := Derive(Observed(o, hb, measured, now), now);
      peers := peers[hb.office := o];
      r := Ok(o);
    }

    method CountFailure(peer: string, now: int)
      modifies this`peers
      ensures peers == Apply(policy, old(peers), RecordFailure(peer, now))
      ensures peer in peers && peers.Keys == old(peers).Keys + {peer}
      ensures forall x :: x in old(peers) && x != peer ==> peers[x] == old(peers)[x]
      ensures var o := if peer in old(peers) then old(peers)[peer] else FRESH;
              IsDerivation(policy, o.(failures := o.failures + 1), now, peers[peer])
    {
      hide Derived, IsDerivation;
      var o := PeerOf(peers, peer);
      o := Derive(o.(failures := o.failures + 1), now);
      peers := peers[peer := o];
    }

    method RefreshAll(now: int)
      modifies this`peers
      ensures peers == Apply(policy, old(peers), Refresh(now))
      ensures peers.Keys == old(peers).Keys
      ensures forall x :: x in peers ==> IsDerivation(policy, old(peers)[x], now, peers[x])
    {
      hide Derived, IsDerivation;
      var left := peers.Keys;
      while left != {}
        invariant left <= peers.Keys == old(peers.Keys)
        invariant forall x :: x in peers ==> peers[x] == if x in left then old(peers)[x] else Derived(policy, old(peers)[x], now)
        invariant forall x :: x in peers && x !in left ==> IsDerivation(policy, old(peers)[x], now, peers[x])
        decreases |left|
      {
        var x :| x in left;
        var o := Derive(peers[x], now);
        peers := peers[x := o];
        left := left - {x};
      }
    }

    /** The step-by-step derivation: a status, a score that is whittled down, and a cost that is built up. */
    method Derive(o: Observation, now: int) returns (d: Observation)
      ensures d == Derived(policy, o, now)
      ensures IsDerivation(policy, o, now, d)
    {
      DerivationInFull(policy, o, now);
      hide IsDerivation;
      var status := LiveStatus(policy, o, now);
      var score := 100;
      if status == Maintenance {
        score := 40;
      } else if status == Degraded {
        score := score - 35;
      } else if status == Unreachable {
        score := 0;
      }
      score := score - MinInt(40, o.failures * 10);
      if o.latency.Some? {
        score := score - MinInt(25, o.latency.value / 100);
      }
      var congestion := Congestion(o);
      if congestion >= policy.congestionCritical {
        score := score - 35;
      } else if congestion >= policy.congestionWarning {
        score := score - 15;
      }
      if o.workers == 0 && o.queueDepth > 0 {
        score := score - 20;
      }
      score := MinInt(100, MaxInt(0, score));
      assert score == ScoreAt(policy, o, now);
      var quarantine := o.failures >= policy.quarantineAfterFailures
        || (status == Unreachable && score <= policy.quarantineScoreThreshold);
      if quarantine {
        status := QuarantineRecommended;
      }
      var cost := policy.baseRouteCost + (100 - score) * 10 + congestion * 3;
      if o.latency.Some? {
        cost := cost + o.latency.value;
      }
      if status == Maintenance {
        cost := cost + 5000;
      } else if status == Unreachable || status == QuarantineRecommended {
        cost := cost + 100000;
      }
      d := o.(score := score, status := status, routeCost := cost, quarantine := quarantine);
    }
  }
}
