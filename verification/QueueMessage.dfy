/**
 One message of the store-and-forward queue: its row, its event log, what each
 queue operation does to the two, and the lifecycle that every log follows.
 */
module QueueMessage {
  import opened Wrappers
  import opened Rounding

  // ------------------------------------------------------------ configuration

  datatype RetryPolicy = RetryPolicy(
    initialSeconds: int,
    maximumSeconds: int,
    multiplier: real,
    jitterFraction: real,
    maxAttempts: int)

  datatype Limits = QueueLimits(maxMessages: int, maxBytes: int, maxMessageBytes: int)

  datatype Config = Config(officeId: string, policy: RetryPolicy, limits: Limits)

  /** What the random source contributes: where in the jitter band a delay falls. */
  type Draw = u: real | 0.0 <= u <= 1.0 witness 0.0

  function Power(x: real, n: nat): real {
    if n == 0 then 1.0 else x * Power(x, n - 1)
  }

  function MinReal(a: real, b: real): real {
    if a < b then a else b
  }

  function Exponential(p: RetryPolicy, n: nat): real {
    p.initialSeconds as real * Power(p.multiplier, n)
  }

  function BaseDelay(p: RetryPolicy, attempt: nat): real
    requires attempt >= 1
  {
    MinReal(p.maximumSeconds as real, Exponential(p, attempt - 1))
  }

  function Jitter(p: RetryPolicy, attempt: nat): real
    requires attempt >= 1
  {
    BaseDelay(p, attempt) * p.jitterFraction
  }

  /** A number drawn between two others, as `random.uniform` draws it. */
  function Uniform(lo: real, hi: real, u: Draw): real {
    lo + u * (hi - lo)
  }

  function WholeSeconds(x: real): int {
    MaxInt(1, Round(x))
  }

  /** The delay before the next attempt; an attempt number below one is refused. */
  function Delay(p: RetryPolicy, attempt: int, u: Draw): Option<int> {
    if attempt < 1 then None
    else
      var base, jitter := BaseDelay(p, attempt), Jitter(p, attempt);
      Some(WholeSeconds(Uniform(base - jitter, base + jitter, u)))
  }

  ghost predicate SensiblePolicy(p: RetryPolicy) {
    p.initialSeconds >= 0 && p.maximumSeconds >= 0 && p.multiplier >= 0.0 && p.jitterFraction >= 0.0
  }

  lemma ProductIsNonNegative(a: real, b: real)
    requires a >= 0.0 && b >= 0.0
    ensures a * b >= 0.0
  {}

  lemma {:induction false} PowerIsNonNegative(x: real, n: nat)
    requires x >= 0.0
    ensures Power(x, n) >= 0.0
  {
    if n > 0 {
      PowerIsNonNegative(x, n - 1);
      ProductIsNonNegative(x, Power(x, n - 1));
    }
  }

  lemma UniformIsBetween(lo: real, hi: real, u: Draw)
    requires lo <= hi
    ensures lo <= Uniform(lo, hi, u) <= hi
  {
    var d := hi - lo;
    ProductIsNonNegative(u, d);
    ProductIsNonNegative(1.0 - u, d);
    assert (1.0 - u) * d == d - u * d;
  }

  lemma BaseDelayBounds(p: RetryPolicy, attempt: nat)
    requires SensiblePolicy(p) && attempt >= 1
    ensures 0.0 <= BaseDelay(p, attempt) <= p.maximumSeconds as real
  {
    PowerIsNonNegative(p.multiplier, attempt - 1);
    ProductIsNonNegative(p.initialSeconds as real, Power(p.multiplier, attempt - 1));
  }

  /** The ends of the jitter band around the capped exponential, in whole seconds. */
  function BandLow(p: RetryPolicy, attempt: nat): int
    requires attempt >= 1
  {
    WholeSeconds(BaseDelay(p, attempt) - Jitter(p, attempt))
  }

  function BandHigh(p: RetryPolicy, attempt: nat): int
    requires attempt >= 1
  {
    WholeSeconds(BaseDelay(p, attempt) + Jitter(p, attempt))
  }

  /** Every delay is at least a second and lies in the jitter band, whatever the random source yields. */
  lemma DelayIsInItsBand(p: RetryPolicy, attempt: nat, u: Draw)
    requires SensiblePolicy(p) && attempt >= 1
    ensures 1 <= BandLow(p, attempt) <= Delay(p, attempt, u).value <= BandHigh(p, attempt)
    ensures BaseDelay(p, attempt) <= p.maximumSeconds as real
  {
    BaseDelayBounds(p, attempt);
    var base, band := BaseDelay(p, attempt), Jitter(p, attempt);
    ProductIsNonNegative(base, p.jitterFraction);
    assert band >= 0.0;
    hide BaseDelay, Jitter;
    UniformIsBetween(base - band, base + band, u);
    hide Uniform, Round;
    RoundIsMonotone(base - band, Uniform(base - band, base + band, u));
    RoundIsMonotone(Uniform(base - band, base + band, u), base + band);
  }

  lemma ProductIsMonotone(a: real, x: real, y: real)
    requires a >= 0.0 && x <= y
    ensures a * x <= a * y
  {
    ProductIsNonNegative(a, y - x);
    assert a * (y - x) == a * y - a * x;
  }

  lemma PowerGrows(x: real, n: nat)
    requires x >= 1.0 && n >= 1
    ensures Power(x, n - 1) <= Power(x, n)
  {
    var w := Power(x, n - 1);
    PowerIsNonNegative(x, n - 1);
    ProductIsNonNegative(x - 1.0, w);
    assert (x - 1.0) * w == x * w - w;
  }

  lemma ExponentialGrows(p: RetryPolicy, attempt: nat)
    requires SensiblePolicy(p) && attempt >= 1 && p.multiplier >= 1.0
    ensures Exponential(p, attempt - 1) <= Exponential(p, attempt)
  {
    PowerGrows(p.multiplier, attempt);
    hide Power;
    ProductIsMonotone(p.initialSeconds as real, Power(p.multiplier, attempt - 1), Power(p.multiplier, attempt));
  }

  lemma MinRealIsMonotone(c: real, x: real, y: real)
    requires x <= y
    ensures MinReal(c, x) <= MinReal(c, y)
  {}

  /** With a multiplier of at least one, the centre of the band never moves down from one attempt to the next. */
  lemma BackoffGrows(p: RetryPolicy, attempt: nat)
    requires SensiblePolicy(p) && attempt >= 1 && p.multiplier >= 1.0
    ensures BaseDelay(p, attempt) <= BaseDelay(p, attempt + 1)
  {
    hide Exponential, MinReal;
    ExponentialGrows(p, attempt);
    MinRealIsMonotone(p.maximumSeconds as real, Exponential(p, attempt - 1), Exponential(p, attempt));
  }

  // ------------------------------------------------------------ rows and logs

  datatype State = Queued | RetryWait | InFlight | CustodyTransferred | Delivered | Expired | Rejected | Cancelled

  predicate Terminal(s: State) {
    s.Delivered? || s.Expired? || s.Rejected? || s.Cancelled?
  }

  datatype Priority = Emergency | Urgent | Normal | Bulk | OtherPriority(name: string)
  {
    predicate Known() {
      !OtherPriority?
    }

    function Weight(): int {
      match this
      case Emergency => 0
      case Urgent => 10
      case Normal => 20
      case Bulk => 30
      case OtherPriority(_) => 0
    }
  }

  /** An encrypted envelope: two are equal exactly when their canonical encodings, and so their digests, are. */
  datatype Envelope = Envelope(messageId: Option<string>, content: string, sizeBytes: nat)

  datatype Row = Row(
    destination: string,
    nextHop: Option<string>,
    priority: Priority,
    envelope: Envelope,
    state: State,
    createdAt: int,
    expiresAt: int,
    nextAttemptAt: int,
    attempts: nat,
    lastError: Option<string>,
    leaseOwner: Option<string>,
    leaseUntil: Option<int>,
    custodyOffice: Option<string>,
    receipt: Option<string>,
    deliveredAt: Option<int>,
    updatedAt: int)

  datatype Event =
    | AcceptedForCustody(office: string)
    | AttemptStarted(worker: string)
    | DeliveryFailed(attempt: nat, error: string, retryable: bool, next: Option<int>, terminal: Option<State>)
    | WasDelivered(receipt: string)
    | WasTransferred(office: string, receipt: string)
    | WasCancelled(reason: string)
    | WasExpired

  datatype Stamp = Stamp(at: int, event: Event)

  datatype Msg = Msg(row: Row, log: seq<Stamp>)

  function Clip(s: string): string {
    if |s| <= 1000 then s else s[..1000]
  }

  function Unleased(r: Row, s: State, now: int): Row {
    r.(state := s, leaseOwner := None, leaseUntil := None, updatedAt := now)
  }

  function Logged(r: Row, log: seq<Stamp>, now: int, e: Event): Msg {
    Msg(r, log + [Stamp(now, e)])
  }

  // ------------------------------------------------------------ what each operation does to one message

  function NewMessage(cfg: Config, env: Envelope, destination: string, expiresAt: int, priority: Priority,
                      nextHop: Option<string>, now: int): Msg
  {
    Logged(
      Row(destination, nextHop, priority, env, Queued, now, expiresAt, now, 0, None, None, None, None, None, None, now),
      [], now, AcceptedForCustody(cfg.officeId))
  }

  predicate ExpiryDue(r: Row, now: int) {
    !Terminal(r.state) && r.expiresAt <= now
  }

  function ExpireMsg(m: Msg, now: int): Msg {
    if ExpiryDue(m.row, now) then Logged(Unleased(m.row, Expired, now), m.log, now, WasExpired) else m
  }

  predicate LeaseLapsed(r: Row, now: int) {
    r.state.InFlight? && r.leaseUntil.Some? && r.leaseUntil.value <= now
  }

  /** Reclaiming a lapsed lease is silent: it writes no event. */
  function ReclaimMsg(m: Msg, now: int): Msg {
    if LeaseLapsed(m.row, now) then m.(row := Unleased(m.row, RetryWait, now)) else m
  }

  predicate Due(r: Row, now: int) {
    (r.state.Queued? || r.state.RetryWait?) && r.nextAttemptAt <= now && r.expiresAt > now
  }

  function ClaimMsg(m: Msg, worker: string, until: int, now: int): Msg {
    Logged(m.row.(state := InFlight, leaseOwner := Some(worker), leaseUntil := Some(until), updatedAt := now),
           m.log, now, AttemptStarted(worker))
  }

  predicate Owns(r: Row, worker: string) {
    r.state.InFlight? && r.leaseOwner == Some(worker)
  }

  function FailureState(cfg: Config, r: Row, retryable: bool, now: int): State {
    if now >= r.expiresAt then Expired
    else if !retryable || r.attempts + 1 >= cfg.policy.maxAttempts then Rejected
    else RetryWait
  }

  function FailMsg(cfg: Config, m: Msg, error: string, now: int, retryable: bool, u: Draw): Msg {
    var attempt := m.row.attempts + 1;
    var state := FailureState(cfg, m.row, retryable, now);
    var next := if state.RetryWait? then now + Delay(cfg.policy, attempt, u).value else now;
    Logged(
      Unleased(m.row, state, now).(attempts := attempt, lastError := Some(Clip(error)), nextAttemptAt := next),
      m.log, now,
      DeliveryFailed(attempt, Clip(error), retryable,
                     if state.RetryWait? then Some(next) else None,
                     if Terminal(state) then Some(state) else None))
  }

  function AckMsg(m: Msg, receipt: string, now: int): Msg {
    Logged(Unleased(m.row, Delivered, now).(deliveredAt := Some(now), receipt := Some(receipt)),
           m.log, now, WasDelivered(receipt))
  }

  function TransferMsg(m: Msg, office: string, receipt: string, now: int): Msg {
    Logged(Unleased(m.row, CustodyTransferred, now).(custodyOffice := Some(office), receipt := Some(receipt)),
           m.log, now, WasTransferred(office, receipt))
  }

  predicate Cancellable(r: Row) {
    !Terminal(r.state) && !r.state.CustodyTransferred?
  }

  function CancelMsg(m: Msg, reason: string, now: int): Msg {
    Logged(Unleased(m.row, Cancelled, now).(lastError := Some(Clip(reason))), m.log, now, WasCancelled(Clip(reason)))
  }

  // ------------------------------------------------------------ the lifecycle automaton

  /** What a log says about its message: nothing yet, or a state, a failure count and the time it is ready again. */
  datatype Phase = Unborn | Phase(state: State, attempts: nat, ready: int)

  function Advance(p: Phase, s: Stamp): Phase {
    if p.Unborn? then
      Phase(Queued, 0, s.at)
    else
      match s.event
      case AcceptedForCustody(_) => p
      case AttemptStarted(_) => p.(state := InFlight)
      case DeliveryFailed(attempt, _, _, Some(next), _) => Phase(RetryWait, attempt, next)
      case DeliveryFailed(attempt, _, _, None, terminal) =>
        p.(state := if terminal.Some? then terminal.value else Rejected, attempts := attempt)
      case WasDelivered(_) => p.(state := Delivered)
      case WasTransferred(_, _) => p.(state := CustodyTransferred)
      case WasCancelled(_) => p.(state := Cancelled)
      case WasExpired => p.(state := Expired)
  }

  function Replay(log: seq<Stamp>): Phase {
    if log == [] then Unborn else Advance(Replay(log[..|log| - 1]), log[|log| - 1])
  }

  /** A failure retries after a delay the policy allows, or ends the message, but never both. */
  ghost predicate FailureIsLegal(cfg: Config, p: Phase, s: Stamp)
    requires p.Phase? && s.event.DeliveryFailed?
  {
    && p.state.InFlight?
    && s.event.attempt == p.attempts + 1
    && (s.event.next.Some? <==> s.event.terminal.None?)
    && (s.event.next.Some? ==>
          s.event.attempt < cfg.policy.maxAttempts &&
          exists u: Draw :: s.event.next == Some(s.at + Delay(cfg.policy, s.event.attempt, u).value))
    && (s.event.terminal.Some? ==> s.event.terminal.value.Expired? || s.event.terminal.value.Rejected?)
  }

  ghost predicate EventIsLegal(cfg: Config, p: Phase, s: Stamp) {
    if p.Unborn? then s.event.AcceptedForCustody?
    else
      match s.event
      case AcceptedForCustody(_) => false
      case AttemptStarted(_) =>
        && (p.state.Queued? || p.state.RetryWait? || p.state.InFlight?)
        && p.ready <= s.at
      case DeliveryFailed(_, _, _, _, _) => FailureIsLegal(cfg, p, s)
      case WasDelivered(_) => p.state.InFlight?
      case WasTransferred(_, _) => p.state.InFlight?
      case WasCancelled(_) => !Terminal(p.state) && !p.state.CustodyTransferred?
      case WasExpired => !Terminal(p.state)
  }

  /** Every event of the log was possible when it was written. */
  ghost predicate Legal(cfg: Config, log: seq<Stamp>) {
    log == [] ||
    var front := log[..|log| - 1];
    Legal(cfg, front) && EventIsLegal(cfg, Replay(front), log[|log| - 1])
  }

  /** The row agrees with its log, but for a lapsed lease that was reclaimed without an event. */
  predicate Agrees(r: Row, p: Phase) {
    && p.Phase?
    && r.attempts == p.attempts
    && (r.state == p.state || (p.state.InFlight? && r.state.RetryWait?))
    && (!Terminal(r.state) ==> r.nextAttemptAt == p.ready)
  }

  predicate LeaseMatchesState(r: Row) {
    && (r.state.InFlight? <==> r.leaseOwner.Some?)
    && (r.state.InFlight? <==> r.leaseUntil.Some?)
  }

  ghost predicate MsgInvariant(cfg: Config, m: Msg) {
    && LeaseMatchesState(m.row)
    && Legal(cfg, m.log)
    && Agrees(m.row, Replay(m.log))
    && (cfg.policy.maxAttempts >= 1 && !Terminal(m.row.state) ==> m.row.attempts < cfg.policy.maxAttempts)
  }

  lemma AppendedLog(cfg: Config, log: seq<Stamp>, s: Stamp)
    ensures Replay(log + [s]) == Advance(Replay(log), s)
    ensures Legal(cfg, log + [s]) <==> Legal(cfg, log) && EventIsLegal(cfg, Replay(log), s)
  {
    assert (log + [s])[..|log|] == log;
  }

  // ------------------------------------------------------------ every operation keeps the invariant

  lemma NewKeepsInvariant(cfg: Config, env: Envelope, destination: string, expiresAt: int, priority: Priority,
                          nextHop: Option<string>, now: int)
    ensures MsgInvariant(cfg, NewMessage(cfg, env, destination, expiresAt, priority, nextHop, now))
  {
    AppendedLog(cfg, [], Stamp(now, AcceptedForCustody(cfg.officeId)));
  }

  lemma ExpireKeepsInvariant(cfg: Config, m: Msg, now: int)
    requires MsgInvariant(cfg, m)
    ensures MsgInvariant(cfg, ExpireMsg(m, now))
  {
    AppendedLog(cfg, m.log, Stamp(now, WasExpired));
  }

  lemma ReclaimKeepsInvariant(cfg: Config, m: Msg, now: int)
    requires MsgInvariant(cfg, m)
    ensures MsgInvariant(cfg, ReclaimMsg(m, now))
  {}

  lemma ClaimKeepsInvariant(cfg: Config, m: Msg, worker: string, until: int, now: int)
    requires MsgInvariant(cfg, m) && Due(m.row, now)
    ensures MsgInvariant(cfg, ClaimMsg(m, worker, until, now))
  {
    AppendedLog(cfg, m.log, Stamp(now, AttemptStarted(worker)));
  }

  lemma FailKeepsInvariant(cfg: Config, m: Msg, error: string, now: int, retryable: bool, u: Draw)
    requires MsgInvariant(cfg, m) && m.row.state.InFlight?
    ensures MsgInvariant(cfg, FailMsg(cfg, m, error, now, retryable, u))
  {
    var after := FailMsg(cfg, m, error, now, retryable, u);
    var s := after.log[|m.log|];
    AppendedLog(cfg, m.log, s);
    assert s.event.next.Some? ==> s.event.next == Some(s.at + Delay(cfg.policy, s.event.attempt, u).value);
    assert FailureIsLegal(cfg, Replay(m.log), s);
  }

  lemma AckKeepsInvariant(cfg: Config, m: Msg, receipt: string, now: int)
    requires MsgInvariant(cfg, m) && m.row.state.InFlight?
    ensures MsgInvariant(cfg, AckMsg(m, receipt, now))
  {
    AppendedLog(cfg, m.log, Stamp(now, WasDelivered(receipt)));
  }

  lemma TransferKeepsInvariant(cfg: Config, m: Msg, office: string, receipt: string, now: int)
    requires MsgInvariant(cfg, m) && m.row.state.InFlight?
    ensures MsgInvariant(cfg, TransferMsg(m, office, receipt, now))
  {
    AppendedLog(cfg, m.log, Stamp(now, WasTransferred(office, receipt)));
  }

  lemma CancelKeepsInvariant(cfg: Config, m: Msg, reason: string, now: int)
    requires MsgInvariant(cfg, m) && Cancellable(m.row)
    ensures MsgInvariant(cfg, CancelMsg(m, reason, now))
  {
    AppendedLog(cfg, m.log, Stamp(now, WasCancelled(Clip(reason))));
  }

  // ------------------------------------------------------------ what a legal log implies

  function Failures(log: seq<Stamp>): nat {
    if log == [] then 0
    else Failures(log[..|log| - 1]) + (if log[|log| - 1].event.DeliveryFailed? then 1 else 0)
  }

  function HandOvers(log: seq<Stamp>): nat {
    if log == [] then 0
    else HandOvers(log[..|log| - 1]) +
         (if log[|log| - 1].event.WasDelivered? || log[|log| - 1].event.WasTransferred? then 1 else 0)
  }

  /** The attempt count is the number of failures, and a message is handed over at most once. */
  lemma {:induction false} LegalLogCounts(cfg: Config, log: seq<Stamp>)
    requires Legal(cfg, log) && log != []
    ensures Replay(log).Phase? && Replay(log).attempts == Failures(log)
    ensures HandOvers(log) <= 1
    ensures Replay(log).state.Delivered? || Replay(log).state.CustodyTransferred? ==> HandOvers(log) == 1
    ensures Replay(log).state.Queued? || Replay(log).state.RetryWait? || Replay(log).state.InFlight? ==> HandOvers(log) == 0
  {
    if |log| > 1 {
      LegalLogCounts(cfg, log[..|log| - 1]);
    } else {
      assert log[..|log| - 1] == [];
    }
  }

  lemma {:induction false} LegalPrefix(cfg: Config, log: seq<Stamp>, n: nat)
    requires Legal(cfg, log) && n <= |log|
    ensures Legal(cfg, log[..n])
  {
    if n == |log| {
      assert log[..n] == log;
    } else {
      assert log[..|log| - 1][..n] == log[..n];
      LegalPrefix(cfg, log[..|log| - 1], n);
    }
  }

  /** Nothing is written after a terminal state is reached. */
  lemma TerminalLogIsClosed(cfg: Config, log: seq<Stamp>, n: nat)
    requires Legal(cfg, log) && 0 < n < |log|
    ensures Replay(log[..n]).Phase? && !Terminal(Replay(log[..n]).state)
  {
    LegalPrefix(cfg, log, n + 1);
    assert log[..n + 1][..n] == log[..n];
    LegalLogCounts(cfg, log[..n]);
  }

  /** Between a failure and the next event there is no earlier readiness: the phase remembers the last retry time. */
  lemma {:induction false} ReadyIsLastRetry(cfg: Config, log: seq<Stamp>, i: nat)
    requires Legal(cfg, log) && i < |log| && log[i].event.DeliveryFailed? && log[i].event.next.Some?
    requires forall k :: i < k < |log| ==> !log[k].event.DeliveryFailed?
    ensures Replay(log).Phase? && Replay(log).ready == log[i].event.next.value
  {
    var front := log[..|log| - 1];
    if i == |log| - 1 {
      LegalLogCounts(cfg, log);
    } else {
      ReadyIsLastRetry(cfg, front, i);
    }
  }

  lemma FailureEvent(cfg: Config, p: Phase, s: Stamp) returns (attempt: nat)
    requires EventIsLegal(cfg, p, s) && s.event.DeliveryFailed? && SensiblePolicy(cfg.policy)
    ensures attempt == s.event.attempt && attempt >= 1
    ensures s.event.next.Some? ==> s.event.next.value >= s.at + BandLow(cfg.policy, attempt)
    ensures s.event.next.None? ==> Terminal(Advance(p, s).state)
  {
    attempt := s.event.attempt;
    if s.event.next.Some? {
      var u: Draw :| s.event.next == Some(s.at + Delay(cfg.policy, s.event.attempt, u).value);
      hide SensiblePolicy, BandLow, BandHigh, Delay;
      DelayIsInItsBand(cfg.policy, attempt, u);
    }
  }

  /** In every legal log an attempt starts no earlier than the backoff of the failure before it allows. */
  lemma BackoffIsRespected(cfg: Config, log: seq<Stamp>, i: nat, j: nat)
    requires Legal(cfg, log) && SensiblePolicy(cfg.policy)
    requires i < j < |log| && log[i].event.DeliveryFailed? && log[j].event.AttemptStarted?
    requires forall k :: i < k < j ==> !log[k].event.DeliveryFailed?
    ensures log[i].event.attempt >= 1
    ensures log[j].at >= log[i].at + BandLow(cfg.policy, log[i].event.attempt)
  {
    hide Delay, BandLow, BandHigh, BaseDelay, SensiblePolicy;
    LegalPrefix(cfg, log, i + 1);
    LegalPrefix(cfg, log, j + 1);
    assert log[..i + 1][..i] == log[..i] && log[..j + 1][..j] == log[..j];
    assert EventIsLegal(cfg, Replay(log[..i]), log[i]);
    assert EventIsLegal(cfg, Replay(log[..j]), log[j]);
    var attempt := FailureEvent(cfg, Replay(log[..i]), log[i]);
    TerminalLogIsClosed(cfg, log, i + 1);
    hide Legal, EventIsLegal;
    LegalPrefix(cfg, log, j);
    ReadyIsLastRetry(cfg, log[..j], i);
  }
}
