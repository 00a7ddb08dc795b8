/**
 What the queue promises of each operation, written out over rows, events and
 the configuration. Nothing here refers to the tests and updates that the
 operations are made of, so these statements hold them to account.
 */
module QueueTerms {
  import opened Wrappers
  import opened Sorting
  import opened Rounding
  import opened QueueMessage
  import opened QueueRuns

  /** States in which a message still takes up room. */
  predicate Open(s: State) {
    s.Queued? || s.RetryWait? || s.InFlight? || s.CustodyTransferred?
  }

  predicate LeasedTo(r: Row, worker: string) {
    r.state.InFlight? && r.leaseOwner == Some(worker)
  }

  // ------------------------------------------------------------ the delay

  /** The centre of the first delay is the initial one, and of each next one a multiple, all below the maximum. */
  lemma CentresMultiply(p: RetryPolicy, attempt: nat)
    requires SensiblePolicy(p) && attempt >= 1 && p.multiplier >= 1.0
    ensures BaseDelay(p, 1) == MinReal(p.maximumSeconds as real, p.initialSeconds as real)
    ensures BaseDelay(p, attempt + 1) == MinReal(p.maximumSeconds as real, p.multiplier * BaseDelay(p, attempt))
  {
    var m, cap, e := p.multiplier, p.maximumSeconds as real, Exponential(p, attempt - 1);
    assert Power(m, 0) == 1.0;
    assert Exponential(p, attempt) == m * e by {
      var i, w := p.initialSeconds as real, Power(m, attempt - 1);
      assert i * (m * w) == m * (i * w);
    }
    ProductIsNonNegative(m - 1.0, cap);
    assert (m - 1.0) * cap == m * cap - cap;
    if e >= cap {
      ProductIsMonotone(m, cap, e);
    }
  }

  /** The point of the band that is drawn: its middle for a half, its ends for nothing and for one. */
  function DrawnPoint(p: RetryPolicy, attempt: nat, u: Draw): real
    requires attempt >= 1
  {
    BaseDelay(p, attempt) + (2.0 * u - 1.0) * Jitter(p, attempt)
  }

  lemma DrawnFromTheBand(centre: real, band: real, u: Draw)
    ensures Uniform(centre - band, centre + band, u) == centre + (2.0 * u - 1.0) * band
  {
    var width := centre + band - (centre - band);
    assert width == 2.0 * band;
    assert u * (2.0 * band) == 2.0 * u * band;
  }

  lemma NearestWholeSecond(x: real)
    ensures WholeSeconds(x) >= 1
    ensures WholeSeconds(x) as real <= (if x < 0.5 then 1.0 else x + 0.5)
    ensures WholeSeconds(x) as real >= x - 0.5
  {
    hide Round;
  }

  lemma DelayIsDrawn(p: RetryPolicy, attempt: nat, u: Draw)
    requires attempt >= 1
    ensures Delay(p, attempt, u) == Some(WholeSeconds(DrawnPoint(p, attempt, u)))
  {
    hide BaseDelay, Jitter, Uniform, WholeSeconds;
    var centre, band := BaseDelay(p, attempt), Jitter(p, attempt);
    DrawnFromTheBand(centre, band, u);
    assert DrawnPoint(p, attempt, u) == Uniform(centre - band, centre + band, u);
    hide DrawnPoint;
    assert Delay(p, attempt, u) == Some(WholeSeconds(Uniform(centre - band, centre + band, u)));
  }

  /** A delay is the drawn point of the band around the centre, to the nearest second, and at least a second. */
  lemma DelayIsTheDrawnPoint(p: RetryPolicy, attempt: int, u: Draw)
    ensures Delay(p, attempt, u).None? <==> attempt < 1
    ensures attempt >= 1 ==>
      var d, point := Delay(p, attempt, u).value, DrawnPoint(p, attempt, u);
      && d >= 1
      && d as real <= (if point < 0.5 then 1.0 else point + 0.5)
      && d as real >= point - 0.5
    ensures attempt >= 1 ==> Jitter(p, attempt) == p.jitterFraction * BaseDelay(p, attempt)
  {
    if attempt >= 1 {
      DelayIsDrawn(p, attempt, u);
      NearestWholeSecond(DrawnPoint(p, attempt, u));
      hide DrawnPoint, WholeSeconds, Delay, BaseDelay;
    }
  }

  // ------------------------------------------------------------ failures

  /** A failure ends the lease, and its time and its attempts decide how the message goes on. */
  ghost predicate FailedAs(cfg: Config, before: Msg, after: Msg, error: string, now: int, retryable: bool) {
    var r, attempts := after.row, before.row.attempts + 1;
    var again := retryable && attempts < cfg.policy.maxAttempts;
    && (r.state.Expired? <==> now >= before.row.expiresAt)
    && (r.state.RetryWait? <==> now < before.row.expiresAt && again)
    && (r.state.Rejected? <==> now < before.row.expiresAt && !again)
    && r.attempts == attempts
    && r.lastError == Some(if |error| <= 1000 then error else error[..1000])
    && r.leaseOwner.None? && r.leaseUntil.None? && r.updatedAt == now
    && (if r.state.RetryWait? then (exists u: Draw :: r.nextAttemptAt == now + Delay(cfg.policy, attempts, u).value)
        else r.nextAttemptAt == now)
    && r == before.row.(state := r.state, attempts := r.attempts, lastError := r.lastError, nextAttemptAt := r.nextAttemptAt,
                        leaseOwner := None, leaseUntil := None, updatedAt := now)
    && after.log == before.log + [Stamp(now, DeliveryFailed(attempts, r.lastError.value, retryable,
         if r.state.RetryWait? then Some(r.nextAttemptAt) else None,
         if r.state.RetryWait? then None else Some(r.state)))]
  }

  /** Only the worker that holds the lease can report a failure, and the report does exactly that much. */
  lemma FailureInFull(cfg: Config, s: Queue, op: Op)
    requires op.Fail?
    ensures var t := Apply(cfg, s, op);
            if op.id in s && LeasedTo(s[op.id].row, op.worker) then
              && t.Keys == s.Keys && (forall id :: id in s && id != op.id ==> t[id] == s[id])
              && FailedAs(cfg, s[op.id], t[op.id], op.error, op.now, op.retryable)
            else t == s
  {
    if op.id in s && LeasedTo(s[op.id].row, op.worker) {
      var before, after := s[op.id], Apply(cfg, s, op)[op.id];
      hide Delay;
      assert after.row.state.RetryWait? ==>
        after.row.nextAttemptAt == op.now + Delay(cfg.policy, before.row.attempts + 1, op.u).value;
    }
  }

  /** The three answers to a failure that its owner reports. */
  lemma FailureAnswers(cfg: Config, s: Queue, op: Op)
    requires op.Fail? && op.id in s && LeasedTo(s[op.id].row, op.worker)
    ensures var t := Apply(cfg, s, op);
            op.id in t &&
            (var state := t[op.id].row.state;
             && FailedAs(cfg, s[op.id], t[op.id], op.error, op.now, op.retryable)
             && (state.Expired? <==> op.now >= s[op.id].row.expiresAt)
             && (op.now < s[op.id].row.expiresAt ==>
                   (state.RetryWait? <==> op.retryable && s[op.id].row.attempts + 1 < cfg.policy.maxAttempts))
             && (op.now < s[op.id].row.expiresAt && !state.RetryWait? ==> state.Rejected?))
  {
    FailureInFull(cfg, s, op);
    hide Apply;
  }

  /** A recorded failure ended the message exactly when it came too late, was final, or was one too many. */
  predicate IsJust(cfg: Config, expiresAt: int, s: Stamp) {
    s.event.DeliveryFailed? ==>
      var e := s.event;
      && (e.terminal == Some(Expired) <==> s.at >= expiresAt)
      && (e.next.Some? <==> s.at < expiresAt && e.retryable && e.attempt < cfg.policy.maxAttempts)
      && (e.terminal == Some(Rejected) <==> s.at < expiresAt && !(e.retryable && e.attempt < cfg.policy.maxAttempts))
  }

  ghost predicate AllJust(cfg: Config, m: Msg) {
    forall i :: 0 <= i < |m.log| ==> IsJust(cfg, m.row.expiresAt, m.log[i])
  }

  lemma OneMoreIsJust(cfg: Config, m: Msg, n: Msg, s: Stamp)
    requires AllJust(cfg, m) && n.log == m.log + [s] && n.row.expiresAt == m.row.expiresAt && IsJust(cfg, m.row.expiresAt, s)
    ensures AllJust(cfg, n)
  {
    hide IsJust;
  }

  lemma FailureIsJust(cfg: Config, m: Msg, error: string, now: int, retryable: bool, u: Draw)
    requires AllJust(cfg, m)
    ensures AllJust(cfg, FailMsg(cfg, m, error, now, retryable, u))
  {
    hide AllJust, Delay;
    var n := FailMsg(cfg, m, error, now, retryable, u);
    OneMoreIsJust(cfg, m, n, n.log[|m.log|]);
  }

  lemma StepIsJust(cfg: Config, s: Queue, op: Op, id: string)
    requires id in s ==> AllJust(cfg, s[id])
    requires id in Apply(cfg, s, op)
    ensures AllJust(cfg, Apply(cfg, s, op)[id])
  {
    hide EnqueueOutcome, FailMsg;
    match op
    case Fail(i, worker, error, now, retryable, u) =>
      if id in s { FailureIsJust(cfg, s[id], error, now, retryable, u); }
    case _ =>
  }

  /** In every run, every failure on record was dealt with as its time, its kind and its number demand. */
  lemma {:induction false} EveryFailureIsJust(cfg: Config, ops: seq<Op>, id: string)
    requires id in StateAfter(cfg, ops)
    ensures forall i :: 0 <= i < |StateAfter(cfg, ops)[id].log| ==>
      IsJust(cfg, StateAfter(cfg, ops)[id].row.expiresAt, StateAfter(cfg, ops)[id].log[i])
  {
    if ops != [] {
      var before := StateAfter(cfg, ops[..|ops| - 1]);
      if id in before {
        EveryFailureIsJust(cfg, ops[..|ops| - 1], id);
      }
      hide IsJust;
      StepIsJust(cfg, before, ops[|ops| - 1], id);
    }
  }

  // ------------------------------------------------------------ admission

  /** The envelope can be looked up, its priority is one of the four, and it is in time and not too large. */
  predicate WellFormed(cfg: Config, env: Envelope, expiresAt: int, priority: Priority, now: int) {
    && env.messageId.Some? && env.messageId.value != ""
    && (priority.Emergency? || priority.Urgent? || priority.Normal? || priority.Bulk?)
    && now < expiresAt
    && env.sizeBytes <= cfg.limits.maxMessageBytes
  }

  ghost predicate Fits(cfg: Config, s: Queue, size: nat) {
    var open := set id | id in s && Open(s[id].row.state);
    |open| + 1 <= cfg.limits.maxMessages && Bytes(s, open) + size <= cfg.limits.maxBytes
  }

  /** An envelope is queued exactly when it is well formed, new, and fits beside the open messages. */
  lemma AdmissionInFull(cfg: Config, s: Queue, env: Envelope, expiresAt: int, priority: Priority, now: int)
    ensures var r := EnqueueOutcome(cfg, s, env, expiresAt, priority, now);
            var known := env.messageId.Some? && env.messageId.value in s;
            && (!WellFormed(cfg, env, expiresAt, priority, now) <==>
                  r.Err? && (r.error.MessageIdRequired? || r.error.InvalidPriority? || r.error.ExpiryInThePast? ||
                             r.error.MessageTooLarge?))
            && (WellFormed(cfg, env, expiresAt, priority, now) ==>
                  r == if known && s[env.messageId.value].row.envelope == env then Ok(false)
                       else if known then Err(Collision)
                       else if Fits(cfg, s, env.sizeBytes) then Ok(true)
                       else Err(CapacityExceeded))
  {
    assert (set id | id in s && Open(s[id].row.state)) == Live(s);
  }

  // ------------------------------------------------------------ claims

  /** A message can be claimed when it is due, in time, and not under a lease that still runs. */
  predicate Ready(r: Row, now: int) {
    && r.nextAttemptAt <= now < r.expiresAt
    && (r.state.Queued? || r.state.RetryWait? || (r.state.InFlight? && r.leaseUntil.Some? && r.leaseUntil.value <= now))
  }

  /** Emergency before urgent before normal before bulk. */
  predicate MoreUrgent(p: Priority, q: Priority) {
    match p
    case Emergency => !q.Emergency?
    case Urgent => q.Normal? || q.Bulk?
    case Normal => q.Bulk?
    case _ => false
  }

  /** More urgent, or as urgent and due earlier, or due at the same time and older; equals go by name. */
  predicate Earlier(a: string, x: Row, b: string, y: Row) {
    || MoreUrgent(x.priority, y.priority)
    || (x.priority == y.priority &&
        (|| x.nextAttemptAt < y.nextAttemptAt
         || (x.nextAttemptAt == y.nextAttemptAt &&
             (x.createdAt < y.createdAt || (x.createdAt == y.createdAt && StrLeq(a, b))))))
  }

  predicate ComesBefore(s: Queue, a: string, b: string) {
    a in s && b in s && Earlier(a, s[a].row, b, s[b].row)
  }

  ghost predicate KnownPriorities(s: Queue) {
    forall id :: id in s ==> s[id].row.priority.Known()
  }

  /** What a claim does to a message that it does not take: overdue messages expire and lapsed leases are given up. */
  predicate PassedOver(before: Msg, after: Msg, now: int) {
    if Open(before.row.state) && before.row.expiresAt <= now then
      && after.row == before.row.(state := Expired, leaseOwner := None, leaseUntil := None, updatedAt := now)
      && after.log == before.log + [Stamp(now, WasExpired)]
    else if before.row.state.InFlight? && before.row.leaseUntil.Some? && before.row.leaseUntil.value <= now then
      && after.row == before.row.(state := RetryWait, leaseOwner := None, leaseUntil := None, updatedAt := now)
      && after.log == before.log
    else after == before
  }

  predicate TakenBy(before: Msg, after: Msg, worker: string, until: int, now: int) {
    && after.row == before.row.(state := InFlight, leaseOwner := Some(worker), leaseUntil := Some(until), updatedAt := now)
    && after.log == before.log + [Stamp(now, AttemptStarted(worker))]
  }

  /** Expiry ends what is open and out of time, and leaves the rest alone. */
  predicate ExpiredIfOverdue(before: Msg, after: Msg, now: int) {
    if Open(before.row.state) && before.row.expiresAt <= now then
      && after.row == before.row.(state := Expired, leaseOwner := None, leaseUntil := None, updatedAt := now)
      && after.log == before.log + [Stamp(now, WasExpired)]
    else after == before
  }

  lemma ExpiryInFull(m: Msg, now: int)
    ensures ExpiredIfOverdue(m, ExpireMsg(m, now), now)
  {}

  lemma ReadyIsDue(m: Msg, now: int)
    ensures Due(ReclaimMsg(ExpireMsg(m, now), now).row, now) <==> Ready(m.row, now)
    ensures PassedOver(m, ReclaimMsg(ExpireMsg(m, now), now), now)
  {}

  lemma BeforeIsEarlier(s: Queue, t: Queue, a: string, b: string, now: int)
    requires a in s && b in s && t == Readied(s, now)
    requires s[a].row.priority.Known() && s[b].row.priority.Known()
    ensures a in t && b in t && (Before(t, a, b) <==> Earlier(a, s[a].row, b, s[b].row))
  {
    var x, y := s[a].row, s[b].row;
    assert t[a].row.priority == x.priority && t[a].row.nextAttemptAt == x.nextAttemptAt && t[a].row.createdAt == x.createdAt;
    assert t[b].row.priority == y.priority && t[b].row.nextAttemptAt == y.nextAttemptAt && t[b].row.createdAt == y.createdAt;
    hide Readied;
  }

  /** What one claim promises about one message of the table. */
  ghost predicate ClaimedAsPromised(s: Queue, t: Queue, picked: seq<string>, worker: string, limit: int, until: int, now: int,
                                    id: string)
    requires id in s && id in t
  {
    if id in picked then
      Ready(s[id].row, now) && TakenBy(s[id], t[id], worker, until, now)
    else
      && PassedOver(s[id], t[id], now)
      && (Ready(s[id].row, now) ==>
            |picked| == limit && forall a :: a in picked ==> ComesBefore(s, a, id))
  }

  /** A claim takes ready messages only, and leaves one behind only for as many earlier ones as it may take. */
  lemma ClaimInFull(cfg: Config, s: Queue, op: Op, id: string)
    requires op.Claim? && op.limit >= 1 && op.leaseSeconds >= 1 && Enabled(s, op)
    requires KnownPriorities(s) && id in s
    ensures var t := Apply(cfg, s, op);
            t.Keys == s.Keys &&
            ClaimedAsPromised(s, t, op.picked, op.worker, op.limit, op.now + op.leaseSeconds, op.now, id)
  {
    var r := Readied(s, op.now);
    ReadyIsDue(s[id], op.now);
    hide Before, Ready, PassedOver, Earlier, Due;
    assert id in DueIds(r, op.now) <==> Ready(s[id].row, op.now);
    forall a | a in op.picked ensures a in s && a in r {
      assert a in DueIds(r, op.now);
    }
    if id in op.picked {
      TakenFromReady(s[id], op.worker, op.now + op.leaseSeconds, op.now);
    } else if Ready(s[id].row, op.now) {
      LeftBehind(s, op, id);
    }
  }

  lemma TakenFromReady(m: Msg, worker: string, until: int, now: int)
    requires Ready(m.row, now)
    ensures TakenBy(m, ClaimMsg(ReclaimMsg(ExpireMsg(m, now), now), worker, until, now), worker, until, now)
  {}

  lemma LeftBehind(s: Queue, op: Op, id: string)
    requires op.Claim? && op.limit >= 1 && op.leaseSeconds >= 1 && Enabled(s, op)
    requires KnownPriorities(s) && id in s && id !in op.picked && Ready(s[id].row, op.now)
    ensures |op.picked| == op.limit
    ensures forall a :: a in op.picked ==> ComesBefore(s, a, id)
  {
    var r := Readied(s, op.now);
    var due := DueIds(r, op.now);
    ReadyIsDue(s[id], op.now);
    assert id in due;
    hide Before, Ready, Earlier, Due, Readied;
    SomeoneIsLeft(op.picked, due, id);
    forall a | a in op.picked ensures ComesBefore(s, a, id) {
      assert a in due && a in r.Keys && r.Keys == s.Keys by { KeysOfReadied(s, op.now); }
      assert Before(r, a, id);
      BeforeIsEarlier(s, r, a, id, op.now);
    }
  }

  lemma KeysOfReadied(s: Queue, now: int)
    ensures Readied(s, now).Keys == s.Keys
  {}

  /** A list of distinct members that leaves one out is shorter than the set. */
  lemma SomeoneIsLeft(picked: seq<string>, due: set<string>, id: string)
    requires forall a :: a in picked ==> a in due
    requires forall i, j :: 0 <= i < j < |picked| ==> picked[i] != picked[j]
    requires id in due && id !in picked
    ensures |picked| < |due|
  {
    var ps := set a | a in picked;
    DistinctSize(picked);
    assert ps <= due - {id};
    SetGrowsByOne(due - {id}, ps);
  }

  /** Claimed messages come in claiming order. */
  lemma PicksAreInOrder(cfg: Config, s: Queue, op: Op)
    requires op.Claim? && op.limit >= 1 && op.leaseSeconds >= 1 && Enabled(s, op) && KnownPriorities(s)
    ensures |op.picked| <= op.limit
    ensures forall i, j :: 0 <= i < j < |op.picked| ==> ComesBefore(s, op.picked[i], op.picked[j])
  {
    var r := Readied(s, op.now);
    KeysOfReadied(s, op.now);
    hide Before, Earlier, Due, Readied;
    forall i, j | 0 <= i < j < |op.picked| ensures ComesBefore(s, op.picked[i], op.picked[j]) {
      var a, b := op.picked[i], op.picked[j];
      assert a in DueIds(r, op.now) && b in DueIds(r, op.now) && a in r.Keys && b in r.Keys;
      BeforeIsEarlier(s, r, a, b, op.now);
    }
  }

  /** Every run keeps to the four known priorities. */
  lemma {:induction false} RunsKnowPriorities(cfg: Config, ops: seq<Op>)
    ensures KnownPriorities(StateAfter(cfg, ops))
  {
    if ops != [] {
      var before, op := StateAfter(cfg, ops[..|ops| - 1]), ops[|ops| - 1];
      RunsKnowPriorities(cfg, ops[..|ops| - 1]);
      hide StateAfter;
      StepKnowsPriorities(cfg, before, op);
    }
  }

  lemma AdmittedIsKnown(cfg: Config, s: Queue, env: Envelope, expiresAt: int, priority: Priority, now: int)
    ensures EnqueueOutcome(cfg, s, env, expiresAt, priority, now) == Ok(true) ==> priority.Known()
  {}

  lemma StepKnowsPriorities(cfg: Config, s: Queue, op: Op)
    requires KnownPriorities(s)
    ensures KnownPriorities(Apply(cfg, s, op))
  {
    if op.Enqueue? {
      AdmittedIsKnown(cfg, s, op.envelope, op.expiresAt, op.priority, op.now);
      hide EnqueueOutcome;
    } else {
      hide EnqueueOutcome, Delay, FailureState, Owns, Cancellable, ExpiryDue, LeaseLapsed, Clip;
      forall id | id in Apply(cfg, s, op)
        ensures id in s && Apply(cfg, s, op)[id].row.priority == s[id].row.priority
      {}
    }
  }

  // ------------------------------------------------------------ hand-overs and cancellation

  /** Only the worker that holds the lease can hand a message over, whichever way, and it is done with it then. */
  lemma HandOverInFull(cfg: Config, s: Queue, op: Op)
    requires op.Acknowledge? || op.Transfer?
    ensures var t := Apply(cfg, s, op);
            if op.id in s && LeasedTo(s[op.id].row, op.worker) then
              && t.Keys == s.Keys && (forall id :: id in s && id != op.id ==> t[id] == s[id])
              && t[op.id].row.leaseOwner.None? && t[op.id].row.leaseUntil.None?
              && t[op.id].row.receipt == Some(op.receipt)
              && (op.Acknowledge? ==> t[op.id].row.state.Delivered? && t[op.id].row.deliveredAt == Some(op.now))
              && (op.Transfer? ==> t[op.id].row.state.CustodyTransferred? && t[op.id].row.custodyOffice == Some(op.office))
            else t == s
  {}

  /** Whatever is neither finished nor in the custody of another office can be cancelled, leased or not. */
  lemma CancellationInFull(cfg: Config, s: Queue, op: Op)
    requires op.Cancel?
    ensures var t := Apply(cfg, s, op);
            if op.id in s && Open(s[op.id].row.state) && !s[op.id].row.state.CustodyTransferred? then
              && t.Keys == s.Keys && (forall id :: id in s && id != op.id ==> t[id] == s[id])
              && t[op.id].row.state.Cancelled? && t[op.id].row.leaseOwner.None? && t[op.id].row.leaseUntil.None?
              && t[op.id].log == s[op.id].log + [Stamp(op.now, WasCancelled(t[op.id].row.lastError.value))]
              && t[op.id].row.lastError == Some(if |op.reason| <= 1000 then op.reason else op.reason[..1000])
            else t == s
  {}
}
