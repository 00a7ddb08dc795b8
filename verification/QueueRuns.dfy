/**
 The store-and-forward queue as a table of messages, its operations, and what
 every run of operations keeps.
 */
module QueueRuns {
  import opened Wrappers
  import opened Sorting
  import opened Rounding
  import opened QueueMessage

  type Queue = map<string, Msg>

  datatype Op =
    | Enqueue(envelope: Envelope, destination: string, expiresAt: int, priority: Priority, nextHop: Option<string>, now: int)
    | Expire(now: int)
    | Claim(worker: string, limit: int, leaseSeconds: int, now: int, picked: seq<string>)
    | Fail(id: string, worker: string, error: string, now: int, retryable: bool, u: Draw)
    | Acknowledge(id: string, worker: string, receipt: string, now: int)
    | Transfer(id: string, worker: string, office: string, receipt: string, now: int)
    | Cancel(id: string, reason: string, now: int)

  // ------------------------------------------------------------ usage and admission

  function Live(s: Queue): set<string> {
    set id | id in s && !Terminal(s[id].row.state)
  }

  ghost function Bytes(s: Queue, ids: set<string>): nat
    requires ids <= s.Keys
  {
    if ids == {} then 0
    else
      var id :| id in ids;
      s[id].row.envelope.sizeBytes + Bytes(s, ids - {id})
  }

  lemma {:induction false} BytesWithout(s: Queue, ids: set<string>, id: string)
    requires ids <= s.Keys && id in ids
    ensures Bytes(s, ids) == s[id].row.envelope.sizeBytes + Bytes(s, ids - {id})
  {
    var x :| x in ids && Bytes(s, ids) == s[x].row.envelope.sizeBytes + Bytes(s, ids - {x});
    if x != id {
      BytesWithout(s, ids - {x}, id);
      BytesWithout(s, ids - {id}, x);
      assert ids - {x} - {id} == ids - {id} - {x};
    }
  }

  /** Sizes never change, so fewer live messages never take more bytes. */
  lemma {:induction false} FewerTakeLess(s: Queue, a: set<string>, t: Queue, b: set<string>)
    requires b <= a <= s.Keys && b <= t.Keys
    requires forall id :: id in b ==> s[id].row.envelope == t[id].row.envelope
    ensures Bytes(t, b) <= Bytes(s, a)
    decreases |b|
  {
    if b != {} {
      var id :| id in b;
      BytesWithout(s, a, id);
      BytesWithout(t, b, id);
      FewerTakeLess(s, a - {id}, t, b - {id});
    }
  }

  lemma SetGrowsByOne(a: set<string>, b: set<string>)
    requires b <= a
    ensures |b| <= |a|
  {
    assert a == b + (a - b);
  }

  ghost predicate WithinCapacity(cfg: Config, s: Queue) {
    |Live(s)| <= cfg.limits.maxMessages && Bytes(s, Live(s)) <= cfg.limits.maxBytes
  }

  ghost predicate HasRoom(cfg: Config, s: Queue, size: nat) {
    |Live(s)| < cfg.limits.maxMessages && Bytes(s, Live(s)) + size <= cfg.limits.maxBytes
  }

  datatype QueueError =
    | MessageIdRequired | InvalidPriority | ExpiryInThePast | MessageTooLarge | Collision | CapacityExceeded
    | UnknownMessage | NotOwner | InvalidClaim

  /** What `enqueue` answers: whether a row was added, or why the envelope was refused. */
  ghost function EnqueueOutcome(cfg: Config, s: Queue, env: Envelope, expiresAt: int, priority: Priority, now: int)
    : Result<bool, QueueError>
  {
    if env.messageId.None? || env.messageId.value == "" then Err(MessageIdRequired)
    else if !priority.Known() then Err(InvalidPriority)
    else if expiresAt <= now then Err(ExpiryInThePast)
    else if env.sizeBytes > cfg.limits.maxMessageBytes then Err(MessageTooLarge)
    else if env.messageId.value in s then
      if s[env.messageId.value].row.envelope != env then Err(Collision) else Ok(false)
    else if !HasRoom(cfg, s, env.sizeBytes) then Err(CapacityExceeded)
    else Ok(true)
  }

  // ------------------------------------------------------------ claiming

  function ExpireAll(s: Queue, now: int): Queue {
    map id | id in s :: ExpireMsg(s[id], now)
  }

  /** The table after expiry and after lapsed leases are reclaimed. */
  function Readied(s: Queue, now: int): Queue {
    map id | id in s :: ReclaimMsg(ExpireMsg(s[id], now), now)
  }

  function DueIds(s: Queue, now: int): set<string> {
    set id | id in s && Due(s[id].row, now)
  }

  /** Claiming order: priority, then the time a row falls due, then its age; message ids break ties. */
  predicate Before(s: Queue, a: string, b: string)
    requires a in s && b in s
  {
    var x, y := s[a].row, s[b].row;
    if x.priority.Weight() != y.priority.Weight() then x.priority.Weight() < y.priority.Weight()
    else if x.nextAttemptAt != y.nextAttemptAt then x.nextAttemptAt < y.nextAttemptAt
    else if x.createdAt != y.createdAt then x.createdAt < y.createdAt
    else StrLeq(a, b)
  }

  /** The first `limit` of the due rows in claiming order. */
  ghost predicate IsPick(s: Queue, due: set<string>, limit: int, picked: seq<string>)
    requires due <= s.Keys
  {
    && (forall id :: id in picked ==> id in due)
    && (forall i, j :: 0 <= i < j < |picked| ==> picked[i] != picked[j])
    && (forall i, j :: 0 <= i < j < |picked| && picked[i] in s && picked[j] in s ==> Before(s, picked[i], picked[j]))
    && |picked| == MinInt(limit, |due|)
    && (forall a, b :: a in picked && b in due && b !in picked && a in s ==> Before(s, a, b))
  }

  function Claimed(s: Queue, picked: seq<string>, worker: string, until: int, now: int): Queue {
    map id | id in s :: if id in picked then ClaimMsg(s[id], worker, until, now) else s[id]
  }

  ghost predicate Enabled(s: Queue, op: Op) {
    op.Claim? && op.limit >= 1 && op.leaseSeconds >= 1 ==>
      var r := Readied(s, op.now);
      IsPick(r, DueIds(r, op.now), op.limit, op.picked)
  }

  // ------------------------------------------------------------ one operation

  ghost function Apply(cfg: Config, s: Queue, op: Op): Queue {
    match op
    case Enqueue(env, destination, expiresAt, priority, nextHop, now) =>
      if EnqueueOutcome(cfg, s, env, expiresAt, priority, now) == Ok(true) then
        s[env.messageId.value := NewMessage(cfg, env, destination, expiresAt, priority, nextHop, now)]
      else s
    case Expire(now) => ExpireAll(s, now)
    case Claim(worker, limit, leaseSeconds, now, picked) =>
      if limit < 1 || leaseSeconds < 1 then s
      else Claimed(Readied(s, now), picked, worker, now + leaseSeconds, now)
    case Fail(id, worker, error, now, retryable, u) =>
      if id in s && Owns(s[id].row, worker) then s[id := FailMsg(cfg, s[id], error, now, retryable, u)] else s
    case Acknowledge(id, worker, receipt, now) =>
      if id in s && Owns(s[id].row, worker) then s[id := AckMsg(s[id], receipt, now)] else s
    case Transfer(id, worker, office, receipt, now) =>
      if id in s && Owns(s[id].row, worker) then s[id := TransferMsg(s[id], office, receipt, now)] else s
    case Cancel(id, reason, now) =>
      if id in s && Cancellable(s[id].row) then s[id := CancelMsg(s[id], reason, now)] else s
  }

  ghost function StateAfter(cfg: Config, ops: seq<Op>): Queue {
    if ops == [] then map[] else Apply(cfg, StateAfter(cfg, ops[..|ops| - 1]), ops[|ops| - 1])
  }

  /** A run from the empty queue in which every claim takes the rows the query returns. */
  ghost predicate IsRun(cfg: Config, ops: seq<Op>) {
    ops == [] ||
    (IsRun(cfg, ops[..|ops| - 1]) && Enabled(StateAfter(cfg, ops[..|ops| - 1]), ops[|ops| - 1]))
  }

  // ------------------------------------------------------------ the lifecycle invariant over runs

  ghost predicate QueueInvariant(cfg: Config, s: Queue) {
    forall id :: id in s ==> MsgInvariant(cfg, s[id]) && s[id].log != []
  }

  lemma ClaimStepKeeps(cfg: Config, m: Msg, worker: string, until: int, now: int)
    requires MsgInvariant(cfg, m) && m.log != []
    ensures var r := ReclaimMsg(ExpireMsg(m, now), now);
            && MsgInvariant(cfg, r) && r.log != []
            && (Due(r.row, now) ==> MsgInvariant(cfg, ClaimMsg(r, worker, until, now)))
  {
    ExpireKeepsInvariant(cfg, m, now);
    hide MsgInvariant;
    ReclaimKeepsInvariant(cfg, ExpireMsg(m, now), now);
    var r := ReclaimMsg(ExpireMsg(m, now), now);
    if Due(r.row, now) {
      ClaimKeepsInvariant(cfg, r, worker, until, now);
    }
  }

  lemma OwnedStepsKeep(cfg: Config, m: Msg, worker: string)
    requires MsgInvariant(cfg, m) && Owns(m.row, worker)
    ensures forall error, now, retryable, u: Draw :: MsgInvariant(cfg, FailMsg(cfg, m, error, now, retryable, u))
    ensures forall receipt, now :: MsgInvariant(cfg, AckMsg(m, receipt, now))
    ensures forall office, receipt, now :: MsgInvariant(cfg, TransferMsg(m, office, receipt, now))
  {
    forall error, now, retryable, u: Draw ensures MsgInvariant(cfg, FailMsg(cfg, m, error, now, retryable, u)) {
      FailKeepsInvariant(cfg, m, error, now, retryable, u);
    }
    forall receipt, now ensures MsgInvariant(cfg, AckMsg(m, receipt, now)) {
      AckKeepsInvariant(cfg, m, receipt, now);
    }
    forall office, receipt, now ensures MsgInvariant(cfg, TransferMsg(m, office, receipt, now)) {
      TransferKeepsInvariant(cfg, m, office, receipt, now);
    }
  }

  lemma RowStepKeepsInvariant(cfg: Config, s: Queue, op: Op)
    requires QueueInvariant(cfg, s) && !op.Enqueue? && !op.Expire? && !op.Claim?
    ensures QueueInvariant(cfg, Apply(cfg, s, op))
  {
    hide MsgInvariant, Legal;
    match op
    case Fail(id, worker, _, _, _, _) =>
      if id in s && Owns(s[id].row, worker) { OwnedStepsKeep(cfg, s[id], worker); }
    case Acknowledge(id, worker, _, _) =>
      if id in s && Owns(s[id].row, worker) { OwnedStepsKeep(cfg, s[id], worker); }
    case Transfer(id, worker, _, _, _) =>
      if id in s && Owns(s[id].row, worker) { OwnedStepsKeep(cfg, s[id], worker); }
    case Cancel(id, reason, now) =>
      if id in s && Cancellable(s[id].row) { CancelKeepsInvariant(cfg, s[id], reason, now); }
  }

  lemma ClaimStepKeepsInvariant(cfg: Config, s: Queue, op: Op)
    requires QueueInvariant(cfg, s) && op.Claim? && Enabled(s, op)
    ensures QueueInvariant(cfg, Apply(cfg, s, op))
  {
    hide MsgInvariant, Legal, Before;
    forall id | id in s
      ensures var r := ReclaimMsg(ExpireMsg(s[id], op.now), op.now);
              && MsgInvariant(cfg, r)
              && (Due(r.row, op.now) ==> MsgInvariant(cfg, ClaimMsg(r, op.worker, op.now + op.leaseSeconds, op.now)))
    {
      ClaimStepKeeps(cfg, s[id], op.worker, op.now + op.leaseSeconds, op.now);
    }
  }

  lemma ArrivalKeepsInvariant(cfg: Config, s: Queue, op: Op)
    requires QueueInvariant(cfg, s) && (op.Enqueue? || op.Expire?)
    ensures QueueInvariant(cfg, Apply(cfg, s, op))
  {
    hide MsgInvariant, Legal, EnqueueOutcome;
    match op
    case Enqueue(env, destination, expiresAt, priority, nextHop, now) =>
      NewKeepsInvariant(cfg, env, destination, expiresAt, priority, nextHop, now);
    case Expire(now) =>
      forall id | id in s ensures MsgInvariant(cfg, ExpireMsg(s[id], now)) {
        ExpireKeepsInvariant(cfg, s[id], now);
      }
  }

  lemma StepKeepsInvariant(cfg: Config, s: Queue, op: Op)
    requires QueueInvariant(cfg, s) && Enabled(s, op)
    ensures QueueInvariant(cfg, Apply(cfg, s, op))
  {
    hide QueueInvariant, Apply, Enabled;
    if op.Claim? {
      ClaimStepKeepsInvariant(cfg, s, op);
    } else if op.Enqueue? || op.Expire? {
      ArrivalKeepsInvariant(cfg, s, op);
    } else {
      RowStepKeepsInvariant(cfg, s, op);
    }
  }

  /** In every run, every row agrees with its log and every log follows the lifecycle. */
  lemma {:induction false} RunsFollowTheLifecycle(cfg: Config, ops: seq<Op>)
    requires IsRun(cfg, ops)
    ensures QueueInvariant(cfg, StateAfter(cfg, ops))
  {
    if ops != [] {
      RunsFollowTheLifecycle(cfg, ops[..|ops| - 1]);
      StepKeepsInvariant(cfg, StateAfter(cfg, ops[..|ops| - 1]), ops[|ops| - 1]);
    }
  }

  /** What the lifecycle gives for each message of each run. */
  lemma EveryMessageOfEveryRun(cfg: Config, ops: seq<Op>, id: string)
    requires IsRun(cfg, ops) && id in StateAfter(cfg, ops)
    ensures var m := StateAfter(cfg, ops)[id];
            && m.row.attempts == Failures(m.log)
            && HandOvers(m.log) <= 1
            && (m.row.state.InFlight? <==> m.row.leaseOwner.Some?)
            && (m.row.state.InFlight? <==> m.row.leaseUntil.Some?)
            && (cfg.policy.maxAttempts >= 1 && !Terminal(m.row.state) ==> m.row.attempts < cfg.policy.maxAttempts)
            && Replay(m.log).Phase?
            && (m.row.state == Replay(m.log).state || (m.row.state.RetryWait? && Replay(m.log).state.InFlight?))
  {
    RunsFollowTheLifecycle(cfg, ops);
    LegalLogCounts(cfg, StateAfter(cfg, ops)[id].log);
  }

  /** In every run, an attempt that follows a failure starts no earlier than that failure's backoff allows. */
  lemma EveryRunBacksOff(cfg: Config, ops: seq<Op>, id: string, i: nat, j: nat)
    requires IsRun(cfg, ops) && id in StateAfter(cfg, ops) && SensiblePolicy(cfg.policy)
    requires i < j < |StateAfter(cfg, ops)[id].log|
    ensures var log := StateAfter(cfg, ops)[id].log;
            log[i].event.DeliveryFailed? && log[j].event.AttemptStarted? &&
            (forall k :: i < k < j ==> !log[k].event.DeliveryFailed?) ==>
              && log[i].event.attempt >= 1
              && log[j].at >= log[i].at + BandLow(cfg.policy, log[i].event.attempt)
  {
    RunsFollowTheLifecycle(cfg, ops);
    var log := StateAfter(cfg, ops)[id].log;
    if log[i].event.DeliveryFailed? && log[j].event.AttemptStarted? &&
       (forall k :: i < k < j ==> !log[k].event.DeliveryFailed?)
    {
      BackoffIsRespected(cfg, log, i, j);
    }
  }

  // ------------------------------------------------------------ capacity

  /** Apart from `enqueue`, no operation adds a message, revives one or changes an envelope. */
  lemma OnlyEnqueueAdds(cfg: Config, s: Queue, op: Op)
    requires !op.Enqueue? && Enabled(s, op)
    ensures var t := Apply(cfg, s, op);
            && t.Keys == s.Keys && Live(t) <= Live(s)
            && (forall id :: id in s ==> t[id].row.envelope == s[id].row.envelope)
  {
    hide IsPick;
    if op.Claim? && op.limit >= 1 && op.leaseSeconds >= 1 {
      forall id | id in op.picked ensures id in Live(s) {
        PickedWereFree(s, op, id);
      }
    }
  }

  lemma StepKeepsCapacity(cfg: Config, s: Queue, op: Op)
    requires WithinCapacity(cfg, s) && Enabled(s, op)
    ensures WithinCapacity(cfg, Apply(cfg, s, op))
  {
    var t := Apply(cfg, s, op);
    if op.Enqueue? {
      if t != s {
        var id := op.envelope.messageId.value;
        assert Live(t) == Live(s) + {id};
        BytesWithout(t, Live(t), id);
        assert Live(t) - {id} == Live(s);
        hide Apply, Enabled, EnqueueOutcome;
        FewerTakeLess(s, Live(s), t, Live(s));
      }
    } else {
      OnlyEnqueueAdds(cfg, s, op);
      hide Apply, Enabled;
      SetGrowsByOne(Live(s), Live(t));
      FewerTakeLess(s, Live(s), t, Live(t));
    }
  }

  /** Every run stays within the configured number and volume of live messages. */
  lemma {:induction false} RunsStayWithinCapacity(cfg: Config, ops: seq<Op>)
    requires IsRun(cfg, ops) && cfg.limits.maxMessages >= 0 && cfg.limits.maxBytes >= 0
    ensures WithinCapacity(cfg, StateAfter(cfg, ops))
  {
    if ops == [] {
      assert Live(map[]) == {};
    } else {
      RunsStayWithinCapacity(cfg, ops[..|ops| - 1]);
      StepKeepsCapacity(cfg, StateAfter(cfg, ops[..|ops| - 1]), ops[|ops| - 1]);
    }
  }

  // ------------------------------------------------------------ absorbing states and growing logs

  lemma PickedWereFree(s: Queue, op: Op, id: string)
    requires op.Claim? && op.limit >= 1 && op.leaseSeconds >= 1 && Enabled(s, op) && id in op.picked
    ensures id in s
    ensures s[id].row.state.Queued? || s[id].row.state.RetryWait? || LeaseLapsed(s[id].row, op.now)
    ensures s[id].row.expiresAt > op.now && s[id].row.nextAttemptAt <= op.now
  {
    hide Before;
    var r := Readied(s, op.now);
    assert id in DueIds(r, op.now);
  }

  lemma StepLeavesTerminalAlone(cfg: Config, s: Queue, op: Op, id: string)
    requires Enabled(s, op) && id in s && Terminal(s[id].row.state)
    ensures id in Apply(cfg, s, op) && Apply(cfg, s, op)[id] == s[id]
  {
    hide EnqueueOutcome, IsPick;
    if op.Enqueue? {
      EnqueueNeverOverwrites(cfg, s, op);
    }
    if op.Claim? && op.limit >= 1 && op.leaseSeconds >= 1 && id in op.picked {
      PickedWereFree(s, op, id);
      assert false;
    }
  }

  lemma EnqueueNeverOverwrites(cfg: Config, s: Queue, op: Op)
    requires op.Enqueue?
    ensures Apply(cfg, s, op) == s || op.envelope.messageId.value !in s
  {}

  /** Delivered, expired, rejected and cancelled messages never change again, nor do their logs. */
  lemma {:induction false} TerminalIsForever(cfg: Config, ops: seq<Op>, more: seq<Op>, id: string)
    requires IsRun(cfg, ops + more)
    requires id in StateAfter(cfg, ops) && Terminal(StateAfter(cfg, ops)[id].row.state)
    ensures id in StateAfter(cfg, ops + more) && StateAfter(cfg, ops + more)[id] == StateAfter(cfg, ops)[id]
    decreases |more|
  {
    hide Apply, Enabled, Terminal;
    if more == [] {
      assert ops + more == ops;
    } else {
      var n := |more| - 1;
      assert (ops + more)[..|ops + more| - 1] == ops + more[..n];
      TerminalIsForever(cfg, ops, more[..n], id);
      StepLeavesTerminalAlone(cfg, StateAfter(cfg, ops + more[..n]), more[n], id);
    }
  }

  // ------------------------------------------------------------ leases

  function OpTime(op: Op): int {
    op.now
  }

  predicate ActsFor(op: Op, id: string, worker: string) {
    || ((op.Fail? || op.Acknowledge? || op.Transfer?) && op.id == id && op.worker == worker)
    || (op.Cancel? && op.id == id)
  }

  /** While a lease lasts and the message has not expired, only its owner, or a cancellation, can touch the message. */
  lemma LeaseExcludesOthers(cfg: Config, s: Queue, op: Op, id: string, worker: string)
    requires Enabled(s, op) && id in s && Owns(s[id].row, worker) && !ActsFor(op, id, worker)
    requires s[id].row.leaseUntil.Some? && OpTime(op) < s[id].row.leaseUntil.value && OpTime(op) < s[id].row.expiresAt
    ensures id in Apply(cfg, s, op) && Apply(cfg, s, op)[id] == s[id]
  {
    hide EnqueueOutcome, IsPick;
    if op.Enqueue? {
      EnqueueNeverOverwrites(cfg, s, op);
    }
    if op.Claim? && op.limit >= 1 && op.leaseSeconds >= 1 && id in op.picked {
      PickedWereFree(s, op, id);
      assert false;
    }
  }

  /** A claim hands out what it picked, under a fresh lease, and takes nothing else. */
  lemma ClaimLeasesExactlyThePicked(cfg: Config, s: Queue, op: Op, id: string)
    requires op.Claim? && op.limit >= 1 && op.leaseSeconds >= 1 && Enabled(s, op) && id in s
    ensures var t := Apply(cfg, s, op);
            && (id in op.picked ==>
                  && Owns(t[id].row, op.worker) && t[id].row.leaseUntil == Some(op.now + op.leaseSeconds)
                  && t[id].row.attempts == s[id].row.attempts && t[id].row.envelope == s[id].row.envelope
                  && t[id].log == s[id].log + [Stamp(op.now, AttemptStarted(op.worker))])
            && (id !in op.picked ==> t[id] == ReclaimMsg(ExpireMsg(s[id], op.now), op.now))
  {
    hide IsPick;
    if id in op.picked {
      PickedWereFree(s, op, id);
    }
  }

  // ------------------------------------------------------------ the pick is unique

  lemma BeforeIsAntisymmetric(s: Queue, a: string, b: string)
    requires a in s && b in s && Before(s, a, b) && Before(s, b, a)
    ensures a == b
  {
    StrLeqIsTotalOrder();
  }

  ghost predicate Increasing(s: Queue, p: seq<string>) {
    && (forall id :: id in p ==> id in s)
    && (forall i, j :: 0 <= i < j < |p| && p[i] in s && p[j] in s ==> p[i] != p[j] && Before(s, p[i], p[j]))
  }

  lemma {:induction false} SameElementsSameOrder(s: Queue, p: seq<string>, q: seq<string>)
    requires Increasing(s, p) && Increasing(s, q) && |p| == |q|
    requires forall id :: id in p <==> id in q
    ensures p == q
  {
    hide Before;
    if p != [] {
      assert p[0] in q && q[0] in p;
      if p[0] != q[0] {
        BeforeIsAntisymmetric(s, p[0], q[0]);
      }
      assert forall id :: id in p[1..] <==> id in p && id != p[0];
      assert forall id :: id in q[1..] <==> id in q && id != q[0];
      SameElementsSameOrder(s, p[1..], q[1..]);
    }
  }

  lemma {:induction false} DistinctSize(p: seq<string>)
    requires forall i, j :: 0 <= i < j < |p| ==> p[i] != p[j]
    ensures |set id | id in p| == |p|
  {
    if p != [] {
      DistinctSize(p[1..]);
      assert (set id | id in p) == {p[0]} + (set id | id in p[1..]);
    }
  }

  /** The order leaves no choice: two answers to the same query are equal. */
  lemma PickIsUnique(s: Queue, due: set<string>, limit: int, p: seq<string>, q: seq<string>)
    requires due <= s.Keys && IsPick(s, due, limit, p) && IsPick(s, due, limit, q)
    ensures p == q
  {
    hide Before;
    var ps, qs := set id | id in p, set id | id in q;
    DistinctSize(p);
    DistinctSize(q);
    if ps != qs {
      if ps <= qs { SubsetOfSameSize(ps, qs); }
      if qs <= ps { SubsetOfSameSize(qs, ps); }
      var a :| a in ps && a !in qs;
      var b :| b in qs && b !in ps;
      BeforeIsAntisymmetric(s, a, b);
    }
    assert forall id :: id in p <==> id in ps;
    assert forall id :: id in q <==> id in qs;
    SameElementsSameOrder(s, p, q);
  }

  lemma SubsetOfSameSize(a: set<string>, b: set<string>)
    requires a <= b && |a| == |b|
    ensures a == b
  {
    assert b == a + (b - a);
    assert |b - a| == 0;
  }
}
