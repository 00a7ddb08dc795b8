/**
 Turn ownership: a fenced handoff protocol over four tables that commit
 together, with idempotent replay and a rollback possible at every checkpoint.
 */
module TurnState {
  import opened Wrappers

  datatype Conv = Conv(task: string, conversation: string)

  datatype TurnRow = TurnRow(
    conv: Conv,
    owner: string,
    state: string,
    epoch: int,
    startedAt: int,
    lastActivityAt: int,
    handedOffAt: Option<int>,
    previousOwner: Option<string>,
    reason: Option<string>,
    evidence: Option<string>)

  /** A handoff request; two have the same fingerprint exactly when they are equal. */
  datatype Request = Request(
    agent: string,
    to: string,
    expectedEpoch: int,
    reason: Option<string>,
    evidence: Option<string>)

  datatype AuditRow = AuditRow(conv: Conv, from: string, to: string, epoch: int, key: string, executionId: string, at: int)

  datatype OutboxRow = OutboxRow(conv: Conv, payload: TurnRow, at: int)

  datatype IdemRow = IdemRow(request: Request, result: TurnRow)

  datatype Checkpoint = AfterBegin | AfterChecks | AfterStateUpdate | AfterAuditInsert | AfterOutboxInsert | BeforeCommit

  datatype TurnError = UnknownTurn | StaleEpoch | UnauthorizedOwner | IdempotencyConflict | Interrupted

  // ------------------------------------------------------------ one conversation

  /** Everything the four tables hold for one conversation. */
  datatype Turn = Turn(row: Option<TurnRow>, audit: seq<AuditRow>, outbox: seq<OutboxRow>, idem: map<string, IdemRow>)

  datatype Op =
    | Seed(conv: Conv, owner: string, state: string, now: int)
    | Handoff(conv: Conv, request: Request, key: string, now: int, executionId: string, fault: Option<Checkpoint>)

  function Seeded(t: Turn, c: Conv, owner: string, state: string, now: int): Turn {
    t.(row := Some(TurnRow(c, owner, state, 0, now, now, None, None, None, None)))
  }

  /** The row a successful handoff leaves. */
  function NextRow(row: TurnRow, q: Request, now: int): TurnRow {
    row.(previousOwner := Some(row.owner), owner := q.to, state := "HANDED_OFF", epoch := row.epoch + 1,
         lastActivityAt := now, handedOffAt := Some(now), reason := q.reason, evidence := q.evidence)
  }

  /** What a handoff answers. */
  function Outcome(t: Turn, op: Op): Result<TurnRow, TurnError>
    requires op.Handoff?
  {
    var q := op.request;
    if op.fault == Some(AfterBegin) then Err(Interrupted)
    else if t.row.None? then Err(UnknownTurn)
    else if op.key in t.idem then
      if t.idem[op.key].request == q then Ok(t.idem[op.key].result) else Err(IdempotencyConflict)
    else if t.row.value.owner != q.agent then Err(UnauthorizedOwner)
    else if t.row.value.epoch != q.expectedEpoch then Err(StaleEpoch)
    else if op.fault.Some? then Err(Interrupted)
    else Ok(NextRow(t.row.value, q, op.now))
  }

  /** A handoff that commits: it succeeds and is not a replay. */
  predicate Commits(t: Turn, op: Op)
    requires op.Handoff?
  {
    Outcome(t, op).Ok? && op.key !in t.idem
  }

  function Local(t: Turn, op: Op): Turn {
    match op
    case Seed(c, owner, state, now) => Seeded(t, c, owner, state, now)
    case Handoff(c, q, key, now, executionId, _) =>
      if !Commits(t, op) then t
      else
        var row := NextRow(t.row.value, q, now);
        Turn(
          Some(row),
          t.audit + [AuditRow(c, t.row.value.owner, q.to, row.epoch, key, executionId, now)],
          t.outbox + [OutboxRow(c, row, now)],
          t.idem[key := IdemRow(q, row)])
  }

  function LocalRun(t: Turn, ops: seq<Op>): Turn {
    if ops == [] then t else Local(LocalRun(t, ops[..|ops| - 1]), ops[|ops| - 1])
  }

  // ------------------------------------------------------------ the chain of owners since a seed

  /** The audit rows written since a seed number the epochs from one and pass ownership along without a gap. */
  ghost predicate OwnerChain(tail: seq<AuditRow>, start: string) {
    && (forall i :: 0 <= i < |tail| ==> tail[i].epoch == i + 1)
    && (forall i :: 0 <= i < |tail| ==> tail[i].from == HolderAt(tail, start, i))
  }

  /** Who owns the turn once the first `i` handoffs are done. */
  function HolderAt(tail: seq<AuditRow>, start: string, i: nat): string
    requires i <= |tail|
  {
    if i == 0 then start else tail[i - 1].to
  }

  /** The row is where the chain ends. */
  ghost predicate SinceSeed(t: Turn, base: nat, start: string) {
    && base <= |t.audit|
    && OwnerChain(t.audit[base..], start)
    && t.row.Some?
    && t.row.value.epoch == |t.audit| - base
    && t.row.value.owner == (if |t.audit| == base then start else t.audit[|t.audit| - 1].to)
    && t.row.value.previousOwner == (if |t.audit| == base then None else Some(t.audit[|t.audit| - 1].from))
  }

  lemma SeedStartsAChain(t: Turn, c: Conv, owner: string, state: string, now: int)
    ensures SinceSeed(Seeded(t, c, owner, state, now), |t.audit|, owner)
  {}

  lemma ChainExtends(tail: seq<AuditRow>, start: string, a: AuditRow)
    requires OwnerChain(tail, start) && a.epoch == |tail| + 1 && a.from == HolderAt(tail, start, |tail|)
    ensures OwnerChain(tail + [a], start)
  {
    var longer := tail + [a];
    forall i | 0 <= i < |longer|
      ensures longer[i].epoch == i + 1 && longer[i].from == HolderAt(longer, start, i)
    {
      assert HolderAt(longer, start, i) == HolderAt(tail, start, i);
      assert i < |tail| ==> longer[i] == tail[i];
    }
  }

  lemma HandoffExtendsTheChain(t: Turn, op: Op, base: nat, start: string)
    requires SinceSeed(t, base, start) && op.Handoff?
    ensures SinceSeed(Local(t, op), base, start)
  {
    hide OwnerChain;
    if Commits(t, op) {
      var u := Local(t, op);
      var a := u.audit[|t.audit|];
      assert u.audit[base..] == t.audit[base..] + [a];
      ChainExtends(t.audit[base..], start, a);
    }
  }

  /** Between two seeds, in every interleaving of handoffs and rollbacks, the audit is one unbroken chain of owners. */
  lemma {:induction false} RunsKeepTheChain(t: Turn, ops: seq<Op>, base: nat, start: string)
    requires SinceSeed(t, base, start) && forall op :: op in ops ==> op.Handoff?
    ensures SinceSeed(LocalRun(t, ops), base, start)
  {
    if ops != [] {
      assert ops[|ops| - 1] in ops && forall op :: op in ops[..|ops| - 1] ==> op in ops;
      RunsKeepTheChain(t, ops[..|ops| - 1], base, start);
      HandoffExtendsTheChain(LocalRun(t, ops[..|ops| - 1]), ops[|ops| - 1], base, start);
    }
  }

  /** At most one handoff commits for each epoch that callers can expect. */
  lemma OneCommitPerEpoch(t: Turn, base: nat, start: string, i: nat, j: nat)
    requires SinceSeed(t, base, start) && base <= i < |t.audit| && base <= j < |t.audit|
    ensures t.audit[i].epoch == t.audit[j].epoch ==> i == j
    ensures t.audit[i].epoch <= t.row.value.epoch
  {
    assert t.audit[base..][i - base] == t.audit[i] && t.audit[base..][j - base] == t.audit[j];
  }

  // ------------------------------------------------------------ the four tables agree

  /** Audit, outbox and idempotency rows are in one-to-one order, across seeds too. */
  ghost predicate TablesAgree(t: Turn) {
    && |t.outbox| == |t.audit|
    && (forall i :: 0 <= i < |t.audit| ==> RowsMatch(t, i))
    && (forall i, j :: 0 <= i < j < |t.audit| ==> t.audit[i].key != t.audit[j].key)
    && (forall k :: k in t.idem ==> exists i :: 0 <= i < |t.audit| && t.audit[i].key == k)
  }

  /** The i-th audit row, outbox row and idempotency row describe one and the same handoff. */
  ghost predicate RowsMatch(t: Turn, i: nat)
    requires i < |t.audit| && i < |t.outbox|
  {
    var a, o := t.audit[i], t.outbox[i];
    && a.key in t.idem
    && t.idem[a.key].result == o.payload
    && o.payload.owner == a.to && o.payload.previousOwner == Some(a.from) && o.payload.epoch == a.epoch
    && t.idem[a.key].request.agent == a.from && t.idem[a.key].request.to == a.to
    && t.idem[a.key].request.expectedEpoch == a.epoch - 1
    && a.at == o.at
  }

  lemma StepKeepsTablesAgreeing(t: Turn, op: Op)
    requires TablesAgree(t)
    ensures TablesAgree(Local(t, op))
  {
    if op.Seed? {
      forall i | 0 <= i < |t.audit| ensures RowsMatch(Local(t, op), i) {
        assert RowsMatch(t, i);
      }
    } else if Commits(t, op) {
      var u := Local(t, op);
      var n := |t.audit|;
      assert RowsMatch(u, n);
      forall i | 0 <= i < n ensures RowsMatch(u, i) && u.audit[i].key != op.key {
        assert RowsMatch(t, i);
      }
      assert forall i, j :: 0 <= i < j < |u.audit| ==> u.audit[i].key != u.audit[j].key by {
        assert u.audit[n].key == op.key;
        assert forall i :: 0 <= i < n ==> u.audit[i] == t.audit[i];
      }
      forall k | k in u.idem ensures exists i :: 0 <= i < |u.audit| && u.audit[i].key == k {
        if k == op.key {
          assert u.audit[n].key == k;
        } else {
          var i :| 0 <= i < n && t.audit[i].key == k;
          assert u.audit[i].key == k;
        }
      }
    }
  }

  lemma {:induction false} RunsKeepTablesAgreeing(t: Turn, ops: seq<Op>)
    requires TablesAgree(t)
    ensures TablesAgree(LocalRun(t, ops))
  {
    if ops != [] {
      RunsKeepTablesAgreeing(t, ops[..|ops| - 1]);
      StepKeepsTablesAgreeing(LocalRun(t, ops[..|ops| - 1]), ops[|ops| - 1]);
    }
  }

  // ------------------------------------------------------------ replay

  lemma {:induction false} IdempotencyRowsStay(t: Turn, ops: seq<Op>, key: string)
    requires key in t.idem && t.row.Some?
    ensures key in LocalRun(t, ops).idem && LocalRun(t, ops).idem[key] == t.idem[key]
    ensures LocalRun(t, ops).row.Some?
  {
    if ops != [] {
      IdempotencyRowsStay(t, ops[..|ops| - 1], key);
    }
  }

  /**
   A request that once committed can be sent again after any further run, even across a new seed:
   it gets its original result and changes nothing. Any other request under its key is refused.
   */
  lemma ReplaysReturnTheOriginal(t: Turn, op: Op, ops: seq<Op>, again: Op)
    requires op.Handoff? && Commits(t, op)
    requires again.Handoff? && again.key == op.key && again.fault != Some(AfterBegin)
    ensures var later := LocalRun(Local(t, op), ops);
            && Local(later, again) == later
            && Outcome(later, again) ==
                 if again.request == op.request then Outcome(t, op) else Err(IdempotencyConflict)
  {
    IdempotencyRowsStay(Local(t, op), ops, op.key);
  }

  // ------------------------------------------------------------ what runs leave behind

  /** The handoff is new, is not interrupted, and comes from the current owner at the current epoch. */
  predicate IsDue(t: Turn, op: Op)
    requires op.Handoff?
  {
    && t.row.Some? && op.key !in t.idem && op.fault.None?
    && t.row.value.owner == op.request.agent && t.row.value.epoch == op.request.expectedEpoch
  }

  /** The audit row of a handoff, from the request alone. */
  function AuditFor(op: Op): AuditRow
    requires op.Handoff?
  {
    AuditRow(op.conv, op.request.agent, op.request.to, op.request.expectedEpoch + 1, op.key, op.executionId, op.now)
  }

  /**
   A handoff changes something exactly when it is due, and then its answer is the new row, the message
   sent out and the result stored for replays; every refusal and every interruption leaves no trace.
   */
  lemma OnlyDueHandoffsLeaveATrace(t: Turn, op: Op)
    requires op.Handoff?
    ensures Local(t, op) != t <==> IsDue(t, op)
    ensures IsDue(t, op) ==>
              && Outcome(t, op).Ok?
              && var row := Outcome(t, op).value;
              && Local(t, op) == Turn(Some(row), t.audit + [AuditFor(op)], t.outbox + [OutboxRow(op.conv, row, op.now)],
                                      t.idem[op.key := IdemRow(op.request, row)])
              && row.owner == op.request.to && row.epoch == op.request.expectedEpoch + 1
              && row.previousOwner == Some(op.request.agent) && row.handedOffAt == Some(op.now)
              && row.state == "HANDED_OFF" && row.lastActivityAt == op.now
              && row.reason == op.request.reason && row.evidence == op.request.evidence
              && row.conv == t.row.value.conv && row.startedAt == t.row.value.startedAt
  {
    if IsDue(t, op) {
      assert |Local(t, op).audit| == |t.audit| + 1;
    }
  }

  /** The row after a handoff at some time: the receiver owns the turn, one epoch on, and the sender is remembered. */
  predicate IsHandedOver(before: TurnRow, q: Request, now: int, after: TurnRow) {
    && after.owner == q.to && after.previousOwner == Some(before.owner)
    && after.state == "HANDED_OFF" && after.epoch == before.epoch + 1
    && after.lastActivityAt == now && after.handedOffAt == Some(now)
    && after.reason == q.reason && after.evidence == q.evidence
    && after.conv == before.conv && after.startedAt == before.startedAt
  }

  /**
   What a handoff is answered, given the turn and what is stored under its key. A fault before the checks
   comes first; then an unknown turn; then a used key; then the owner; then the epoch; then any other fault.
   */
  predicate IsAnswer(row: Option<TurnRow>, stored: Option<IdemRow>, q: Request, now: int, fault: Option<Checkpoint>,
                     r: Result<TurnRow, TurnError>)
  {
    var starts := fault != Some(AfterBegin);
    var isNew := starts && row.Some? && stored.None?;
    var owned := isNew && row.value.owner == q.agent;
    var isCurrent := owned && row.value.epoch == q.expectedEpoch;
    && (r == Err(UnknownTurn) <==> starts && row.None?)
    && (r == Err(IdempotencyConflict) <==> starts && row.Some? && stored.Some? && stored.value.request != q)
    && (r == Err(UnauthorizedOwner) <==> isNew && row.value.owner != q.agent)
    && (r == Err(StaleEpoch) <==> owned && row.value.epoch != q.expectedEpoch)
    && (r == Err(Interrupted) <==> !starts || (isCurrent && fault.Some?))
    && (r.Ok? && stored.Some? ==> stored.value.request == q && r.value == stored.value.result)
    && (r.Ok? && stored.None? ==> isCurrent && fault.None? && IsHandedOver(row.value, q, now, r.value))
  }

  function Stored(t: Turn, key: string): Option<IdemRow> {
    if key in t.idem then Some(t.idem[key]) else None
  }

  /** Each answer is given exactly when it is called for. */
  lemma AnswersInFull(t: Turn, op: Op)
    requires op.Handoff?
    ensures IsAnswer(t.row, Stored(t, op.key), op.request, op.now, op.fault, Outcome(t, op))
  {}

  /** The handoffs of a run that took effect, in order. */
  function Effective(t: Turn, ops: seq<Op>): (hs: seq<Op>)
    ensures forall h :: h in hs ==> h.Handoff?
  {
    if ops == [] then []
    else
      var n := |ops| - 1;
      Effective(t, ops[..n]) + (if ops[n].Handoff? && IsDue(LocalRun(t, ops[..n]), ops[n]) then [ops[n]] else [])
  }

  /** The row reached from `start` by the handoffs. */
  ghost predicate Reached(start: TurnRow, hs: seq<Op>, row: TurnRow)
    requires forall h :: h in hs ==> h.Handoff?
  {
    && row.epoch == start.epoch + |hs|
    && (hs == [] ==> row == start)
    && (hs != [] ==>
          var last := hs[|hs| - 1];
          && row.owner == last.request.to && row.previousOwner == Some(last.request.agent)
          && row.handedOffAt == Some(last.now) && row.reason == last.request.reason && row.evidence == last.request.evidence
          && row.state == "HANDED_OFF" && row.lastActivityAt == last.now)
    && row.startedAt == start.startedAt && row.conv == start.conv
    && (forall i :: 0 <= i < |hs| ==>
          && hs[i].request.expectedEpoch == start.epoch + i
          && hs[i].request.agent == ReceiverOf(hs, start, i))
  }

  function ReceiverOf(hs: seq<Op>, start: TurnRow, i: nat): string
    requires (forall h :: h in hs ==> h.Handoff?) && i <= |hs|
  {
    if i == 0 then start.owner else hs[i - 1].request.to
  }

  lemma ReachedFurther(start: TurnRow, hs: seq<Op>, row: TurnRow, h: Op, next: TurnRow)
    requires (forall x :: x in hs ==> x.Handoff?) && Reached(start, hs, row)
    requires h.Handoff? && h.request.agent == row.owner && h.request.expectedEpoch == row.epoch
    requires next == NextRow(row, h.request, h.now)
    ensures Reached(start, hs + [h], next)
  {
    var longer := hs + [h];
    forall i | 0 <= i < |longer|
      ensures longer[i].request.expectedEpoch == start.epoch + i && longer[i].request.agent == ReceiverOf(longer, start, i)
    {
      assert ReceiverOf(longer, start, i) == ReceiverOf(hs, start, i);
      assert i < |hs| ==> longer[i] == hs[i];
    }
  }

  function AuditFors(hs: seq<Op>): (rows: seq<AuditRow>)
    requires forall h :: h in hs ==> h.Handoff?
    ensures |rows| == |hs| && forall i :: 0 <= i < |hs| ==> rows[i] == AuditFor(hs[i])
  {
    if hs == [] then [] else AuditFors(hs[..|hs| - 1]) + [AuditFor(hs[|hs| - 1])]
  }

  lemma OneMoreAudit(hs: seq<Op>, h: Op)
    requires (forall x :: x in hs ==> x.Handoff?) && h.Handoff?
    ensures AuditFors(hs + [h]) == AuditFors(hs) + [AuditFor(h)]
  {
    assert (hs + [h])[..|hs|] == hs;
  }

  /** The handoffs `hs` lead from `t` to `u`, and the audit has grown by exactly their rows. */
  ghost predicate Recorded(t: Turn, hs: seq<Op>, u: Turn)
    requires t.row.Some? && forall h :: h in hs ==> h.Handoff?
  {
    u.row.Some? && Reached(t.row.value, hs, u.row.value) && u.audit == t.audit + AuditFors(hs)
  }

  lemma StepIsRecorded(t: Turn, hs: seq<Op>, u: Turn, op: Op)
    requires t.row.Some? && (forall h :: h in hs ==> h.Handoff?) && Recorded(t, hs, u) && op.Handoff?
    ensures Recorded(t, hs + (if IsDue(u, op) then [op] else []), Local(u, op))
  {
    hide Local, AuditFors, AuditFor, Reached;
    if IsDue(u, op) {
      DueHandoffTakesEffect(u, op);
      hide IsDue;
      ReachedFurther(t.row.value, hs, u.row.value, op, Local(u, op).row.value);
      OneMoreAudit(hs, op);
    } else {
      OnlyDueHandoffsLeaveATrace(u, op);
      assert hs + [] == hs;
    }
  }

  /**
   Between seeds, the row is where the handoffs that took effect lead, each by the receiver of the one
   before it, and the audit has grown by exactly their rows.
   */
  lemma {:induction false} RunsRecordTheirHandoffs(t: Turn, ops: seq<Op>)
    requires t.row.Some? && forall op :: op in ops ==> op.Handoff?
    ensures Recorded(t, Effective(t, ops), LocalRun(t, ops))
  {
    hide Local, IsDue;
    if ops != [] {
      hide Recorded;
      var n := |ops| - 1;
      assert ops[n] in ops && forall op :: op in ops[..n] ==> op in ops;
      RunsRecordTheirHandoffs(t, ops[..n]);
      StepIsRecorded(t, Effective(t, ops[..n]), LocalRun(t, ops[..n]), ops[n]);
    }
  }

  lemma DueHandoffTakesEffect(t: Turn, op: Op)
    requires op.Handoff? && IsDue(t, op)
    ensures op.request.agent == t.row.value.owner && op.request.expectedEpoch == t.row.value.epoch
    ensures Local(t, op).row == Some(NextRow(t.row.value, op.request, op.now))
    ensures Local(t, op).audit == t.audit + [AuditFor(op)]
  {}

  // ------------------------------------------------------------ all conversations

  datatype Tables = Tables(
    turns: map<Conv, TurnRow>,
    audit: seq<AuditRow>,
    outbox: seq<OutboxRow>,
    idem: map<(Conv, string), IdemRow>)

  function AuditOf(audit: seq<AuditRow>, c: Conv): seq<AuditRow> {
    if audit == [] then []
    else
      var last := audit[|audit| - 1];
      AuditOf(audit[..|audit| - 1], c) + (if last.conv == c then [last] else [])
  }

  function OutboxOf(outbox: seq<OutboxRow>, c: Conv): seq<OutboxRow> {
    if outbox == [] then []
    else
      var last := outbox[|outbox| - 1];
      OutboxOf(outbox[..|outbox| - 1], c) + (if last.conv == c then [last] else [])
  }

  ghost function IdemOf(idem: map<(Conv, string), IdemRow>, c: Conv): (r: map<string, IdemRow>)
    ensures forall k :: k in r <==> (c, k) in idem
    ensures forall k :: k in r ==> r[k] == idem[(c, k)]
  {
    var keys := set p | p in idem && p.0 == c :: p.1;
    assert forall k :: k in keys ==> (c, k) in idem;
    assert forall k :: (c, k) in idem ==> (c, k).0 == c && (c, k).1 == k;
    map k | k in keys :: idem[(c, k)]
  }

  ghost function TurnOf(s: Tables, c: Conv): Turn {
    Turn(
      if c in s.turns then Some(s.turns[c]) else None,
      AuditOf(s.audit, c),
      OutboxOf(s.outbox, c),
      IdemOf(s.idem, c))
  }

  /** The four tables after a committed handoff. */
  function Committed(s: Tables, c: Conv, q: Request, key: string, now: int, executionId: string): Tables
    requires c in s.turns
  {
    var row := NextRow(s.turns[c], q, now);
    Tables(
      s.turns[c := row],
      s.audit + [AuditRow(c, s.turns[c].owner, q.to, row.epoch, key, executionId, now)],
      s.outbox + [OutboxRow(c, row, now)],
      s.idem[(c, key) := IdemRow(q, row)])
  }

  /** The tables after an operation on one conversation. */
  ghost function Stepped(s: Tables, op: Op): Tables {
    match op
    case Seed(c, owner, state, now) =>
      s.(turns := s.turns[c := TurnRow(c, owner, state, 0, now, now, None, None, None, None)])
    case Handoff(c, q, key, now, executionId, _) =>
      if Commits(TurnOf(s, c), op) then Committed(s, c, q, key, now, executionId) else s
  }

  ghost function Run(s: Tables, ops: seq<Op>): Tables {
    if ops == [] then s else Stepped(Run(s, ops[..|ops| - 1]), ops[|ops| - 1])
  }

  function OpsOf(ops: seq<Op>, c: Conv): seq<Op> {
    if ops == [] then []
    else OpsOf(ops[..|ops| - 1], c) + (if ops[|ops| - 1].conv == c then [ops[|ops| - 1]] else [])
  }

  lemma AppendedRows(s: Tables, a: AuditRow, o: OutboxRow, c: Conv)
    ensures AuditOf(s.audit + [a], c) == AuditOf(s.audit, c) + (if a.conv == c then [a] else [])
    ensures OutboxOf(s.outbox + [o], c) == OutboxOf(s.outbox, c) + (if o.conv == c then [o] else [])
  {
    assert (s.audit + [a])[..|s.audit|] == s.audit;
    assert (s.outbox + [o])[..|s.outbox|] == s.outbox;
  }

  lemma AddedIdem(idem: map<(Conv, string), IdemRow>, c: Conv, key: string, row: IdemRow, d: Conv)
    ensures IdemOf(idem[(c, key) := row], d) == if d == c then IdemOf(idem, c)[key := row] else IdemOf(idem, d)
  {
    var after, expected := IdemOf(idem[(c, key) := row], d), if d == c then IdemOf(idem, c)[key := row] else IdemOf(idem, d);
    assert forall k :: k in after <==> k in expected;
    assert forall k :: k in after ==> after[k] == expected[k];
  }

  /** An operation acts on its own conversation only. */
  lemma StepsAreLocal(s: Tables, op: Op, c: Conv)
    ensures TurnOf(Stepped(s, op), c) == if op.conv == c then Local(TurnOf(s, c), op) else TurnOf(s, c)
  {
    if op.Handoff? && Commits(TurnOf(s, op.conv), op) {
      var t, row := Stepped(s, op), NextRow(s.turns[op.conv], op.request, op.now);
      var a := AuditRow(op.conv, s.turns[op.conv].owner, op.request.to, row.epoch, op.key, op.executionId, op.now);
      AppendedRows(s, a, OutboxRow(op.conv, row, op.now), c);
      AddedIdem(s.idem, op.conv, op.key, IdemRow(op.request, row), c);
      hide AuditOf, OutboxOf, IdemOf;
    }
  }

  lemma LocalRunOneMore(t: Turn, ops: seq<Op>, op: Op)
    ensures LocalRun(t, ops + [op]) == Local(LocalRun(t, ops), op)
  {
    assert (ops + [op])[..|ops|] == ops;
  }

  /** Interleaving operations of other conversations changes nothing: each conversation sees only its own. */
  lemma {:induction false} ConversationsDoNotInterfere(s: Tables, ops: seq<Op>, c: Conv)
    ensures TurnOf(Run(s, ops), c) == LocalRun(TurnOf(s, c), OpsOf(ops, c))
  {
    if ops != [] {
      hide Local, TurnOf, Stepped, LocalRun;
      var n := |ops| - 1;
      ConversationsDoNotInterfere(s, ops[..n], c);
      StepsAreLocal(Run(s, ops[..n]), ops[n], c);
      var own := OpsOf(ops[..n], c);
      if ops[n].conv == c {
        assert OpsOf(ops, c) == own + [ops[n]];
        LocalRunOneMore(TurnOf(s, c), own, ops[n]);
      } else {
        assert OpsOf(ops, c) == own;
      }
    }
  }

  lemma {:induction false} RunConcat(s: Tables, a: seq<Op>, b: seq<Op>)
    ensures Run(s, a + b) == Run(Run(s, a), b)
  {
    if b == [] {
      assert a + b == a;
    } else {
      assert (a + b)[..|a + b| - 1] == a + b[..|b| - 1];
      RunConcat(s, a, b[..|b| - 1]);
    }
  }

  lemma {:induction false} OpsOfAreItsOwn(ops: seq<Op>, c: Conv)
    ensures forall op :: op in OpsOf(ops, c) ==> op in ops && op.conv == c
  {
    if ops != [] {
      OpsOfAreItsOwn(ops[..|ops| - 1], c);
    }
  }

  const NO_ROWS := Tables(map[], [], [], map[])

  /**
   Over all interleavings, faults and reseedings of all conversations: each conversation's tables agree
   row by row, and since its last seed its audit is one unbroken chain of owners from the seeded one.
   */
  lemma OwnershipOverAllRuns(before: seq<Op>, seed: Op, after: seq<Op>)
    requires seed.Seed? && forall op :: op in after && op.conv == seed.conv ==> op.Handoff?
    ensures var base := |TurnOf(Run(NO_ROWS, before), seed.conv).audit|;
            var t := TurnOf(Run(NO_ROWS, before + [seed] + after), seed.conv);
            TablesAgree(t) && SinceSeed(t, base, seed.owner)
  {
    var c := seed.conv;
    var s := Run(NO_ROWS, before);
    var t := TurnOf(s, c);
    assert TablesAgree(TurnOf(NO_ROWS, c));
    hide Local, TurnOf, Stepped, SinceSeed, TablesAgree;
    ConversationsDoNotInterfere(NO_ROWS, before, c);
    RunsKeepTablesAgreeing(TurnOf(NO_ROWS, c), OpsOf(before, c));
    RunConcat(NO_ROWS, before, [seed]);
    RunConcat(NO_ROWS, before + [seed], after);
    assert [seed][..0] == [] && Run(s, [seed]) == Stepped(s, seed);
    StepsAreLocal(s, seed, c);
    StepKeepsTablesAgreeing(t, seed);
    assert Local(t, seed) == Seeded(t, c, seed.owner, seed.state, seed.now) by { SeedingIsLocal(t, seed); }
    SeedStartsAChain(t, c, seed.owner, seed.state, seed.now);
    ConversationsDoNotInterfere(Stepped(s, seed), after, c);
    OpsOfAreItsOwn(after, c);
    RunsKeepTablesAgreeing(Local(t, seed), OpsOf(after, c));
    RunsKeepTheChain(Local(t, seed), OpsOf(after, c), |t.audit|, seed.owner);
  }

  lemma SeedingIsLocal(t: Turn, seed: Op)
    requires seed.Seed?
    ensures Local(t, seed) == Seeded(t, seed.conv, seed.owner, seed.state, seed.now)
  {}

  /**
   What a status lookup of a conversation finds after any run of all conversations that does not seed this
   one again: the row its effective handoffs lead to. It still has an entry, and nobody else changed it.
   */
  lemma StatusFollowsTheHandoffs(s: Tables, ops: seq<Op>, c: Conv)
    requires c in s.turns && forall op :: op in ops && op.conv == c ==> op.Handoff?
    ensures var hs, s' := Effective(TurnOf(s, c), OpsOf(ops, c)), Run(s, ops);
            c in s'.turns && Reached(s.turns[c], hs, s'.turns[c])
  {
    ConversationsDoNotInterfere(s, ops, c);
    OpsOfAreItsOwn(ops, c);
    RunsRecordTheirHandoffs(TurnOf(s, c), OpsOf(ops, c));
  }

  function Kept<K, V>(m: map<K, V>, k: K): Option<V> {
    if k in m then Some(m[k]) else None
  }

  /** A handoff reads its own turn and key, and writes all four tables or none. */
  lemma HandoffInFull(s: Tables, op: Op)
    requires op.Handoff?
    ensures var c, r := op.conv, Outcome(TurnOf(s, op.conv), op);
            && IsAnswer(Kept(s.turns, c), Kept(s.idem, (c, op.key)), op.request, op.now, op.fault, r)
            && (r.Err? || (c, op.key) in s.idem ==> Stepped(s, op) == s)
            && (r.Ok? && (c, op.key) !in s.idem ==>
                  Stepped(s, op) == Tables(
                    s.turns[c := r.value],
                    s.audit + [AuditRow(c, op.request.agent, op.request.to, op.request.expectedEpoch + 1, op.key,
                                        op.executionId, op.now)],
                    s.outbox + [OutboxRow(c, r.value, op.now)],
                    s.idem[(c, op.key) := IdemRow(op.request, r.value)]))
  {
    AnswersInFull(TurnOf(s, op.conv), op);
    hide AuditOf, OutboxOf, IsAnswer;
  }

  // ------------------------------------------------------------ the store object

  class TurnStateStore {
    var turns: map<Conv, TurnRow>
    var audit: seq<AuditRow>
    var outbox: seq<OutboxRow>
    var idem: map<(Conv, string), IdemRow>

    ghost function View(): Tables
      reads this
    {
      Tables(turns, audit, outbox, idem)
    }

    constructor ()
      ensures View() == Tables(map[], [], [], map[])
    {
      turns, audit, outbox, idem := map[], [], [], map[];
    }

    method SeedTurn(c: Conv, owner: string, state: string, now: int) returns (row: TurnRow)
      modifies this
      ensures View() == Stepped(old(View()), Seed(c, owner, state, now))
      ensures c in turns && row == turns[c] && turns.Keys == old(turns).Keys + {c}
      ensures forall d :: d in old(turns) && d != c ==> turns[d] == old(turns)[d]
      ensures row.conv == c && row.owner == owner && row.state == state && row.epoch == 0
      ensures row.startedAt == now && row.lastActivityAt == now
      ensures row.handedOffAt.None? && row.previousOwner.None? && row.reason.None? && row.evidence.None?
      ensures audit == old(audit) && outbox == old(outbox) && idem == old(idem)
    {
      turns := turns[c := TurnRow(c, owner, state, 0, now, now, None, None, None, None)];
      row := turns[c];
    }

    method Status(c: Conv) returns (r: Result<TurnRow, TurnError>)
      ensures r == if c in turns then Ok(turns[c]) else Err(UnknownTurn)
    {
      r := if c in turns then Ok(turns[c]) else Err(UnknownTurn);
    }

    /** Puts the tables back to where the transaction began. */
    method Rollback(t: map<Conv, TurnRow>, a: seq<AuditRow>, o: seq<OutboxRow>, i: map<(Conv, string), IdemRow>)
      modifies this
      ensures View() == Tables(t, a, o, i)
    {
      turns, audit, outbox, idem := t, a, o, i;
    }

    /** One transaction; `fault` makes the named checkpoint raise. */
    method HandOff(c: Conv, q: Request, key: string, now: int, executionId: string, fault: Option<Checkpoint>)
        returns (r: Result<TurnRow, TurnError>)
      modifies this
      ensures View() == Stepped(old(View()), Handoff(c, q, key, now, executionId, fault))
      ensures r == Outcome(TurnOf(old(View()), c), Handoff(c, q, key, now, executionId, fault))
      ensures IsAnswer(Kept(old(turns), c), Kept(old(idem), (c, key)), q, now, fault, r)
      ensures r.Err? || (c, key) in old(idem) ==> View() == old(View())
      ensures r.Ok? && (c, key) !in old(idem) ==>
        && turns == old(turns)[c := r.value]
        && audit == old(audit) + [AuditRow(c, q.agent, q.to, q.expectedEpoch + 1, key, executionId, now)]
        && outbox == old(outbox) + [OutboxRow(c, r.value, now)]
        && idem == old(idem)[(c, key) := IdemRow(q, r.value)]
    {
      HandoffInFull(View(), Handoff(c, q, key, now, executionId, fault));
      hide AuditOf, OutboxOf, Committed, IsAnswer, Kept;
      if fault == Some(AfterBegin) {
        return Err(Interrupted);
      }
      if c !in turns {
        return Err(UnknownTurn);
      }
      var current := turns[c];
      if (c, key) in idem {
        if idem[(c, key)].request == q {
          return Ok(idem[(c, key)].result);
        }
        return Err(IdempotencyConflict);
      }
      if current.owner != q.agent {
        return Err(UnauthorizedOwner);
      }
      if current.epoch != q.expectedEpoch {
        return Err(StaleEpoch);
      }
      if fault == Some(AfterChecks) {
        return Err(Interrupted);
      }
      r := WriteTables(c, q, key, now, executionId, fault);
    }

    /** The writing part of the transaction: all four tables change, or none does. */
    method WriteTables(c: Conv, q: Request, key: string, now: int, executionId: string, fault: Option<Checkpoint>)
        returns (r: Result<TurnRow, TurnError>)
      requires c in turns && fault != Some(AfterBegin) && fault != Some(AfterChecks)
      modifies this
      ensures View() == if fault.None? then Committed(old(View()), c, q, key, now, executionId) else old(View())
      ensures r == if fault.None? then Ok(NextRow(old(turns)[c], q, now)) else Err(Interrupted)
    {
      var t0, a0, o0, i0 := turns, audit, outbox, idem;
      var current := turns[c];
      turns := turns[c := current.(
        previousOwner := Some(current.owner), owner := q.to, state := "HANDED_OFF", epoch := current.epoch + 1,
        lastActivityAt := now, handedOffAt := Some(now), reason := q.reason, evidence := q.evidence)];
      if fault == Some(AfterStateUpdate) {
        Rollback(t0, a0, o0, i0);
        return Err(Interrupted);
      }
      audit := audit + [AuditRow(c, current.owner, q.to, current.epoch + 1, key, executionId, now)];
      if fault == Some(AfterAuditInsert) {
        Rollback(t0, a0, o0, i0);
        return Err(Interrupted);
      }
      var result := turns[c];
      outbox := outbox + [OutboxRow(c, result, now)];
      if fault == Some(AfterOutboxInsert) {
        Rollback(t0, a0, o0, i0);
        return Err(Interrupted);
      }
      idem := idem[(c, key) := IdemRow(q, result)];
      if fault == Some(BeforeCommit) {
        Rollback(t0, a0, o0, i0);
        return Err(Interrupted);
      }
      CheckpointsAreSix(fault);
      r := Ok(result);
    }
  }

  lemma CheckpointsAreSix(fault: Option<Checkpoint>)
    ensures fault.None? || fault == Some(AfterBegin) || fault == Some(AfterChecks) || fault == Some(AfterStateUpdate)
         || fault == Some(AfterAuditInsert) || fault == Some(AfterOutboxInsert) || fault == Some(BeforeCommit)
  {
    if fault.Some? {
      match fault.value
      case AfterBegin =>
      case AfterChecks =>
      case AfterStateUpdate =>
      case AfterAuditInsert =>
      case AfterOutboxInsert =>
      case BeforeCommit =>
    }
  }
}
