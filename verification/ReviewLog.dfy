/**
 The review log: an append-only history of decisions that is replayed to find
 the state of every record, and to decide whether the next decision is allowed.
 */
module ReviewLog {
  import opened Wrappers
  import opened HashChain
  import opened KnowledgeLedger

  datatype Decision = Decision(
    record: RecordId,
    assetId: Option<string>,
    fromStatus: string,
    toStatus: string,
    actor: string,
    reason: string,
    timestamp: string)

  type History = seq<Link<Decision>>

  datatype ReviewError =
    | InvalidRecordId | InvalidActor | InvalidReason | RecordNotFound
    | TransitionNotAllowed | UnknownRecordInHistory | HistoryMismatch | HistoryTransitionInvalid

  function AllowedFrom(status: string): set<string> {
    if status == "draft" then {"pending_review"}
    else if status == "pending_review" then {"approved", "rejected"}
    else {}
  }

  /** `knowledge_index`: the last row of each record id. */
  function Index(records: Ledger): map<RecordId, Entry> {
    if records == [] then map[]
    else
      var e := records[|records| - 1].content;
      Index(records[..|records| - 1])[e.id := e]
  }

  type States = map<RecordId, string>

  function InitialStates(records: Ledger): States {
    map id | id in Index(records) :: Index(records)[id].status
  }

  function Replayed(s: States, d: Decision): Result<States, ReviewError> {
    if d.record !in s then Err(UnknownRecordInHistory)
    else if s[d.record] != d.fromStatus then Err(HistoryMismatch)
    else if d.toStatus !in AllowedFrom(d.fromStatus) then Err(HistoryTransitionInvalid)
    else Ok(s[d.record := d.toStatus])
  }

  function ReplayFrom(s: States, history: History): Result<States, ReviewError> {
    if history == [] then Ok(s)
    else
      var before := ReplayFrom(s, history[..|history| - 1]);
      if before.Err? then before else Replayed(before.value, history[|history| - 1].content)
  }

  function CurrentStates(records: Ledger, history: History): Result<States, ReviewError> {
    ReplayFrom(InitialStates(records), history)
  }

  predicate IsActorChar(c: char) {
    'A' <= c <= 'Z' || 'a' <= c <= 'z' || '0' <= c <= '9' || c in {'.', '_', '@', ':', '-'}
  }

  predicate IsActor(actor: string) {
    1 <= |actor| <= 80 && forall i :: 0 <= i < |actor| ==> IsActorChar(actor[i])
  }

  predicate IsHex(c: char) {
    'a' <= c <= 'f' || '0' <= c <= '9'
  }

  /** Ids made by ingestion are well formed; any other text has to look like one. */
  predicate IsRecordId(id: RecordId) {
    match id
    case FromKey(_) => true
    case Named(t) => |t| >= 3 && t[..3] == "kr-" && 16 <= |t| - 3 <= 64 && forall i :: 3 <= i < |t| ==> IsHex(t[i])
  }

  /** What a person asks for, the reason already trimmed. */
  datatype Request = Request(record: RecordId, toStatus: string, actor: string, reason: string, timestamp: string)

  function AssetOf(e: Entry): Option<string> {
    if e.parts.Some? then Some(e.parts.value.assetId) else None
  }

  /** The checks in the order they are made; the first that fails is the answer. */
  function Decide(records: Ledger, history: History, q: Request): Result<Link<Decision>, ReviewError> {
    if !IsRecordId(q.record) then Err(InvalidRecordId)
    else if !IsActor(q.actor) then Err(InvalidActor)
    else if !(3 <= |q.reason| <= 500) then Err(InvalidReason)
    else if q.record !in Index(records) then Err(RecordNotFound)
    else
      var replay := CurrentStates(records, history);
      if replay.Err? then Err(replay.error)
      else
        var from := StatusIn(replay.value, q.record);
        if q.toStatus !in AllowedFrom(from) then Err(TransitionNotAllowed)
        else Ok(NextLink(history, DecisionOn(Index(records)[q.record], from, q)))
  }

  function DecisionOn(e: Entry, from: string, q: Request): Decision {
    Decision(q.record, AssetOf(e), from, q.toStatus, q.actor, q.reason, q.timestamp)
  }

  function StatusIn(s: States, id: RecordId): string {
    if id in s then s[id] else "draft"
  }

  /** The replaying loop, with the states in one dictionary. */
  method ReplayHistory(records: Ledger, history: History) returns (r: Result<States, ReviewError>)
    ensures r == CurrentStates(records, history)
  {
    var known := IndexRecords(records);
    var states := map id | id in known :: known[id].status;
    for i := 0 to |history|
      invariant ReplayFrom(InitialStates(records), history[..i]) == Ok(states)
      invariant states.Keys == known.Keys
    {
      assert history[..i + 1][..i] == history[..i];
      var d := history[i].content;
      ghost var after := ReplayFrom(InitialStates(records), history[..i + 1]);
      assert after == Replayed(states, d);
      if d.record !in known {
        FailureStays(InitialStates(records), history, i + 1);
        return Err(UnknownRecordInHistory);
      }
      if states[d.record] != d.fromStatus {
        FailureStays(InitialStates(records), history, i + 1);
        return Err(HistoryMismatch);
      }
      if d.toStatus !in AllowedFrom(d.fromStatus) {
        FailureStays(InitialStates(records), history, i + 1);
        return Err(HistoryTransitionInvalid);
      }
      states := states[d.record := d.toStatus];
    }
    assert history[..|history|] == history;
    r := Ok(states);
  }

  lemma {:induction false} FailureStays(s: States, history: History, k: nat)
    requires k <= |history| && ReplayFrom(s, history[..k]).Err?
    ensures ReplayFrom(s, history) == ReplayFrom(s, history[..k])
  {
    if k == |history| {
      assert history[..k] == history;
    } else {
      var n := |history| - 1;
      assert history[..n][..k] == history[..k];
      FailureStays(s, history[..n], k);
    }
  }

  method IndexRecords(records: Ledger) returns (known: map<RecordId, Entry>)
    ensures known == Index(records)
  {
    known := map[];
    for i := 0 to |records|
      invariant known == Index(records[..i])
    {
      assert records[..i + 1][..i] == records[..i];
      known := known[records[i].content.id := records[i].content];
    }
    assert records[..|records|] == records;
  }

  // ------------------------------------------------------------ one decision

  lemma {:induction false} ReplayKeepsRecords(s: States, history: History)
    ensures ReplayFrom(s, history).Ok? ==> ReplayFrom(s, history).value.Keys == s.Keys
  {
    if history != [] {
      ReplayKeepsRecords(s, history[..|history| - 1]);
    }
  }

  /** A decision is taken exactly when the request is well formed, the history replays, and the move is allowed. */
  lemma DecisionsAreExactlyTheAllowedMoves(records: Ledger, history: History, q: Request)
    ensures Decide(records, history, q).Ok? <==>
              (&& IsRecordId(q.record) && IsActor(q.actor) && 3 <= |q.reason| <= 500
               && CurrentStates(records, history).Ok?
               && q.record in CurrentStates(records, history).value
               && q.toStatus in AllowedFrom(CurrentStates(records, history).value[q.record]))
  {
    ReplayKeepsRecords(InitialStates(records), history);
  }

  /** The log with the new decision replays to the old states with exactly that record moved, and gains no gap. */
  lemma DecisionMovesOneRecord(records: Ledger, history: History, q: Request)
    requires Decide(records, history, q).Ok?
    ensures var longer := history + [Decide(records, history, q).value];
            && CurrentStates(records, history).Ok?
            && CurrentStates(records, longer) == Ok(CurrentStates(records, history).value[q.record := q.toStatus])
            && InStep(longer) && (InStep(history) ==> Gaps(longer) == Gaps(history))
  {
    var link := Decide(records, history, q).value;
    assert (history + [link])[..|history|] == history;
    ReplayKeepsRecords(InitialStates(records), history);
    AppendingAddsNoGap(history, link.content);
  }

  // ------------------------------------------------------------ what a history says about one record

  /** The decisions about one record, in order. */
  function Trail(history: History, id: RecordId): seq<Decision> {
    if history == [] then []
    else
      var d := history[|history| - 1].content;
      Trail(history[..|history| - 1], id) + (if d.record == id then [d] else [])
  }

  /** From one status to another by allowed moves, each starting where the one before ended. */
  ghost predicate Walk(t: seq<Decision>, start: string, end: string) {
    if t == [] then start == end
    else
      var d := t[|t| - 1];
      d.toStatus == end && end in AllowedFrom(d.fromStatus) && Walk(t[..|t| - 1], start, d.fromStatus)
  }

  lemma {:induction false} TrailsAreWalks(s: States, history: History, id: RecordId)
    requires ReplayFrom(s, history).Ok? && id in s
    ensures id in ReplayFrom(s, history).value
    ensures Walk(Trail(history, id), s[id], ReplayFrom(s, history).value[id])
  {
    if history != [] {
      var n := |history| - 1;
      TrailsAreWalks(s, history[..n], id);
      ReplayKeepsRecords(s, history[..n]);
      var d := history[n].content;
      var t := Trail(history[..n], id);
      if d.record == id {
        assert (t + [d])[..|t|] == t;
      } else {
        assert Trail(history, id) == t;
      }
    }
  }

  /** Every walk is one of six: standing still, or a part of draft, pending review, verdict. */
  lemma WalksAreShort(t: seq<Decision>, start: string, end: string)
    requires Walk(t, start, end)
    ensures |t| <= 2
    ensures end in {"approved", "rejected"} && start != end ==>
              t != [] && t[|t| - 1].fromStatus == "pending_review" && t[|t| - 1].toStatus == end
    ensures end in {"approved", "rejected"} && start == "draft" ==>
              |t| == 2 && t[0].fromStatus == "draft" && t[0].toStatus == "pending_review" == t[1].fromStatus
    ensures start in {"approved", "rejected"} ==> t == []
  {
    if |t| > 0 {
      var u := t[..|t| - 1];
      var middle := t[|t| - 1].fromStatus;
      assert Walk(u, start, middle);
      if |u| > 0 {
        var v := u[..|u| - 1];
        assert Walk(v, start, u[|u| - 1].fromStatus);
      }
    }
  }

  // ------------------------------------------------------------ ingestion and review together

  /** Rows written by ingestion are named by their key and begin undecided. */
  ghost predicate Own(records: Ledger) {
    forall i :: 0 <= i < |records| ==>
      var e := records[i].content;
      e.key.Some? && e.id == FromKey(e.key.value) && e.status in {"draft", "pending_review"}
  }

  lemma {:induction false} IndexIsLookup(records: Ledger, id: RecordId)
    requires Own(records)
    ensures id in Index(records) <==> id.FromKey? && Lookup(records, id.key).Some?
    ensures id in Index(records) ==>
              && Index(records)[id] == Lookup(records, id.key).value.content
              && Index(records)[id].status in {"draft", "pending_review"}
  {
    if records != [] {
      var n := |records| - 1;
      assert Own(records[..n]);
      IndexIsLookup(records[..n], id);
      assert records[n].content.id == FromKey(records[n].content.key.value);
    }
  }

  lemma {:induction false} IngestKeepsOwn(records: Ledger, assets: seq<Asset>, version: string)
    requires Own(records)
    ensures Own(Ingest(records, assets, version))
  {
    if assets != [] {
      IngestKeepsOwn(records, assets[..|assets| - 1], version);
    }
  }

  ghost predicate Includes(small: States, large: States) {
    forall id :: id in small ==> id in large && large[id] == small[id]
  }

  lemma IngestKeepsStatuses(records: Ledger, assets: seq<Asset>, version: string)
    requires Own(records)
    ensures Includes(InitialStates(records), InitialStates(Ingest(records, assets, version)))
  {
    var after := Ingest(records, assets, version);
    IngestWritesEachKeyOnce(records, assets, version);
    IngestKeepsOwn(records, assets, version);
    hide Own, Ingest, Index, Extends, Lookup;
    forall id | id in Index(records)
      ensures id in Index(after) && Index(after)[id] == Index(records)[id]
    {
      IndexIsLookup(records, id);
      IndexIsLookup(after, id);
      RecordsAreForever(records, after, id.key);
    }
  }

  lemma {:induction false} ReplayOverMore(s: States, t: States, history: History)
    requires Includes(s, t) && ReplayFrom(s, history).Ok?
    ensures ReplayFrom(t, history) == Ok(t + ReplayFrom(s, history).value)
  {
    if history == [] {
      assert t + s == t;
    } else {
      var n := |history| - 1;
      var d := history[n].content;
      ReplayOverMore(s, t, history[..n]);
      hide ReplayFrom, Includes;
      ReplayedOverMore(t, ReplayFrom(s, history[..n]).value, d);
    }
  }

  lemma ReplayedOverMore(t: States, u: States, d: Decision)
    requires Replayed(u, d).Ok?
    ensures Replayed(t + u, d) == Ok(t + Replayed(u, d).value)
  {
    assert (t + u)[d.record := d.toStatus] == t + u[d.record := d.toStatus];
  }

  /** New records never disturb the review: the history replays as before, and only new records are added. */
  lemma IngestionKeepsReviews(records: Ledger, assets: seq<Asset>, version: string, history: History)
    requires Own(records) && CurrentStates(records, history).Ok?
    ensures CurrentStates(Ingest(records, assets, version), history)
              == Ok(InitialStates(Ingest(records, assets, version)) + CurrentStates(records, history).value)
  {
    IngestKeepsStatuses(records, assets, version);
    ReplayOverMore(InitialStates(records), InitialStates(Ingest(records, assets, version)), history);
  }

  // ------------------------------------------------------------ every run of the pipeline

  datatype Op = Run(assets: seq<Asset>, version: string) | Review(request: Request)

  datatype Store = Store(records: Ledger, history: History)

  function Apply(s: Store, op: Op): Store {
    match op
    case Run(assets, version) => s.(records := Ingest(s.records, assets, version))
    case Review(q) =>
      var r := Decide(s.records, s.history, q);
      if r.Ok? then s.(history := s.history + [r.value]) else s
  }

  function After(ops: seq<Op>): Store {
    if ops == [] then Store([], []) else Apply(After(ops[..|ops| - 1]), ops[|ops| - 1])
  }

  ghost predicate Sound(s: Store) {
    && Own(s.records) && Extends([], s.records)
    && Gaps(s.records) == [] && InStep(s.records)
    && Gaps(s.history) == [] && InStep(s.history)
    && CurrentStates(s.records, s.history).Ok?
  }

  lemma ExtendsChains(a: Ledger, b: Ledger, c: Ledger)
    requires Extends(a, b) && Extends(b, c)
    ensures Extends(a, c)
  {
    assert b == c[..|b|];
    assert forall j :: 0 <= j < |b| ==> c[j] == b[j];
  }

  lemma StepKeepsSound(s: Store, op: Op)
    requires Sound(s)
    ensures Sound(Apply(s, op))
  {
    hide Own, Extends, Gaps, InStep, CurrentStates, Ingest, Decide;
    match op
    case Run(assets, version) =>
      IngestKeepsOwn(s.records, assets, version);
      IngestWritesEachKeyOnce(s.records, assets, version);
      ExtendsChains([], s.records, Ingest(s.records, assets, version));
      IngestionKeepsReviews(s.records, assets, version, s.history);
    case Review(q) =>
      if Decide(s.records, s.history, q).Ok? {
        DecisionMovesOneRecord(s.records, s.history, q);
      }
  }

  /** After any mixture of ingestion runs and reviews both logs verify, keys are unique, and the history replays. */
  lemma {:induction false} EveryRunIsSound(ops: seq<Op>)
    ensures Sound(After(ops))
  {
    if ops == [] {
      assert After(ops) == Store([], []);
      assert InitialStates([]) == map[];
    } else {
      EveryRunIsSound(ops[..|ops| - 1]);
      hide Sound, Apply;
      StepKeepsSound(After(ops[..|ops| - 1]), ops[|ops| - 1]);
    }
  }

  /** Nothing is approved or rejected except by a logged decision out of review; no record gets more than two decisions. */
  lemma NothingIsDecidedUnreviewed(ops: seq<Op>, id: RecordId)
    requires id in Index(After(ops).records)
    ensures var s := After(ops);
            var t := Trail(s.history, id);
            && CurrentStates(s.records, s.history).Ok? && id in CurrentStates(s.records, s.history).value
            && |t| <= 2
            && (CurrentStates(s.records, s.history).value[id] in {"approved", "rejected"} ==>
                  t != [] && t[|t| - 1].fromStatus == "pending_review")
  {
    var s := After(ops);
    EveryRunIsSound(ops);
    hide Own, Extends, Gaps, InStep, Trail, ReplayFrom, Index, Lookup, Walk, After;
    ReplayKeepsRecords(InitialStates(s.records), s.history);
    IndexIsLookup(s.records, id);
    TrailsAreWalks(InitialStates(s.records), s.history, id);
    WalksAreShort(Trail(s.history, id), InitialStates(s.records)[id], CurrentStates(s.records, s.history).value[id]);
  }

  // ------------------------------------------------------------ decisions in full

  /** A draft is sent to review, and a review ends in a verdict. */
  predicate IsMove(from: string, to: string) {
    || (from == "draft" && to == "pending_review")
    || (from == "pending_review" && (to == "approved" || to == "rejected"))
  }

  /** An actor has a name of up to 80 plain characters, and says why in 3 to 500. */
  predicate IsWellMade(q: Request) {
    && IsRecordId(q.record)
    && 1 <= |q.actor| <= 80
    && (forall i :: 0 <= i < |q.actor| ==>
          var c := q.actor[i];
          || 'a' <= c <= 'z' || 'A' <= c <= 'Z' || '0' <= c <= '9'
          || c == '.' || c == '_' || c == '@' || c == ':' || c == '-')
    && 3 <= |q.reason| <= 500
  }

  /** Where the trail of a record has led. */
  function StandsAt(start: string, t: seq<Decision>): string {
    if t == [] then start else t[|t| - 1].toStatus
  }

  lemma WellMadeIsChecked(q: Request)
    ensures IsWellMade(q) <==> IsRecordId(q.record) && IsActor(q.actor) && 3 <= |q.reason| <= 500
  {}

  lemma MovesAreAllowed(from: string, to: string)
    ensures IsMove(from, to) <==> to in AllowedFrom(from)
  {}

  /** What one request is answered, given the states that the history replays to. */
  lemma DecisionInFull(records: Ledger, history: History, q: Request)
    requires CurrentStates(records, history).Ok?
    ensures var s, r := CurrentStates(records, history).value, Decide(records, history, q);
            && (r.Ok? <==> IsWellMade(q) && q.record in s && IsMove(s[q.record], q.toStatus))
            && (r == Err(TransitionNotAllowed) <==> IsWellMade(q) && q.record in s && !IsMove(s[q.record], q.toStatus))
            && (r == Err(RecordNotFound) <==> IsWellMade(q) && q.record !in s)
            && (r.Ok? ==>
                  var d := r.value.content;
                  && d.record == q.record && d.fromStatus == s[q.record] && d.toStatus == q.toStatus
                  && d.actor == q.actor && d.reason == q.reason && d.timestamp == q.timestamp)
  {
    ReplayKeepsRecords(InitialStates(records), history);
    WellMadeIsChecked(q);
    forall from { MovesAreAllowed(from, q.toStatus); }
    hide IsRecordId, IsActor, AllowedFrom, IsWellMade, IsMove, ReplayFrom, Index, LatestHash;
  }

  /**
   After every run a request is granted exactly when it is well made, its record exists, and the move leads on
   from where the record's decisions have led, or from its first status if there are none yet.
   */
  lemma GrantedExactly(ops: seq<Op>, q: Request)
    ensures var s := After(ops);
            Decide(s.records, s.history, q).Ok? <==>
              && IsWellMade(q) && q.record in Index(s.records)
              && IsMove(StandsAt(Index(s.records)[q.record].status, Trail(s.history, q.record)), q.toStatus)
  {
    var s := After(ops);
    EveryRunIsSound(ops);
    DecisionInFull(s.records, s.history, q);
    hide Own, Extends, Gaps, InStep, Trail, ReplayFrom, Index, After, Decide, IsWellMade, IsMove;
    ReplayKeepsRecords(InitialStates(s.records), s.history);
    if q.record in Index(s.records) {
      TrailsAreWalks(InitialStates(s.records), s.history, q.record);
      WalkEnds(Trail(s.history, q.record), Index(s.records)[q.record].status, CurrentStates(s.records, s.history).value[q.record]);
    }
  }

  lemma WalkEnds(t: seq<Decision>, start: string, end: string)
    requires Walk(t, start, end)
    ensures end == StandsAt(start, t)
  {}

  // ------------------------------------------------------------ the output directory

  class CookieMonsterOutput {
    var records: Ledger
    var history: History

    function View(): Store
      reads this
    {
      Store(records, history)
    }

    constructor ()
      ensures View() == Store([], []) == After([])
    {
      records, history := [], [];
    }

    /** Build a snapshot over what is stored, then append what is new. */
    method Snapshot(assets: seq<Asset>, version: string) returns (current: seq<Link<Entry>>)
      modifies this
      ensures View() == Apply(old(View()), Run(assets, version))
      ensures |current| == |assets| == |Reported(old(records), assets, version)|
      ensures forall i :: 0 <= i < |assets| ==> Reported(old(records), assets, version)[i] == Some(current[i])
    {
      var added;
      current, added := MakeKnowledgeRecords(assets, version, records);
      records := records + added;
    }

    method MakeDecision(q: Request) returns (r: Result<Link<Decision>, ReviewError>)
      modifies this
      ensures View() == Apply(old(View()), Review(q))
      ensures r == Decide(old(records), old(history), q)
      ensures r.Ok? ==> IsWellMade(q) && history == old(history) + [r.value] && records == old(records)
      ensures r.Err? ==> View() == old(View())
      ensures CurrentStates(old(records), old(history)).Ok? ==>
        var s := CurrentStates(old(records), old(history)).value;
        r.Ok? <==> IsWellMade(q) && q.record in s && IsMove(s[q.record], q.toStatus)
    {
      WellMadeIsChecked(q);
      if CurrentStates(records, history).Ok? {
        DecisionInFull(records, history, q);
      }
      hide IsWellMade, IsMove;
      hide CurrentStates, Index, LatestHash;
      if !IsRecordId(q.record) {
        return Err(InvalidRecordId);
      }
      if !IsActor(q.actor) {
        return Err(InvalidActor);
      }
      if !(3 <= |q.reason| <= 500) {
        return Err(InvalidReason);
      }
      var known := IndexRecords(records);
      if q.record !in known {
        return Err(RecordNotFound);
      }
      var replay := ReplayHistory(records, history);
      if replay.Err? {
        return Err(replay.error);
      }
      var from := StatusIn(replay.value, q.record);
      if q.toStatus !in AllowedFrom(from) {
        return Err(TransitionNotAllowed);
      }
      var link := NextLink(history, DecisionOn(known[q.record], from, q));
      history := history + [link];
      r := Ok(link);
    }
  }
}
