/**
 The durable queue object: a table of rows and a table of events, updated in
 place. Its methods are proved against the message-level operations.
 */
module StoreForward {
  import opened Wrappers
  import opened Sorting
  import opened Rounding
  import opened QueueMessage
  import opened QueueRuns
  import opened QueueTerms

  /** A row of the event table. */
  datatype LogRow = LogRow(messageId: string, stamp: Stamp)

  /** The events of one message, oldest first. */
  function EventsOf(events: seq<LogRow>, id: string): seq<Stamp> {
    if events == [] then []
    else
      var last := events[|events| - 1];
      EventsOf(events[..|events| - 1], id) + (if last.messageId == id then [last.stamp] else [])
  }

  lemma EventsOfAppend(events: seq<LogRow>, row: LogRow, id: string)
    ensures EventsOf(events + [row], id) == EventsOf(events, id) + (if row.messageId == id then [row.stamp] else [])
  {
    assert (events + [row])[..|events|] == events;
  }

  lemma {:induction false} NoEventsOfStrangers(events: seq<LogRow>, id: string)
    requires forall e :: e in events ==> e.messageId != id
    ensures EventsOf(events, id) == []
  {
    if events != [] {
      assert events[|events| - 1] in events;
      NoEventsOfStrangers(events[..|events| - 1], id);
    }
  }

  /** Each row with the events recorded for it. */
  ghost function Table(rows: map<string, Row>, events: seq<LogRow>): Queue {
    map id | id in rows :: Msg(rows[id], EventsOf(events, id))
  }

  /** Events refer to rows, as the foreign key demands. */
  ghost predicate NoOrphans(rows: map<string, Row>, events: seq<LogRow>) {
    forall e :: e in events ==> e.messageId in rows
  }

  lemma TableRecorded(rows: map<string, Row>, events: seq<LogRow>, id: string, row: Row, stamp: Stamp)
    requires NoOrphans(rows, events)
    ensures NoOrphans(rows[id := row], events + [LogRow(id, stamp)])
    ensures var table := Table(rows, events);
            Table(rows[id := row], events + [LogRow(id, stamp)])
              == table[id := Msg(row, (if id in table then table[id].log else []) + [stamp])]
  {
    hide EventsOf;
    if id !in rows {
      NoEventsOfStrangers(events, id);
    }
    forall k {
      EventsOfAppend(events, LogRow(id, stamp), k);
    }
    var before, after := Table(rows, events), Table(rows[id := row], events + [LogRow(id, stamp)]);
    assert forall k :: k in after && k != id ==> k in before && after[k] == before[k];
    assert after[id] == Msg(row, (if id in before then before[id].log else []) + [stamp]);
  }

  /** What a claim returns for each row it leased. */
  datatype Item = Item(
    messageId: string,
    destination: string,
    nextHop: Option<string>,
    priority: Priority,
    attempts: nat,
    expiresAt: int,
    envelope: Envelope)

  function ItemOf(id: string, r: Row): Item {
    Item(id, r.destination, r.nextHop, r.priority, r.attempts, r.expiresAt, r.envelope)
  }

  /** What a sender reports, or that it raised. */
  datatype SenderOutcome =
    | SentDelivered(receipt: string)
    | SentCustody(office: Option<string>, receipt: string)
    | SentOther(name: string)
    | Raised(message: string)

  const CUSTODY_OFFICE_REQUIRED := "custody receipt office_id is required"

  /** What processing does to a leased message, given what the sender reports. */
  function Settle(cfg: Config, m: Msg, o: SenderOutcome, now: int, u: Draw): Msg {
    match o
    case SentDelivered(receipt) => AckMsg(m, receipt, now)
    case SentCustody(office, receipt) =>
      if office.Some? && office.value != "" then TransferMsg(m, office.value, receipt, now)
      else FailMsg(cfg, m, CUSTODY_OFFICE_REQUIRED, now, true, u)
    case SentOther(name) => FailMsg(cfg, m, "unsupported outcome: " + name, now, false, u)
    case Raised(message) => FailMsg(cfg, m, message, now, true, u)
  }

  datatype Counts = Counts(claimed: nat, delivered: nat, transferred: nat, retry: nat, rejected: nat)

  function Count(c: Counts, state: State): Counts {
    Counts(
      c.claimed + 1,
      c.delivered + (if state.Delivered? then 1 else 0),
      c.transferred + (if state.CustodyTransferred? then 1 else 0),
      c.retry + (if state.RetryWait? then 1 else 0),
      c.rejected + (if state.Rejected? then 1 else 0))
  }

  /** How many of the messages have ended in each state. */
  function Tally(s: Queue, ids: seq<string>): Counts
    requires forall id :: id in ids ==> id in s
  {
    if ids == [] then Counts(0, 0, 0, 0, 0)
    else Count(Tally(s, ids[..|ids| - 1]), s[ids[|ids| - 1]].row.state)
  }

  lemma {:induction false} TallyAddsUp(s: Queue, ids: seq<string>)
    requires forall id :: id in ids ==> id in s
    requires forall id :: id in ids ==> Settled(s[id].row.state)
    ensures var c := Tally(s, ids);
            c.claimed == |ids| && c.claimed == c.delivered + c.transferred + c.retry + c.rejected
  {
    if ids != [] {
      assert ids[|ids| - 1] in ids;
      TallyAddsUp(s, ids[..|ids| - 1]);
    }
  }

  lemma {:induction false} TallyIgnoresOthers(s: Queue, t: Queue, ids: seq<string>)
    requires forall id :: id in ids ==> id in s && id in t && s[id].row.state == t[id].row.state
    ensures Tally(s, ids) == Tally(t, ids)
  {
    if ids != [] {
      assert ids[|ids| - 1] in ids;
      TallyIgnoresOthers(s, t, ids[..|ids| - 1]);
    }
  }

  ghost function IdsOf(items: seq<Item>): (ids: seq<string>)
    ensures |ids| == |items| && forall i :: 0 <= i < |items| ==> ids[i] == items[i].messageId
  {
    seq(|items|, i requires 0 <= i < |items| => items[i].messageId)
  }

  lemma TallyGrows(s: Queue, t: Queue, ids: seq<string>, id: string)
    requires forall x :: x in ids ==> x in s && x in t && s[x].row.state == t[x].row.state
    requires id in t
    ensures forall x :: x in ids + [id] ==> x in t
    ensures Tally(t, ids + [id]) == Count(Tally(s, ids), t[id].row.state)
  {
    TallyIgnoresOthers(s, t, ids);
    assert (ids + [id])[..|ids|] == ids;
  }

  predicate Settled(s: State) {
    s.Delivered? || s.CustodyTransferred? || s.RetryWait? || s.Rejected?
  }

  /** The table after each of the messages is settled from its leased row. */
  ghost function SettledQueue(cfg: Config, s: Queue, ids: seq<string>, sender: Item -> SenderOutcome, now: int,
                              draws: string -> Draw): Queue
  {
    map id | id in s ::
      if id in ids then Settle(cfg, s[id], sender(ItemOf(id, s[id].row)), now, draws(id)) else s[id]
  }

  /** The messages are distinct rows, leased by the worker and not yet expired. */
  ghost predicate AllLeased(s: Queue, ids: seq<string>, worker: string, now: int) {
    && (forall i :: 0 <= i < |ids| ==> ids[i] in s && Owns(s[ids[i]].row, worker) && now < s[ids[i]].row.expiresAt)
    && (forall i, j :: 0 <= i < j < |ids| ==> ids[i] != ids[j])
  }

  lemma SettledStep(cfg: Config, s: Queue, ids: seq<string>, i: nat, sender: Item -> SenderOutcome, now: int,
                    draws: string -> Draw)
    requires i < |ids| && (forall id :: id in ids ==> id in s)
    requires forall j, k :: 0 <= j < k < |ids| ==> ids[j] != ids[k]
    ensures var v := SettledQueue(cfg, s, ids[..i], sender, now, draws);
            var w := SettledQueue(cfg, s, ids[..i + 1], sender, now, draws);
            && v.Keys == w.Keys == s.Keys && v[ids[i]] == s[ids[i]]
            && w == v[ids[i] := Settle(cfg, s[ids[i]], sender(ItemOf(ids[i], s[ids[i]].row)), now, draws(ids[i]))]
            && Tally(w, ids[..i + 1]) == Count(Tally(v, ids[..i]), w[ids[i]].row.state)
  {
    hide Settle;
    assert ids[..i + 1] == ids[..i] + [ids[i]] && ids[i] !in ids[..i];
    TallyGrows(SettledQueue(cfg, s, ids[..i], sender, now, draws), SettledQueue(cfg, s, ids[..i + 1], sender, now, draws),
               ids[..i], ids[i]);
  }

  /** Each item describes the row it was leased from. */
  ghost predicate ItemsDescribe(s: Queue, items: seq<Item>) {
    forall i :: 0 <= i < |items| ==>
      items[i].messageId in s && items[i] == ItemOf(items[i].messageId, s[items[i].messageId].row)
  }

  /** Settling one more item: its row is still as it was leased, and the table and the counts move on by it. */
  lemma NoneSettled(cfg: Config, s: Queue, items: seq<Item>, worker: string, sender: Item -> SenderOutcome, now: int,
                    draws: string -> Draw)
    requires AllLeased(s, IdsOf(items), worker, now)
    ensures forall id :: id in IdsOf(items) ==> id in s
    ensures SettledQueue(cfg, s, IdsOf(items)[..0], sender, now, draws) == s
    ensures Tally(s, IdsOf(items)[..0]) == Counts(0, 0, 0, 0, 0)
  {}

  lemma NextSettled(cfg: Config, s: Queue, items: seq<Item>, i: nat, worker: string, sender: Item -> SenderOutcome, now: int,
                    draws: string -> Draw)
    requires i < |items| && AllLeased(s, IdsOf(items), worker, now) && ItemsDescribe(s, items)
    ensures forall id :: id in IdsOf(items) ==> id in s
    ensures var ids, id := IdsOf(items), items[i].messageId;
            var v := SettledQueue(cfg, s, ids[..i], sender, now, draws);
            var w := SettledQueue(cfg, s, ids[..i + 1], sender, now, draws);
            && v.Keys == w.Keys == s.Keys && id in v && v[id] == s[id]
            && Owns(v[id].row, worker) && now < v[id].row.expiresAt
            && w == v[id := Settle(cfg, v[id], sender(items[i]), now, draws(id))]
            && Tally(w, ids[..i + 1]) == Count(Tally(v, ids[..i]), w[id].row.state)
  {
    var ids := IdsOf(items);
    assert ids[i] == items[i].messageId;
    hide Settle, Owns, SettledQueue, Tally;
    SettledStep(cfg, s, ids, i, sender, now, draws);
  }

  lemma SettleEnds(cfg: Config, m: Msg, o: SenderOutcome, now: int, u: Draw)
    requires now < m.row.expiresAt
    ensures Settled(Settle(cfg, m, o, now, u).row.state)
  {}

  /** Every claimed message is counted under exactly one of the four outcomes. */
  lemma SettledTally(cfg: Config, s: Queue, ids: seq<string>, worker: string, sender: Item -> SenderOutcome, now: int,
                     draws: string -> Draw)
    requires AllLeased(s, ids, worker, now)
    ensures forall id :: id in ids ==> id in SettledQueue(cfg, s, ids, sender, now, draws)
    ensures var c := Tally(SettledQueue(cfg, s, ids, sender, now, draws), ids);
            c.claimed == |ids| && c.claimed == c.delivered + c.transferred + c.retry + c.rejected
  {
    var t := SettledQueue(cfg, s, ids, sender, now, draws);
    forall id | id in ids ensures id in t && Settled(t[id].row.state) {
      SettleEnds(cfg, s[id], sender(ItemOf(id, s[id].row)), now, draws(id));
    }
    hide Settle;
    TallyAddsUp(t, ids);
  }

  // ------------------------------------------------------------ which count each outcome raises

  predicate NamesAnOffice(o: SenderOutcome) {
    o.SentCustody? && o.office.Some? && o.office.value != ""
  }

  /** A sender that raises, or reports custody without an office, may be tried again while attempts are left. */
  predicate MayTryAgain(o: SenderOutcome) {
    o.Raised? || (o.SentCustody? && !NamesAnOffice(o))
  }

  lemma SettlementInFull(cfg: Config, m: Msg, o: SenderOutcome, now: int, u: Draw)
    requires now < m.row.expiresAt
    ensures var state := Settle(cfg, m, o, now, u).row.state;
            && (state.Delivered? <==> o.SentDelivered?)
            && (state.CustodyTransferred? <==> NamesAnOffice(o))
            && (state.RetryWait? <==> MayTryAgain(o) && m.row.attempts + 1 < cfg.policy.maxAttempts)
            && (state.Rejected? <==> o.SentOther? || (MayTryAgain(o) && m.row.attempts + 1 >= cfg.policy.maxAttempts))
  {}

  ghost function Among(ids: seq<string>, chosen: set<string>): set<string> {
    set id | id in ids && id in chosen
  }

  lemma OneMoreOf(front: seq<string>, last: string, chosen: set<string>)
    requires last !in front
    ensures |Among(front + [last], chosen)| == |Among(front, chosen)| + (if last in chosen then 1 else 0)
  {
    assert Among(front + [last], chosen) == Among(front, chosen) + (if last in chosen then {last} else {});
  }

  lemma {:induction false} TallyAmong(s: Queue, ids: seq<string>, a: set<string>, b: set<string>, c: set<string>, d: set<string>)
    requires forall id :: id in ids ==> id in s
    requires forall i, j :: 0 <= i < j < |ids| ==> ids[i] != ids[j]
    requires forall id :: id in ids ==> (id in a <==> s[id].row.state.Delivered?)
    requires forall id :: id in ids ==> (id in b <==> s[id].row.state.CustodyTransferred?)
    requires forall id :: id in ids ==> (id in c <==> s[id].row.state.RetryWait?)
    requires forall id :: id in ids ==> (id in d <==> s[id].row.state.Rejected?)
    ensures var n := Tally(s, ids);
            && n.delivered == |Among(ids, a)| && n.transferred == |Among(ids, b)|
            && n.retry == |Among(ids, c)| && n.rejected == |Among(ids, d)|
  {
    if ids != [] {
      var front, last := ids[..|ids| - 1], ids[|ids| - 1];
      assert ids == front + [last] && last in ids && last !in front;
      TallyAmong(s, front, a, b, c, d);
      OneMoreOf(front, last, a);
      OneMoreOf(front, last, b);
      OneMoreOf(front, last, c);
      OneMoreOf(front, last, d);
      hide Among;
    }
  }

  /** The counts are the numbers of messages that ended in each state. */
  lemma TallyInFull(s: Queue, ids: seq<string>)
    requires forall id :: id in ids ==> id in s
    requires forall i, j :: 0 <= i < j < |ids| ==> ids[i] != ids[j]
    ensures var c := Tally(s, ids);
            && c.delivered == |set id | id in ids && s[id].row.state.Delivered?|
            && c.transferred == |set id | id in ids && s[id].row.state.CustodyTransferred?|
            && c.retry == |set id | id in ids && s[id].row.state.RetryWait?|
            && c.rejected == |set id | id in ids && s[id].row.state.Rejected?|
  {
    var a, b := set id | id in ids && s[id].row.state.Delivered?, set id | id in ids && s[id].row.state.CustodyTransferred?;
    var c, d := set id | id in ids && s[id].row.state.RetryWait?, set id | id in ids && s[id].row.state.Rejected?;
    TallyAmong(s, ids, a, b, c, d);
    assert Among(ids, a) == a && Among(ids, b) == b && Among(ids, c) == c && Among(ids, d) == d;
  }

  /** What the sender reports about a message of the table. */
  function Reported(s: Queue, sender: Item -> SenderOutcome, id: string): SenderOutcome
    requires id in s
  {
    sender(ItemOf(id, s[id].row))
  }

  /** Whether one more failure leaves a message with attempts to go. */
  predicate HasAttemptsLeft(cfg: Config, r: Row) {
    r.attempts + 1 < cfg.policy.maxAttempts
  }

  /** Each count is the number of claimed messages that the sender reported so about. */
  ghost predicate CountsReports(cfg: Config, s: Queue, picked: seq<string>, sender: Item -> SenderOutcome, c: Counts)
    requires forall id :: id in picked ==> id in s
  {
    && c.claimed == |picked|
    && c.delivered == |set id | id in picked && Reported(s, sender, id).SentDelivered?|
    && c.transferred == |set id | id in picked && NamesAnOffice(Reported(s, sender, id))|
    && c.retry == |set id | id in picked && MayTryAgain(Reported(s, sender, id)) && HasAttemptsLeft(cfg, s[id].row)|
    && c.rejected == |set id | id in picked &&
         (Reported(s, sender, id).SentOther? ||
          (MayTryAgain(Reported(s, sender, id)) && !HasAttemptsLeft(cfg, s[id].row)))|
  }

  /** A message ends as its sender's report and its attempts demand. */
  predicate EndsAsReported(cfg: Config, s: Queue, t: Queue, sender: Item -> SenderOutcome, id: string)
    requires id in s && id in t
  {
    var state, o := t[id].row.state, Reported(s, sender, id);
    && (state.Delivered? <==> o.SentDelivered?)
    && (state.CustodyTransferred? <==> NamesAnOffice(o))
    && (state.RetryWait? <==> MayTryAgain(o) && HasAttemptsLeft(cfg, s[id].row))
    && (state.Rejected? <==> o.SentOther? || (MayTryAgain(o) && !HasAttemptsLeft(cfg, s[id].row)))
  }

  lemma SettledCountsReports(cfg: Config, s: Queue, ids: seq<string>, worker: string, sender: Item -> SenderOutcome, now: int,
                             draws: string -> Draw)
    requires AllLeased(s, ids, worker, now)
    ensures forall id :: id in ids ==> id in s && id in SettledQueue(cfg, s, ids, sender, now, draws)
    ensures CountsReports(cfg, s, ids, sender, Tally(SettledQueue(cfg, s, ids, sender, now, draws), ids))
  {
    var t := SettledQueue(cfg, s, ids, sender, now, draws);
    SettledTally(cfg, s, ids, worker, sender, now, draws);
    TallyInFull(t, ids);
    forall id | id in ids ensures id in s && id in t && EndsAsReported(cfg, s, t, sender, id)
    {
      SettlementInFull(cfg, s[id], Reported(s, sender, id), now, draws(id));
    }
    hide Settle, Tally, EndsAsReported, CountsReports, SettledQueue, Owns;
    CountsAgree(cfg, s, t, ids, sender, Tally(t, ids));
  }

  lemma CountsAgree(cfg: Config, s: Queue, t: Queue, ids: seq<string>, sender: Item -> SenderOutcome, c: Counts)
    requires forall id :: id in ids ==> id in s && id in t
    requires forall id :: id in ids ==> EndsAsReported(cfg, s, t, sender, id)
    requires c.claimed == |ids|
    requires c.delivered == |set id | id in ids && t[id].row.state.Delivered?|
    requires c.transferred == |set id | id in ids && t[id].row.state.CustodyTransferred?|
    requires c.retry == |set id | id in ids && t[id].row.state.RetryWait?|
    requires c.rejected == |set id | id in ids && t[id].row.state.Rejected?|
    ensures CountsReports(cfg, s, ids, sender, c)
  {
    hide NamesAnOffice, MayTryAgain, HasAttemptsLeft, Reported;
    assert (set id | id in ids && t[id].row.state.Delivered?)
        == (set id | id in ids && Reported(s, sender, id).SentDelivered?);
    assert (set id | id in ids && t[id].row.state.CustodyTransferred?)
        == (set id | id in ids && NamesAnOffice(Reported(s, sender, id)));
    assert (set id | id in ids && t[id].row.state.RetryWait?)
        == (set id | id in ids && MayTryAgain(Reported(s, sender, id)) && HasAttemptsLeft(cfg, s[id].row));
    assert (set id | id in ids && t[id].row.state.Rejected?)
        == (set id | id in ids &&
             (Reported(s, sender, id).SentOther? ||
              (MayTryAgain(Reported(s, sender, id)) && !HasAttemptsLeft(cfg, s[id].row))));
  }

  /** A claim changes nothing that the sender is shown. */
  lemma ClaimKeepsReports(cfg: Config, s: Queue, t: Queue, picked: seq<string>, sender: Item -> SenderOutcome, c: Counts)
    requires forall id :: id in picked ==>
      id in s && id in t && ItemOf(id, s[id].row) == ItemOf(id, t[id].row) && s[id].row.attempts == t[id].row.attempts
    ensures CountsReports(cfg, t, picked, sender, c) ==> CountsReports(cfg, s, picked, sender, c)
  {
    hide NamesAnOffice, MayTryAgain, ItemOf;
    forall id | id in picked
      ensures Reported(s, sender, id) == Reported(t, sender, id)
      ensures HasAttemptsLeft(cfg, s[id].row) == HasAttemptsLeft(cfg, t[id].row)
    {}
    hide Reported, HasAttemptsLeft;
    assert (set id | id in picked && Reported(s, sender, id).SentDelivered?)
        == (set id | id in picked && Reported(t, sender, id).SentDelivered?);
    assert (set id | id in picked && NamesAnOffice(Reported(s, sender, id)))
        == (set id | id in picked && NamesAnOffice(Reported(t, sender, id)));
    assert (set id | id in picked && MayTryAgain(Reported(s, sender, id)) && HasAttemptsLeft(cfg, s[id].row))
        == (set id | id in picked && MayTryAgain(Reported(t, sender, id)) && HasAttemptsLeft(cfg, t[id].row));
    assert (set id | id in picked &&
             (Reported(s, sender, id).SentOther? ||
              (MayTryAgain(Reported(s, sender, id)) && !HasAttemptsLeft(cfg, s[id].row))))
        == (set id | id in picked &&
             (Reported(t, sender, id).SentOther? ||
              (MayTryAgain(Reported(t, sender, id)) && !HasAttemptsLeft(cfg, t[id].row))));
  }

  // ------------------------------------------------------------ picking and leasing, one row at a time

  /** The least rows of `due` have been picked in order, the rest are still to come. */
  ghost predicate Picking(s: Queue, due: set<string>, picked: seq<string>, rest: set<string>)
    requires due <= s.Keys
  {
    && rest <= due && |picked| + |rest| == |due|
    && (forall id :: id in due <==> id in picked || id in rest)
    && (forall id :: id in picked ==> id !in rest)
    && (forall i, j :: 0 <= i < j < |picked| ==> picked[i] != picked[j])
    && (forall i, j :: 0 <= i < j < |picked| && picked[i] in s && picked[j] in s ==> Before(s, picked[i], picked[j]))
    && (forall a, b :: a in picked && b in rest && a in s ==> Before(s, a, b))
  }

  lemma PickNext(s: Queue, due: set<string>, picked: seq<string>, rest: set<string>, id: string)
    requires due <= s.Keys && Picking(s, due, picked, rest)
    requires id in rest && forall x :: x in rest ==> Before(s, id, x)
    ensures Picking(s, due, picked + [id], rest - {id})
  {
    hide Before;
    assert forall x :: x in picked + [id] <==> x in picked || x == id;
    assert forall i :: 0 <= i < |picked| ==> (picked + [id])[i] == picked[i] && picked[i] in picked;
  }

  lemma PickEnds(s: Queue, due: set<string>, picked: seq<string>, rest: set<string>, limit: nat)
    requires due <= s.Keys && Picking(s, due, picked, rest)
    requires |picked| <= limit && (rest == {} || |picked| == limit)
    ensures IsPick(s, due, limit, picked)
  {
    hide Before;
  }

  lemma ClaimedStep(s: Queue, ids: seq<string>, i: nat, worker: string, until: int, now: int)
    requires i < |ids| && ids[i] in s && forall j, k :: 0 <= j < k < |ids| ==> ids[j] != ids[k]
    ensures var v, w := Claimed(s, ids[..i], worker, until, now), Claimed(s, ids[..i + 1], worker, until, now);
            && v.Keys == s.Keys && v[ids[i]] == s[ids[i]]
            && w == v[ids[i] := ClaimMsg(s[ids[i]], worker, until, now)]
  {
    hide ClaimMsg;
    assert ids[..i + 1] == ids[..i] + [ids[i]] && ids[i] !in ids[..i];
  }

  class TelegraphStoreForwardQueue {
    const cfg: Config
    var rows: map<string, Row>
    var events: seq<LogRow>

    ghost function View(): Queue
      reads this
    {
      Table(rows, events)
    }

    ghost predicate Valid()
      reads this
    {
      NoOrphans(rows, events)
    }

    constructor (cfg: Config)
      ensures this.cfg == cfg && Valid() && View() == map[]
    {
      this.cfg := cfg;
      rows, events := map[], [];
    }

    /** Writes a row and records an event for it. */
    method Record(id: string, row: Row, now: int, event: Event)
      requires Valid()
      modifies this
      ensures Valid()
      ensures View() == old(View())[id := Logged(row, if id in old(View()) then old(View())[id].log else [], now, event)]
      ensures rows == old(rows)[id := row]
    {
      TableRecorded(rows, events, id, row, Stamp(now, event));
      hide Table, NoOrphans;
      rows := rows[id := row];
      events := events + [LogRow(id, Stamp(now, event))];
    }

    /** Number and volume of the rows that are not terminal. */
    method Usage() returns (count: nat, bytes: nat)
      ensures count == |Live(View())| && bytes == Bytes(View(), Live(View()))
    {
      var todo := set id | id in rows && !Terminal(rows[id].state);
      assert todo == Live(View());
      count, bytes := |todo|, 0;
      while todo != {}
        invariant todo <= View().Keys
        invariant bytes + Bytes(View(), todo) == Bytes(View(), Live(View()))
        decreases todo
      {
        var id :| id in todo;
        BytesWithout(View(), todo, id);
        bytes := bytes + rows[id].envelope.sizeBytes;
        todo := todo - {id};
      }
    }

    method Enqueue(env: Envelope, destination: string, expiresAt: int, priority: Priority, nextHop: Option<string>, now: int)
        returns (r: Result<bool, QueueError>)
      requires Valid()
      modifies this
      ensures Valid()
      ensures r == EnqueueOutcome(cfg, old(View()), env, expiresAt, priority, now)
      ensures r.Ok? ==> WellFormed(cfg, env, expiresAt, priority, now)
      ensures WellFormed(cfg, env, expiresAt, priority, now) ==>
        var id := env.messageId.value;
        r == if id in old(rows) && old(rows)[id].envelope == env then Ok(false)
             else if id in old(rows) then Err(Collision)
             else if Fits(cfg, old(View()), env.sizeBytes) then Ok(true)
             else Err(CapacityExceeded)
      ensures View() == Apply(cfg, old(View()), Op.Enqueue(env, destination, expiresAt, priority, nextHop, now))
    {
      AdmissionInFull(cfg, View(), env, expiresAt, priority, now);
      hide Fits;
      if env.messageId.None? || env.messageId.value == "" {
        return Err(MessageIdRequired);
      }
      if !priority.Known() {
        return Err(InvalidPriority);
      }
      if expiresAt <= now {
        return Err(ExpiryInThePast);
      }
      if env.sizeBytes > cfg.limits.maxMessageBytes {
        return Err(MessageTooLarge);
      }
      var id := env.messageId.value;
      if id in rows {
        if rows[id].envelope != env {
          return Err(Collision);
        }
        return Ok(false);
      }
      var count, bytes := Usage();
      if count >= cfg.limits.maxMessages || bytes + env.sizeBytes > cfg.limits.maxBytes {
        return Err(CapacityExceeded);
      }
      var row := Row(destination, nextHop, priority, env, Queued, now, expiresAt, now, 0,
                     None, None, None, None, None, None, now);
      Record(id, row, now, AcceptedForCustody(cfg.officeId));
      r := Ok(true);
    }

    method Expire(now: int) returns (count: nat)
      requires Valid()
      modifies this
      ensures Valid()
      ensures View() == ExpireAll(old(View()), now)
      ensures count == |set id | id in old(rows) && Open(old(rows)[id].state) && old(rows)[id].expiresAt <= now|
      ensures forall id :: id in old(View()) ==> id in View() && ExpiredIfOverdue(old(View())[id], View()[id], now)
    {
      hide EventsOf;
      ghost var before, v := View(), View();
      var due := set id | id in rows && ExpiryDue(rows[id], now);
      assert due == set id | id in rows && Open(rows[id].state) && rows[id].expiresAt <= now;
      count := |due|;
      while due != {}
        invariant Valid() && View() == v
        invariant v.Keys == before.Keys && due <= before.Keys
        invariant forall id :: id in before ==> v[id] == if id in due then before[id] else ExpireMsg(before[id], now)
        invariant forall id :: id in due ==> ExpiryDue(before[id].row, now)
        decreases due
      {
        var id :| id in due;
        Record(id, Unleased(rows[id], Expired, now), now, WasExpired);
        v := v[id := ExpireMsg(v[id], now)];
        due := due - {id};
      }
      assert View() == ExpireAll(before, now);
      hide ExpireMsg, ExpiredIfOverdue, Table;
      forall id | id in before ensures ExpiredIfOverdue(before[id], View()[id], now) {
        ExpiryInFull(before[id], now);
      }
    }

    /** Rows whose lease has lapsed go back to waiting, without an event. */
    method Reclaim(now: int)
      requires Valid()
      modifies this
      ensures Valid() && View() == map id | id in old(View()) :: ReclaimMsg(old(View())[id], now)
    {
      rows := map id | id in rows :: if LeaseLapsed(rows[id], now) then Unleased(rows[id], RetryWait, now) else rows[id];
    }

    method First(ids: set<string>) returns (least: string)
      requires ids != {} && ids <= View().Keys
      ensures least in ids && forall id :: id in ids ==> Before(View(), least, id)
    {
      least :| least in ids;
      var rest := ids - {least};
      ghost var seen := {least};
      BeforeIsTotal(View());
      hide Before;
      while rest != {}
        invariant ids == seen + rest && least in seen
        invariant forall id :: id in seen ==> Before(View(), least, id)
        decreases rest
      {
        var id :| id in rest;
        if !RowBefore(id, least) {
          assert Before(View(), least, id);
        } else {
          least := id;
        }
        seen, rest := seen + {id}, rest - {id};
      }
    }

    /** The claiming order, read off the rows. */
    predicate RowBefore(a: string, b: string)
      requires a in rows && b in rows
      reads this
      ensures RowBefore(a, b) == Before(View(), a, b)
    {
      var x, y := rows[a], rows[b];
      if x.priority.Weight() != y.priority.Weight() then x.priority.Weight() < y.priority.Weight()
      else if x.nextAttemptAt != y.nextAttemptAt then x.nextAttemptAt < y.nextAttemptAt
      else if x.createdAt != y.createdAt then x.createdAt < y.createdAt
      else StrLeq(a, b)
    }

    /** The first due rows in claiming order, up to the limit. */
    method SelectDue(limit: nat, now: int) returns (picked: seq<string>)
      ensures IsPick(View(), DueIds(View(), now), limit, picked)
    {
      var rest := set id | id in rows && Due(rows[id], now);
      ghost var v, due := View(), rest;
      assert due == DueIds(v, now) && due <= v.Keys;
      picked := [];
      assert Picking(v, due, picked, rest);
      hide Before, Picking, IsPick, DueIds, Due, Table;
      while rest != {} && |picked| < limit
        invariant rest <= due && |picked| <= limit
        invariant Picking(v, due, picked, rest)
        decreases rest
      {
        var id := First(rest);
        PickNext(v, due, picked, rest, id);
        picked, rest := picked + [id], rest - {id};
      }
      PickEnds(v, due, picked, rest, limit);
    }

    method ClaimDue(worker: string, limit: int, leaseSeconds: int, now: int)
        returns (r: Result<seq<Item>, QueueError>, ghost picked: seq<string>)
      requires Valid()
      modifies this
      ensures Valid()
      ensures r.Err? <==> limit < 1 || leaseSeconds < 1
      ensures r.Err? ==> r.error == InvalidClaim
      ensures Enabled(old(View()), Claim(worker, limit, leaseSeconds, now, picked))
      ensures View() == Apply(cfg, old(View()), Claim(worker, limit, leaseSeconds, now, picked))
      ensures forall id :: id in picked ==> id in old(View())
      ensures r.Ok? ==> |r.value| == |picked|
      ensures r.Ok? ==> forall i :: 0 <= i < |picked| ==> r.value[i] == ItemOf(picked[i], old(View())[picked[i]].row)
      ensures r.Ok? ==> View().Keys == old(View()).Keys
      ensures r.Ok? && KnownPriorities(old(View())) ==>
        && (forall id :: id in old(View()) ==>
              ClaimedAsPromised(old(View()), View(), picked, worker, limit, now + leaseSeconds, now, id))
        && (forall i, j :: 0 <= i < j < |picked| ==> ComesBefore(old(View()), picked[i], picked[j]))
    {
      hide Apply, Enabled, IsPick, EventsOf, Claimed, Readied, DueIds, KnownPriorities, ClaimedAsPromised, ComesBefore;
      hide NoOrphans, Table, ItemOf;
      ghost var before := View();
      picked := [];
      if limit < 1 || leaseSeconds < 1 {
        NothingClaimed(cfg, before, worker, limit, leaseSeconds, now);
        return Err(InvalidClaim), [];
      }
      MakeReady(now);
      var items;
      items, picked := ClaimReady(worker, limit, now + leaseSeconds, now);
      ClaimMeaning(cfg, before, worker, limit, leaseSeconds, now, picked);
      ClaimAsPromised(cfg, before, Claim(worker, limit, leaseSeconds, now, picked));
      ReadyingKeepsItems(before, picked, items, now);
      r := Ok(items);
    }

    /** Leases the first due rows of a table that is ready for claiming. */
    method ClaimReady(worker: string, limit: nat, until: int, now: int) returns (items: seq<Item>, ghost picked: seq<string>)
      requires Valid()
      modifies this
      ensures Valid()
      ensures IsPick(old(View()), DueIds(old(View()), now), limit, picked)
      ensures View() == Claimed(old(View()), picked, worker, until, now)
      ensures |items| == |picked|
      ensures forall i :: 0 <= i < |picked| ==>
        picked[i] in old(View()) && items[i] == ItemOf(picked[i], old(View())[picked[i]].row)
    {
      var ids := SelectDue(limit, now);
      picked := ids;
      forall i | 0 <= i < |ids| ensures ids[i] in rows && Due(rows[ids[i]], now) {
        assert ids[i] in DueIds(View(), now);
      }
      assert forall i, j :: 0 <= i < j < |ids| ==> ids[i] != ids[j];
      hide IsPick, Claimed, EventsOf, Due;
      items := LeaseAll(ids, worker, until, now);
    }

    /** Expires what is overdue, then reclaims lapsed leases. */
    method MakeReady(now: int)
      requires Valid()
      modifies this
      ensures Valid() && View() == Readied(old(View()), now)
    {
      var _ := Expire(now);
      Reclaim(now);
    }

    method LeaseAll(ids: seq<string>, worker: string, until: int, now: int) returns (items: seq<Item>)
      requires Valid() && forall i :: 0 <= i < |ids| ==> ids[i] in rows && Due(rows[ids[i]], now)
      requires forall i, j :: 0 <= i < j < |ids| ==> ids[i] != ids[j]
      modifies this
      ensures Valid() && View() == Claimed(old(View()), ids, worker, until, now)
      ensures |items| == |ids|
      ensures forall i :: 0 <= i < |ids| ==> ids[i] in old(rows) && items[i] == ItemOf(ids[i], old(rows)[ids[i]])
    {
      ghost var before := View();
      items := [];
      assert Claimed(before, ids[..0], worker, until, now) == before;
      assert forall i :: 0 <= i < |ids| ==> ids[i] in before && before[ids[i]].row == rows[ids[i]];
      hide EventsOf, Due, Claimed, NoOrphans;
      for i := 0 to |ids|
        invariant Valid() && View() == Claimed(before, ids[..i], worker, until, now)
        invariant |items| == i && forall k :: 0 <= k < i ==> items[k] == ItemOf(ids[k], before[ids[k]].row)
      {
        var id := ids[i];
        ClaimedStep(before, ids, i, worker, until, now);
        assert View()[id] == before[id];
        var row := rows[id];
        Record(id, row.(state := InFlight, leaseOwner := Some(worker), leaseUntil := Some(until), updatedAt := now),
               now, AttemptStarted(worker));
        items := items + [ItemOf(id, row)];
      }
      assert ids[..|ids|] == ids;
    }

    method Fail(id: string, worker: string, error: string, now: int, retryable: bool, u: Draw)
        returns (r: Result<State, QueueError>)
      requires Valid()
      modifies this
      ensures Valid()
      ensures View() == Apply(cfg, old(View()), Op.Fail(id, worker, error, now, retryable, u))
      ensures r == if id !in old(rows) then Err(UnknownMessage)
                   else if !LeasedTo(old(rows)[id], worker) then Err(NotOwner)
                   else Ok(View()[id].row.state)
      ensures r.Ok? ==> id in View() && FailedAs(cfg, old(View())[id], View()[id], error, now, retryable)
      ensures r.Ok? ==> (r.value.Expired? <==> now >= old(rows)[id].expiresAt)
      ensures r.Ok? && now < old(rows)[id].expiresAt ==>
        (r.value.RetryWait? <==> retryable && old(rows)[id].attempts + 1 < cfg.policy.maxAttempts)
      ensures r.Ok? && now < old(rows)[id].expiresAt && !r.value.RetryWait? ==> r.value.Rejected?
    {
      if id in rows && LeasedTo(rows[id], worker) {
        FailureAnswers(cfg, View(), Op.Fail(id, worker, error, now, retryable, u));
      }
      hide FailedAs, Delay, Clip, EventsOf, NoOrphans;
      if id !in rows {
        return Err(UnknownMessage);
      }
      var row := rows[id];
      if !row.state.InFlight? || row.leaseOwner != Some(worker) {
        return Err(NotOwner);
      }
      var attempt := row.attempts + 1;
      var state, next;
      if now >= row.expiresAt {
        state, next := Expired, now;
      } else if !retryable || attempt >= cfg.policy.maxAttempts {
        state, next := Rejected, now;
      } else {
        state, next := RetryWait, now + Delay(cfg.policy, attempt, u).value;
      }
      Record(id,
             row.(state := state, attempts := attempt, lastError := Some(Clip(error)), nextAttemptAt := next,
                  leaseOwner := None, leaseUntil := None, updatedAt := now),
             now,
             DeliveryFailed(attempt, Clip(error), retryable,
                            if state == RetryWait then Some(next) else None,
                            if Terminal(state) then Some(state) else None));
      r := Ok(state);
    }

    method AcknowledgeDelivery(id: string, worker: string, receipt: string, now: int) returns (r: Result<(), QueueError>)
      requires Valid()
      modifies this
      ensures Valid()
      ensures View() == Apply(cfg, old(View()), Op.Acknowledge(id, worker, receipt, now))
      ensures r == if id !in old(rows) then Err(UnknownMessage)
                   else if !LeasedTo(old(rows)[id], worker) then Err(NotOwner)
                   else Ok(())
    {
      if id !in rows {
        return Err(UnknownMessage);
      }
      if !rows[id].state.InFlight? || rows[id].leaseOwner != Some(worker) {
        return Err(NotOwner);
      }
      Record(id,
             rows[id].(state := Delivered, deliveredAt := Some(now), receipt := Some(receipt),
                       leaseOwner := None, leaseUntil := None, updatedAt := now),
             now, WasDelivered(receipt));
      r := Ok(());
    }

    method TransferCustody(id: string, worker: string, office: string, receipt: string, now: int)
        returns (r: Result<(), QueueError>)
      requires Valid()
      modifies this
      ensures Valid()
      ensures View() == Apply(cfg, old(View()), Op.Transfer(id, worker, office, receipt, now))
      ensures r == if id !in old(rows) then Err(UnknownMessage)
                   else if !LeasedTo(old(rows)[id], worker) then Err(NotOwner)
                   else Ok(())
    {
      if id !in rows {
        return Err(UnknownMessage);
      }
      if !rows[id].state.InFlight? || rows[id].leaseOwner != Some(worker) {
        return Err(NotOwner);
      }
      Record(id,
             rows[id].(state := CustodyTransferred, custodyOffice := Some(office), receipt := Some(receipt),
                       leaseOwner := None, leaseUntil := None, updatedAt := now),
             now, WasTransferred(office, receipt));
      r := Ok(());
    }

    method Cancel(id: string, reason: string, now: int) returns (r: Result<bool, QueueError>)
      requires Valid()
      modifies this
      ensures Valid()
      ensures View() == Apply(cfg, old(View()), Op.Cancel(id, reason, now))
      ensures r == if id !in old(rows) then Err(UnknownMessage)
                   else Ok(Open(old(rows)[id].state) && !old(rows)[id].state.CustodyTransferred?)
    {
      if id !in rows {
        return Err(UnknownMessage);
      }
      if Terminal(rows[id].state) || rows[id].state.CustodyTransferred? {
        return Ok(false);
      }
      Record(id,
             rows[id].(state := Cancelled, lastError := Some(Clip(reason)),
                       leaseOwner := None, leaseUntil := None, updatedAt := now),
             now, WasCancelled(Clip(reason)));
      r := Ok(true);
    }

    /** Handles one leased message as the sender directs; a raised error is a retryable failure. */
    method SettleOne(id: string, worker: string, outcome: SenderOutcome, now: int, u: Draw) returns (state: State)
      requires Valid() && id in View() && Owns(View()[id].row, worker) && now < View()[id].row.expiresAt
      modifies this
      ensures Valid()
      ensures View() == old(View())[id := Settle(cfg, old(View())[id], outcome, now, u)]
      ensures state == View()[id].row.state
      ensures state.Delivered? <==> outcome.SentDelivered?
      ensures state.CustodyTransferred? <==> NamesAnOffice(outcome)
      ensures state.RetryWait? <==> MayTryAgain(outcome) && HasAttemptsLeft(cfg, old(View())[id].row)
      ensures Settled(state)
    {
      var error, retryable := "", true;
      match outcome {
        case SentDelivered(receipt) =>
          var _ := AcknowledgeDelivery(id, worker, receipt, now);
          return Delivered;
        case SentCustody(office, receipt) =>
          if office.Some? && office.value != "" {
            var _ := TransferCustody(id, worker, office.value, receipt, now);
            return CustodyTransferred;
          }
          error := CUSTODY_OFFICE_REQUIRED;
        case SentOther(name) =>
          error, retryable := "unsupported outcome: " + name, false;
        case Raised(message) =>
          error := message;
      }
      var r := Fail(id, worker, error, now, retryable, u);
      state := r.value;
    }

    /** Handles every leased item in turn, counting how each one ends. */
    method SettleAll(items: seq<Item>, worker: string, sender: Item -> SenderOutcome, now: int, draws: string -> Draw)
        returns (counts: Counts)
      requires Valid() && AllLeased(View(), IdsOf(items), worker, now) && ItemsDescribe(View(), items)
      modifies this
      ensures Valid() && View() == SettledQueue(cfg, old(View()), IdsOf(items), sender, now, draws)
      ensures forall id :: id in IdsOf(items) ==> id in View()
      ensures counts == Tally(View(), IdsOf(items))
    {
      hide Settle, EventsOf, Owns, Tally, Count, SettledQueue, NoOrphans, AllLeased, ItemsDescribe, IdsOf, Table;
      counts := Counts(0, 0, 0, 0, 0);
      ghost var s, v, ids := View(), View(), IdsOf(items);
      NoneSettled(cfg, s, items, worker, sender, now, draws);
      for i := 0 to |items|
        invariant Valid() && View() == v == SettledQueue(cfg, s, ids[..i], sender, now, draws)
        invariant v.Keys == s.Keys
        invariant counts == Tally(v, ids[..i])
      {
        NextSettled(cfg, s, items, i, worker, sender, now, draws);
        var state := SettleOne(items[i].messageId, worker, sender(items[i]), now, draws(items[i].messageId));
        v := View();
        counts := Count(counts, state);
      }
      assert ids[..|items|] == ids;
    }

    /** One pass over the due messages, with a sender that leaves the queue alone. */
    method ProcessOnce(worker: string, sender: Item -> SenderOutcome, limit: int, now: int, draws: string -> Draw)
        returns (r: Result<Counts, QueueError>, ghost picked: seq<string>)
      requires Valid()
      modifies this
      ensures Valid()
      ensures r.Err? <==> limit < 1
      ensures r.Err? ==> View() == old(View())
      ensures Enabled(old(View()), Claim(worker, limit, 60, now, picked))
      ensures r.Ok? ==>
        View() == SettledQueue(cfg, Apply(cfg, old(View()), Claim(worker, limit, 60, now, picked)), picked, sender, now, draws)
      ensures r.Ok? ==> (forall id :: id in picked ==> id in View()) && r.value == Tally(View(), picked)
      ensures r.Ok? ==> (forall id :: id in picked ==> id in old(View()))
      ensures r.Ok? ==> CountsReports(cfg, old(View()), picked, sender, r.value)
      ensures r.Ok? ==>
        r.value.claimed == r.value.delivered + r.value.transferred + r.value.retry + r.value.rejected
    {
      var claimed;
      ghost var before := View();
      claimed, picked := ClaimDue(worker, limit, 60, now);
      if claimed.Err? {
        assert Apply(cfg, before, Claim(worker, limit, 60, now, picked)) == before;
        return Err(claimed.error), picked;
      }
      ghost var s := View();
      var items := claimed.value;
      LeasedByClaim(cfg, before, worker, limit, now, picked, items);
      hide Apply, Enabled, IsPick, Settle, EventsOf, Owns, Tally, AllLeased, ItemsDescribe;
      var counts := SettleAll(items, worker, sender, now, draws);
      SettledTally(cfg, s, picked, worker, sender, now, draws);
      SettledCountsReports(cfg, s, picked, worker, sender, now, draws);
      hide CountsReports, ItemOf, SettledQueue;
      ClaimKeepsReports(cfg, before, s, picked, sender, counts);
      r := Ok(counts);
    }
  }

  lemma LeasedByClaim(cfg: Config, before: Queue, worker: string, limit: int, now: int, picked: seq<string>, items: seq<Item>)
    requires limit >= 1 && Enabled(before, Claim(worker, limit, 60, now, picked)) && |items| == |picked|
    requires forall i :: 0 <= i < |picked| ==> picked[i] in before && items[i] == ItemOf(picked[i], before[picked[i]].row)
    ensures var s := Apply(cfg, before, Claim(worker, limit, 60, now, picked));
            && AllLeased(s, picked, worker, now)
            && ItemsDescribe(s, items)
            && (forall id :: id in picked ==>
                  && id in before && id in s
                  && ItemOf(id, before[id].row) == ItemOf(id, s[id].row) && before[id].row.attempts == s[id].row.attempts)
    ensures IdsOf(items) == picked
  {
    var op := Claim(worker, limit, 60, now, picked);
    assert forall i, j :: 0 <= i < j < |picked| ==> picked[i] != picked[j];
    hide IsPick;
    forall i | 0 <= i < |items|
      ensures var s := Apply(cfg, before, op);
              && picked[i] in s && Owns(s[picked[i]].row, worker) && now < s[picked[i]].row.expiresAt
              && items[i] == ItemOf(picked[i], s[picked[i]].row)
              && before[picked[i]].row.attempts == s[picked[i]].row.attempts
    {
      PickedWereFree(before, op, picked[i]);
      ClaimLeasesExactlyThePicked(cfg, before, op, picked[i]);
    }
  }

  lemma ClaimAsPromised(cfg: Config, s: Queue, op: Op)
    requires op.Claim? && op.limit >= 1 && op.leaseSeconds >= 1 && Enabled(s, op)
    ensures Apply(cfg, s, op).Keys == s.Keys
    ensures KnownPriorities(s) ==>
      && (forall id :: id in s ==> ClaimedAsPromised(s, Apply(cfg, s, op), op.picked, op.worker, op.limit,
                                                     op.now + op.leaseSeconds, op.now, id))
      && (forall i, j :: 0 <= i < j < |op.picked| ==> ComesBefore(s, op.picked[i], op.picked[j]))
  {
    assert Apply(cfg, s, op).Keys == s.Keys;
    hide ClaimedAsPromised, ComesBefore, Apply, Enabled;
    if KnownPriorities(s) {
      forall id | id in s
        ensures ClaimedAsPromised(s, Apply(cfg, s, op), op.picked, op.worker, op.limit, op.now + op.leaseSeconds, op.now, id)
      {
        ClaimInFull(cfg, s, op, id);
      }
      PicksAreInOrder(cfg, s, op);
    }
  }

  lemma ClaimMeaning(cfg: Config, s: Queue, worker: string, limit: int, leaseSeconds: int, now: int, picked: seq<string>)
    requires limit >= 1 && leaseSeconds >= 1
    ensures var op := Claim(worker, limit, leaseSeconds, now, picked);
            && (Enabled(s, op) <==> IsPick(Readied(s, now), DueIds(Readied(s, now), now), limit, picked))
            && Apply(cfg, s, op) == Claimed(Readied(s, now), picked, worker, now + leaseSeconds, now)
  {}

  lemma NothingClaimed(cfg: Config, s: Queue, worker: string, limit: int, leaseSeconds: int, now: int)
    requires limit < 1 || leaseSeconds < 1
    ensures var op := Claim(worker, limit, leaseSeconds, now, []); Enabled(s, op) && Apply(cfg, s, op) == s
  {}

  lemma ReadyingKeepsItems(s: Queue, picked: seq<string>, items: seq<Item>, now: int)
    requires |items| == |picked|
    requires var r := Readied(s, now);
             forall i :: 0 <= i < |picked| ==> picked[i] in r && items[i] == ItemOf(picked[i], r[picked[i]].row)
    ensures forall i :: 0 <= i < |picked| ==> picked[i] in s && items[i] == ItemOf(picked[i], s[picked[i]].row)
    ensures forall id :: id in picked ==> id in s
  {
    forall i | 0 <= i < |picked| ensures picked[i] in s && items[i] == ItemOf(picked[i], s[picked[i]].row) {
      assert picked[i] in Readied(s, now);
    }
  }

  lemma BeforeIsTotal(s: Queue)
    ensures forall a, b :: a in s && b in s ==> Before(s, a, b) || Before(s, b, a)
    ensures forall a, b, c :: a in s && b in s && c in s && Before(s, a, b) && Before(s, b, c) ==> Before(s, a, c)
  {
    StrLeqIsTotalOrder();
    hide StrLeq;
  }
}
