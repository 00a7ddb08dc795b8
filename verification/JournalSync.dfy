/**
 The incremental directory journal: a bounded log of changes, the signed deltas
 cut from it, and how a receiver applies them from its checkpoint.
 */
module JournalSync {
  import opened Wrappers
  import opened DirectoryMerge

  // ------------------------------------------------------------ changes and manifests

  datatype Operation = Upsert | Tombstone | OtherOperation

  datatype Change = DirectoryChange(
    sequence: int,
    operation: Operation,
    officeId: string,
    changedAt: int,
    record: Option<Peer>,
    reason: Option<string>)

  datatype WireRecord = WireRecord(identity: Option<Identity>, updatedAt: int)

  /** A received change; an absent field is missing or failed its type check. */
  datatype WireChange =
    | BadChange
    | WireChange(
        sequence: Option<int>,
        officeId: Option<string>,
        operation: Operation,
        changedAt: Option<int>,
        record: Option<WireRecord>,
        reason: Option<string>)

  function Document(c: Change): WireChange {
    WireChange(
      Some(c.sequence), Some(c.officeId), c.operation, Some(c.changedAt),
      if c.record.Some? then Some(WireRecord(Some(c.record.value.identity), c.record.value.updatedAt)) else None,
      c.reason)
  }

  function Documents(cs: seq<Change>): (ws: seq<WireChange>)
    ensures |ws| == |cs| && forall i :: 0 <= i < |cs| ==> ws[i] == Document(cs[i])
  {
    seq(|cs|, i requires 0 <= i < |cs| => Document(cs[i]))
  }

  datatype Manifest = Manifest(
    isDelta: bool,
    officeId: Option<string>,
    changes: Option<seq<WireChange>>,
    from: Option<int>,
    to: Option<int>,
    current: int,
    more: bool,
    signer: Option<Key>)

  // ------------------------------------------------------------ the sender's log

  datatype Log = Log(maxChanges: int, sequence: int, changes: seq<Change>)
  {
    /** The log is a contiguous, bounded run of changes that ends at the current sequence. */
    ghost predicate Valid() {
      && 1 <= maxChanges && |changes| <= maxChanges && |changes| <= sequence
      && (changes == [] ==> sequence == 0)
      && forall i :: 0 <= i < |changes| ==> changes[i].sequence == sequence - |changes| + 1 + i
    }

    function Append(c: Change): Log
      requires Valid()
    {
      var all := changes + [c.(sequence := sequence + 1)];
      Log(maxChanges, sequence + 1, if |all| > maxChanges then all[|all| - maxChanges..] else all)
    }

    function Oldest(): int {
      if changes != [] then changes[0].sequence else sequence + 1
    }
  }

  /** Appending keeps the log a contiguous, bounded suffix that ends at its sequence. */
  lemma AppendKeepsLog(l: Log, c: Change)
    requires l.Valid()
    ensures l.Append(c).Valid() && l.Append(c).sequence == l.sequence + 1
  {
    AppendedAt(l, c);
  }

  /** Appending never empties the log or brings back old numbers, and it drops only the oldest changes. */
  lemma AppendDropsOnlyTheOldest(l: Log, c: Change)
    requires l.Valid()
    ensures l.Append(c).changes != [] && l.Append(c).Oldest() >= l.Oldest()
    ensures forall d :: d in l.changes && d.sequence >= l.Append(c).Oldest() ==> d in l.Append(c).changes
  {
    AppendedAt(l, c);
    forall d | d in l.changes && d.sequence >= l.Append(c).Oldest() ensures d in l.Append(c).changes {
      var i :| 0 <= i < |l.changes| && l.changes[i] == d;
      assert l.Append(c).changes[i - (|l.changes| + 1 - |l.Append(c).changes|)] == d;
    }
  }

  lemma AppendedAt(l: Log, c: Change)
    requires l.Valid()
    ensures var kept := l.Append(c).changes;
            var dropped := |l.changes| + 1 - |kept|;
            && 1 <= |kept| <= l.maxChanges && dropped >= 0
            && (forall i :: 0 <= i < |kept| - 1 ==> kept[i] == l.changes[i + dropped])
            && kept[|kept| - 1] == c.(sequence := l.sequence + 1)
  {}

  function After(cs: seq<Change>, since: int): seq<Change> {
    if cs == [] then []
    else (if cs[0].sequence > since then [cs[0]] else []) + After(cs[1..], since)
  }

  function Take<T>(s: seq<T>, n: nat): seq<T> {
    if |s| <= n then s else s[..n]
  }

  datatype DeltaError = InvalidDeltaRequest | CheckpointExpired(oldest: int, current: int)

  function ManifestSince(l: Log, office: string, key: Key, since: int, limit: int): Result<Manifest, DeltaError> {
    if since < 0 || limit < 1 || limit > l.maxChanges then Err(InvalidDeltaRequest)
    else if l.changes != [] && since < l.Oldest() - 1 then Err(CheckpointExpired(l.Oldest(), l.sequence))
    else
      var selected := Take(After(l.changes, since), limit);
      var to := if selected == [] then since else selected[|selected| - 1].sequence;
      Ok(Manifest(true, Some(office), Some(Documents(selected)), Some(since), Some(to), l.sequence,
                  After(l.changes, to) != [], Some(key)))
  }

  /** In a contiguous log, the changes after a retained checkpoint are a plain suffix. */
  lemma {:induction false} AfterIsSuffix(cs: seq<Change>, first: int, since: int)
    requires forall i :: 0 <= i < |cs| ==> cs[i].sequence == first + i
    ensures var n := if since < first then 0 else if since >= first + |cs| then |cs| else since - first + 1;
            After(cs, since) == cs[n..]
  {
    if cs != [] {
      assert forall i :: 0 <= i < |cs[1..]| ==> cs[1..][i] == cs[i + 1];
      AfterIsSuffix(cs[1..], first + 1, since);
    }
  }

  ghost function Pending(l: Log, since: int): seq<Change>
    requires l.Valid() && l.Oldest() - 1 <= since <= l.sequence
  {
    l.changes[|l.changes| - (l.sequence - since)..]
  }

  lemma PendingIsAfter(l: Log, since: int)
    requires l.Valid() && l.Oldest() - 1 <= since <= l.sequence
    ensures After(l.changes, since) == Pending(l, since)
    ensures |Pending(l, since)| == l.sequence - since
    ensures forall i :: 0 <= i < |Pending(l, since)| ==> Pending(l, since)[i].sequence == since + 1 + i
  {
    AfterIsSuffix(l.changes, l.sequence - |l.changes| + 1, since);
  }

  // ------------------------------------------------------------ the receiver

  datatype Receiver = Receiver(own: string, maxChanges: int, peers: Peers, checkpoints: map<string, int>)
  {
    function Checkpoint(source: string): int {
      if source in checkpoints then checkpoints[source] else 0
    }
  }

  datatype DeltaCounts = DeltaCounts(applied: nat, tombstoned: nat, skipped: nat, rejected: nat)

  datatype Scan = Scan(peers: Peers, last: int, counts: DeltaCounts)

  function Rejected(s: Scan): Scan { s.(counts := s.counts.(rejected := s.counts.rejected + 1)) }
  function Skip(s: Scan): Scan { s.(counts := s.counts.(skipped := s.counts.skipped + 1)) }

  predicate UpsertIsValid(w: WireChange)
    requires w.WireChange? && w.officeId.Some?
  {
    && w.record.Some? && w.record.value.identity.Some?
    && w.record.value.identity.value.officeId == w.officeId.value
    && w.record.value.identity.value.selfSigned
  }

  /** A tombstone leaves everything but the withdrawal and where it was learned from. */
  function Retired(source: string, now: int, p: Peer, w: WireChange): Peer
    requires w.WireChange?
  {
    var at := if w.changedAt.Some? then w.changedAt.value else now;
    var reason := if w.reason.Some? then w.reason.value else "withdrawn";
    p.(withdrawn := Some(Withdrawal(at, reason)), source := Some(source), sequence := w.sequence)
  }

  /** What the loop of `apply_manifest` does with one received change. */
  function ScanOne(own: string, source: string, now: int, s: Scan, w: WireChange): Scan {
    if w.BadChange? then Rejected(s)
    else if w.sequence.None? || w.sequence.value <= s.last || w.officeId.None? then Rejected(s)
    else
      var t, o := s.(last := w.sequence.value), w.officeId.value;
      if o == own then Skip(t)
      else
        match w.operation
        case Upsert =>
          if !UpsertIsValid(w) then Rejected(t)
          else
            var record := w.record.value;
            if o in t.peers && record.updatedAt <= t.peers[o].updatedAt then Skip(t)
            else
              var standing := if o in t.peers then t.peers[o].trust else PeerObserved;
              var imported := Peer(o, record.identity.value, standing, record.updatedAt, true,
                                   Some(source), Some(w.sequence.value), None);
              t.(peers := t.peers[o := imported], counts := t.counts.(applied := t.counts.applied + 1))
        case Tombstone =>
          if o !in t.peers then Skip(t)
          else
            t.(peers := t.peers[o := Retired(source, now, t.peers[o], w)],
               counts := t.counts.(tombstoned := t.counts.tombstoned + 1))
        case OtherOperation => Rejected(t)
  }

  function ScanAll(own: string, source: string, now: int, s: Scan, ws: seq<WireChange>): Scan {
    if ws == [] then s
    else ScanOne(own, source, now, ScanAll(own, source, now, s, ws[..|ws| - 1]), ws[|ws| - 1])
  }

  datatype ApplyError =
    | InvalidManifest | InvalidRange | UnknownDeltaSource | RestrictedDeltaSource | InvalidDeltaSignature
    | CheckpointMismatch(expected: int, received: int)
    | SequenceMismatch

  /** Why a manifest is turned away before its changes are read. */
  function ApplyRefusal(r: Receiver, m: Manifest): Option<ApplyError> {
    if !m.isDelta || m.officeId.None? || m.changes.None? || m.from.None? || m.to.None? then Some(InvalidManifest)
    else if |m.changes.value| > r.maxChanges || m.to.value < m.from.value then Some(InvalidRange)
    else
      var source := m.officeId.value;
      if source !in r.peers then Some(UnknownDeltaSource)
      else if r.peers[source].trust == PeerRestricted then Some(RestrictedDeltaSource)
      else if m.signer != Some(r.peers[source].identity.key) then Some(InvalidDeltaSignature)
      else if m.from.value != r.Checkpoint(source) then
        Some(CheckpointMismatch(r.Checkpoint(source), m.from.value))
      else None
  }

  const NO_COUNTS := DeltaCounts(0, 0, 0, 0)

  function Scanned(r: Receiver, m: Manifest, now: int): Scan
    requires ApplyRefusal(r, m).None?
  {
    ScanAll(r.own, m.officeId.value, now, Scan(r.peers, m.from.value, NO_COUNTS), m.changes.value)
  }

  function ApplyResult(r: Receiver, m: Manifest, now: int): Result<DeltaCounts, ApplyError> {
    if ApplyRefusal(r, m).Some? then Err(ApplyRefusal(r, m).value)
    else if m.changes.value != [] && Scanned(r, m, now).last != m.to.value then Err(SequenceMismatch)
    else Ok(Scanned(r, m, now).counts)
  }

  /** The receiver after a manifest: on a sequence mismatch its peers have changed, but not its checkpoint. */
  function Applied(r: Receiver, m: Manifest, now: int): Receiver {
    if ApplyRefusal(r, m).Some? then r
    else
      var r' := r.(peers := Scanned(r, m, now).peers);
      if ApplyResult(r, m, now).Err? then r'
      else r'.(checkpoints := r.checkpoints[m.officeId.value := m.to.value])
  }

  // ------------------------------------------------------------ one fold over the sender's changes

  /** The intended effect of one change on a receiver's peers. */
  function Effect(own: string, source: string, p: Peers, c: Change): Peers {
    if c.officeId == own then p
    else
      match c.operation
      case Upsert =>
        if c.record.None? || c.record.value.identity.officeId != c.officeId || !c.record.value.identity.selfSigned then p
        else if c.officeId in p && c.record.value.updatedAt <= p[c.officeId].updatedAt then p
        else p[c.officeId := Peer(
          c.officeId, c.record.value.identity,
          if c.officeId in p then p[c.officeId].trust else PeerObserved,
          c.record.value.updatedAt, true, Some(source), Some(c.sequence), None)]
      case Tombstone =>
        if c.officeId !in p then p
        else p[c.officeId := p[c.officeId].(
          withdrawn := Some(Withdrawal(c.changedAt, if c.reason.Some? then c.reason.value else "withdrawn")),
          source := Some(source), sequence := Some(c.sequence))]
      case OtherOperation => p
  }

  function EffectAll(own: string, source: string, p: Peers, cs: seq<Change>): Peers {
    if cs == [] then p
    else Effect(own, source, EffectAll(own, source, p, cs[..|cs| - 1]), cs[|cs| - 1])
  }

  lemma {:induction false} EffectAllConcat(own: string, source: string, p: Peers, a: seq<Change>, b: seq<Change>)
    ensures EffectAll(own, source, p, a + b) == EffectAll(own, source, EffectAll(own, source, p, a), b)
  {
    if b == [] {
      assert a + b == a;
    } else {
      assert (a + b)[..|a + b| - 1] == a + b[..|b| - 1];
      EffectAllConcat(own, source, p, a, b[..|b| - 1]);
    }
  }

  lemma ScanOneHasTheEffect(own: string, source: string, now: int, s: Scan, c: Change)
    requires c.sequence > s.last
    ensures ScanOne(own, source, now, s, Document(c)).peers == Effect(own, source, s.peers, c)
    ensures ScanOne(own, source, now, s, Document(c)).last == c.sequence
  {}

  /** Scanning the documents of consecutive changes has the effect of the changes and ends at the last of them. */
  lemma {:induction false} ScanHasTheEffect(own: string, source: string, now: int, p: Peers, from: int, cs: seq<Change>)
    requires forall i :: 0 <= i < |cs| ==> cs[i].sequence == from + 1 + i
    ensures var s := ScanAll(own, source, now, Scan(p, from, NO_COUNTS), Documents(cs));
            && s.peers == EffectAll(own, source, p, cs)
            && s.last == from + |cs|
  {
    if cs != [] {
      hide ScanOne, Effect;
      var n := |cs| - 1;
      ScanHasTheEffect(own, source, now, p, from, cs[..n]);
      assert Documents(cs)[..n] == Documents(cs[..n]);
      ScanOneHasTheEffect(own, source, now, ScanAll(own, source, now, Scan(p, from, NO_COUNTS), Documents(cs[..n])), cs[n]);
    }
  }

  // ------------------------------------------------------------ pulling in chunks

  ghost predicate Trusts(p: Peers, source: string, key: Key) {
    source in p && p[source].trust != PeerRestricted && p[source].identity.key == key
  }

  /** Deltas never change the trust of a known peer, so only a new key can end the trust in the source. */
  lemma OnlyANewKeyEndsTrust(own: string, source: string, p: Peers, cs: seq<Change>, key: Key)
    requires Trusts(p, source, key)
    ensures source in EffectAll(own, source, p, cs)
    ensures Trusts(EffectAll(own, source, p, cs), source, key) <==> EffectAll(own, source, p, cs)[source].identity.key == key
  {
    EffectsKeepStanding(own, source, p, cs);
  }

  lemma {:induction false} EffectsKeepStanding(own: string, source: string, p: Peers, cs: seq<Change>)
    requires source in p
    ensures source in EffectAll(own, source, p, cs) && EffectAll(own, source, p, cs)[source].trust == p[source].trust
  {
    if cs != [] {
      EffectsKeepStanding(own, source, p, cs[..|cs| - 1]);
    }
  }

  /** A receiver that trusts the sender's key and has not fallen behind the sender's log. */
  ghost predicate CanPull(r: Receiver, l: Log, source: string, key: Key) {
    && l.Valid()
    && Trusts(r.peers, source, key)
    && 0 <= r.Checkpoint(source) && l.Oldest() - 1 <= r.Checkpoint(source) <= l.sequence
  }

  function PullOnce(r: Receiver, l: Log, source: string, key: Key, limit: int, now: int): Receiver {
    var m := ManifestSince(l, source, key, r.Checkpoint(source), limit);
    if m.Err? then r else Applied(r, m.value, now)
  }

  /** The manifest that carries a run of changes right after `since`. */
  function Delta(source: string, key: Key, since: int, chunk: seq<Change>, current: int): Manifest {
    Manifest(true, Some(source), Some(Documents(chunk)), Some(since), Some(since + |chunk|), current,
             since + |chunk| < current, Some(key))
  }

  lemma NextManifest(l: Log, source: string, key: Key, since: int, limit: int)
    requires l.Valid() && 0 <= since && l.Oldest() - 1 <= since <= l.sequence && 1 <= limit <= l.maxChanges
    ensures ManifestSince(l, source, key, since, limit) ==
              Ok(Delta(source, key, since, Take(Pending(l, since), limit), l.sequence))
  {
    hide After, Pending, Documents;
    PendingIsAfter(l, since);
    var chunk := Take(Pending(l, since), limit);
    PendingIsAfter(l, since + |chunk|);
    hide Log.Valid;
    assert chunk != [] ==> chunk[|chunk| - 1].sequence == since + |chunk|;
  }

  lemma LaterPending(l: Log, since: int, n: nat)
    requires l.Valid() && l.Oldest() - 1 <= since && since + n <= l.sequence
    ensures n <= |Pending(l, since)| && Pending(l, since + n) == Pending(l, since)[n..]
  {}

  lemma ChunkOfPending(l: Log, since: int, limit: nat)
    requires l.Valid() && l.Oldest() - 1 <= since <= l.sequence
    ensures var chunk := Take(Pending(l, since), limit);
            && (forall i :: 0 <= i < |chunk| ==> chunk[i].sequence == since + 1 + i)
            && since + |chunk| <= l.sequence
            && Pending(l, since + |chunk|) == Pending(l, since)[|chunk|..]
  {
    hide Pending, After;
    PendingIsAfter(l, since);
    var pending := Pending(l, since);
    var n := if |pending| <= limit then |pending| else limit;
    assert Take(pending, limit) == pending[..n];
    LaterPending(l, since, n);
  }

  /** The receiver after the effect of some changes, its checkpoint moved past them. */
  ghost function Advanced(r: Receiver, source: string, cs: seq<Change>): Receiver {
    r.(peers := EffectAll(r.own, source, r.peers, cs),
       checkpoints := r.checkpoints[source := r.Checkpoint(source) + |cs|])
  }

  lemma AppliedChunk(r: Receiver, source: string, key: Key, since: int, cs: seq<Change>, current: int, now: int)
    requires Trusts(r.peers, source, key) && r.Checkpoint(source) == since && |cs| <= r.maxChanges
    requires forall i :: 0 <= i < |cs| ==> cs[i].sequence == since + 1 + i
    ensures ApplyResult(r, Delta(source, key, since, cs, current), now).Ok?
    ensures Applied(r, Delta(source, key, since, cs, current), now) == Advanced(r, source, cs)
  {
    ScanHasTheEffect(r.own, source, now, r.peers, since, cs);
    hide ScanAll, EffectAll;
  }

  ghost function NextChunk(r: Receiver, l: Log, source: string, limit: nat): seq<Change>
    requires l.Valid() && l.Oldest() - 1 <= r.Checkpoint(source) <= l.sequence
  {
    Take(Pending(l, r.Checkpoint(source)), limit)
  }

  /** After a pull the rest is pending, and it can be pulled exactly when the source is still trusted under its key. */
  lemma AdvancedCanPull(r: Receiver, l: Log, source: string, key: Key, limit: nat)
    requires CanPull(r, l, source, key)
    ensures var chunk := NextChunk(r, l, source, limit);
            var r' := Advanced(r, source, chunk);
            && 0 <= r'.Checkpoint(source) && l.Oldest() - 1 <= r'.Checkpoint(source) <= l.sequence
            && Pending(l, r'.Checkpoint(source)) == Pending(l, r.Checkpoint(source))[|chunk|..]
            && (CanPull(r', l, source, key) <==> Trusts(r'.peers, source, key))
  {
    ChunkOfPending(l, r.Checkpoint(source), limit);
    hide Pending, EffectAll, Trusts;
  }

  /** A limit that the sender allows and the receiver can take. */
  predicate LimitFits(sending: int, receiving: int, limit: int) {
    1 <= limit <= sending && limit <= receiving
  }

  ghost predicate LimitsFit(sending: int, receiving: int, limits: seq<int>) {
    forall n :: n in limits ==> LimitFits(sending, receiving, n)
  }

  lemma LimitsFitInTurn(sending: int, receiving: int, limits: seq<int>)
    requires LimitsFit(sending, receiving, limits) && limits != []
    ensures LimitFits(sending, receiving, limits[0]) && LimitsFit(sending, receiving, limits[1..])
  {
    assert limits[0] in limits && forall n :: n in limits[1..] ==> n in limits;
  }

  /** One pull is accepted, applies exactly the next `limit` pending changes, and says truly whether more remain. */
  lemma OnePull(r: Receiver, l: Log, source: string, key: Key, limit: int, now: int)
    requires CanPull(r, l, source, key) && LimitFits(l.maxChanges, r.maxChanges, limit)
    ensures var m := ManifestSince(l, source, key, r.Checkpoint(source), limit);
            && m.Ok? && ApplyResult(r, m.value, now).Ok?
            && (m.value.more <==> PullOnce(r, l, source, key, limit, now).Checkpoint(source) < l.sequence)
    ensures PullOnce(r, l, source, key, limit, now) == Advanced(r, source, NextChunk(r, l, source, limit))
  {
    var since, chunk := r.Checkpoint(source), NextChunk(r, l, source, limit);
    hide ManifestSince, Pending, EffectAll, ApplyResult, Applied, Trusts, Documents, After, Take;
    NextManifest(l, source, key, since, limit);
    ChunkOfPending(l, since, limit);
    assert |chunk| <= limit by { TakeIsShort(Pending(l, since), limit); }
    AppliedChunk(r, source, key, since, chunk, l.sequence, now);
    assert Delta(source, key, since, chunk, l.sequence).more <==> since + |chunk| < l.sequence;
    hide Delta, Log.Valid;
  }

  lemma TakeIsShort<T>(s: seq<T>, n: nat)
    ensures |Take(s, n)| <= n
  {}

  /** Pulling again and again with the given limits. */
  function PullAll(r: Receiver, l: Log, source: string, key: Key, limits: seq<int>, now: int): Receiver
    decreases |limits|
  {
    if limits == [] then r
    else PullAll(PullOnce(r, l, source, key, limits[0], now), l, source, key, limits[1..], now)
  }

  function Sum(limits: seq<int>): int {
    if limits == [] then 0 else limits[0] + Sum(limits[1..])
  }

  lemma {:induction false} SumIsPositive(sending: int, receiving: int, limits: seq<int>)
    requires LimitsFit(sending, receiving, limits)
    ensures Sum(limits) >= |limits|
    decreases |limits|
  {
    if limits != [] {
      LimitsFitInTurn(sending, receiving, limits);
      SumIsPositive(sending, receiving, limits[1..]);
    }
  }

  /** A receiver that holds another key for the source refuses every delta from it and stays as it is. */
  lemma {:induction false} RekeyedSourceIsRefused(r: Receiver, l: Log, source: string, key: Key, limits: seq<int>, now: int)
    requires source in r.peers && r.peers[source].identity.key != key
    ensures PullAll(r, l, source, key, limits, now) == r
    decreases |limits|
  {
    if limits != [] {
      RekeyedSourceIsRefused(r, l, source, key, limits[1..], now);
    }
  }

  lemma {:induction false} SumOfPrefix(sending: int, receiving: int, limits: seq<int>, j: nat)
    requires LimitsFit(sending, receiving, limits) && j <= |limits|
    ensures Sum(limits[..j]) >= j
  {
    assert forall n :: n in limits[..j] ==> n in limits;
    SumIsPositive(sending, receiving, limits[..j]);
  }

  /**
   Before every pull that still has something to fetch, the receiver trusts the source under its key:
   the peers after the changes that the earlier limits cover have not replaced it.
   */
  ghost predicate TrustedAtCuts(r: Receiver, l: Log, source: string, key: Key, limits: seq<int>)
    requires l.Valid() && l.Oldest() - 1 <= r.Checkpoint(source) <= l.sequence
  {
    forall j :: 0 <= j < |limits| ==> TrustedAt(r, l, source, key, Sum(limits[..j]))
  }

  ghost predicate TrustedAt(r: Receiver, l: Log, source: string, key: Key, n: int)
    requires l.Valid() && l.Oldest() - 1 <= r.Checkpoint(source) <= l.sequence
  {
    var pending := Pending(l, r.Checkpoint(source));
    0 <= n < |pending| ==> Trusts(EffectAll(r.own, source, r.peers, pending[..n]), source, key)
  }

  lemma SplitPrefix<T>(s: seq<T>, a: nat, b: nat)
    requires a + b <= |s|
    ensures s[..a + b] == s[..a] + s[a..][..b]
  {}

  /** A later cut is the same cut seen from the receiver after the first pull. */
  lemma CutMovesOn(r: Receiver, l: Log, source: string, key: Key, limit: nat, n: nat)
    requires CanPull(r, l, source, key)
    ensures var r' := Advanced(r, source, NextChunk(r, l, source, limit));
            && l.Oldest() - 1 <= r'.Checkpoint(source) <= l.sequence
            && (TrustedAt(r, l, source, key, limit + n) <==> TrustedAt(r', l, source, key, n))
  {
    AdvancedCanPull(r, l, source, key, limit);
    hide CanPull, Pending, EffectAll, Trusts, Log.Valid, Log.Oldest;
    var pending := Pending(l, r.Checkpoint(source));
    var chunk := NextChunk(r, l, source, limit);
    if limit + n < |pending| {
      SplitPrefix(pending, limit, n);
      EffectAllConcat(r.own, source, r.peers, chunk, pending[|chunk|..][..n]);
    }
  }

  lemma CutsMoveOn(r: Receiver, l: Log, source: string, key: Key, limits: seq<int>)
    requires CanPull(r, l, source, key) && LimitsFit(l.maxChanges, r.maxChanges, limits) && limits != []
    ensures limits[0] >= 1
    ensures var r' := Advanced(r, source, NextChunk(r, l, source, limits[0]));
            && l.Oldest() - 1 <= r'.Checkpoint(source) <= l.sequence
            && (TrustedAtCuts(r, l, source, key, limits) <==> TrustedAtCuts(r', l, source, key, limits[1..]))
  {
    LimitsFitInTurn(l.maxChanges, r.maxChanges, limits);
    CutMovesOn(r, l, source, key, limits[0], 0);
    assert TrustedAt(r, l, source, key, Sum(limits[..0])) by {
      StartIsTrusted(r, l, source, key);
    }
    var r' := Advanced(r, source, NextChunk(r, l, source, limits[0]));
    hide TrustedAt, Advanced, NextChunk, TrustedAtCuts;
    forall j | 0 <= j < |limits| - 1
      ensures TrustedAt(r, l, source, key, Sum(limits[..j + 1])) <==> TrustedAt(r', l, source, key, Sum(limits[1..][..j]))
    {
      assert limits[..j + 1][1..] == limits[1..][..j];
      SumOfPrefix(l.maxChanges, r.maxChanges, limits[1..], j);
      CutMovesOn(r, l, source, key, limits[0], Sum(limits[1..][..j]));
    }
    hide CanPull, TrustedAt, LimitsFit, Advanced, Log.Valid, Log.Oldest, Sum;
    CutsShift(r, r', l, source, key, limits);
  }

  lemma CutsShift(r: Receiver, r': Receiver, l: Log, source: string, key: Key, limits: seq<int>)
    requires l.Valid() && limits != []
    requires l.Oldest() - 1 <= r.Checkpoint(source) <= l.sequence && l.Oldest() - 1 <= r'.Checkpoint(source) <= l.sequence
    requires TrustedAt(r, l, source, key, Sum(limits[..0]))
    requires forall j :: 0 <= j < |limits| - 1 ==>
               (TrustedAt(r, l, source, key, Sum(limits[..j + 1])) <==> TrustedAt(r', l, source, key, Sum(limits[1..][..j])))
    ensures TrustedAtCuts(r, l, source, key, limits) <==> TrustedAtCuts(r', l, source, key, limits[1..])
  {
    hide TrustedAt, Log.Valid, Log.Oldest, Sum;
    if TrustedAtCuts(r', l, source, key, limits[1..]) {
      forall j | 0 <= j < |limits|
        ensures TrustedAt(r, l, source, key, Sum(limits[..j]))
      {
        if j > 0 {
          assert TrustedAt(r', l, source, key, Sum(limits[1..][..j - 1]));
          assert (j - 1) + 1 == j;
        }
      }
    }
  }

  lemma StartIsTrusted(r: Receiver, l: Log, source: string, key: Key)
    requires CanPull(r, l, source, key)
    ensures TrustedAt(r, l, source, key, 0)
  {
    assert Pending(l, r.Checkpoint(source))[..0] == [];
    assert EffectAll(r.own, source, r.peers, []) == r.peers;
  }

  /** The receiver holds the effect of the pending changes up to its checkpoint, and no others. */
  ghost predicate HoldsUpToCheckpoint(r: Receiver, t: Receiver, l: Log, source: string)
    requires l.Valid() && l.Oldest() - 1 <= r.Checkpoint(source) <= l.sequence
  {
    var pending := Pending(l, r.Checkpoint(source));
    && 0 <= t.Checkpoint(source) - r.Checkpoint(source) <= |pending|
    && t.peers == EffectAll(r.own, source, r.peers, pending[..t.Checkpoint(source) - r.Checkpoint(source)])
  }

  /** How many pending changes the limits cover. */
  ghost function Covered(r: Receiver, l: Log, source: string, n: nat): nat
    requires l.Valid() && l.Oldest() - 1 <= r.Checkpoint(source) <= l.sequence
  {
    |Take(Pending(l, r.Checkpoint(source)), n)|
  }

  lemma CoveredInTurn(r: Receiver, l: Log, source: string, key: Key, limit: nat, n: nat)
    requires CanPull(r, l, source, key)
    ensures var r' := Advanced(r, source, NextChunk(r, l, source, limit));
            && l.Oldest() - 1 <= r'.Checkpoint(source) <= l.sequence
            && r'.Checkpoint(source) == r.Checkpoint(source) + Covered(r, l, source, limit)
            && r'.Checkpoint(source) + Covered(r', l, source, n) == r.Checkpoint(source) + Covered(r, l, source, limit + n)
  {
    AdvancedCanPull(r, l, source, key, limit);
    hide CanPull, Pending, EffectAll, Log.Valid, Log.Oldest;
  }

  lemma EffectInTurn(own: string, source: string, p: Peers, cs: seq<Change>, a: nat, b: nat)
    requires a + b <= |cs|
    ensures EffectAll(own, source, p, cs[..a + b]) == EffectAll(own, source, EffectAll(own, source, p, cs[..a]), cs[a..][..b])
  {
    assert cs[..a + b] == cs[..a] + cs[a..][..b];
    EffectAllConcat(own, source, p, cs[..a], cs[a..][..b]);
  }

  lemma HoldsInTurn(r: Receiver, t: Receiver, l: Log, source: string, key: Key, limit: nat)
    requires CanPull(r, l, source, key)
    ensures var r' := Advanced(r, source, NextChunk(r, l, source, limit));
            && l.Oldest() - 1 <= r'.Checkpoint(source) <= l.sequence
            && HoldsUpToCheckpoint(r, r', l, source)
            && (HoldsUpToCheckpoint(r', t, l, source) ==> HoldsUpToCheckpoint(r, t, l, source))
  {
    hide Pending, EffectAll, Log.Valid, Log.Oldest, Trusts;
    AdvancedCanPull(r, l, source, key, limit);
    var pending := Pending(l, r.Checkpoint(source));
    var n := |NextChunk(r, l, source, limit)|;
    assert NextChunk(r, l, source, limit) == pending[..n];
    var r' := Advanced(r, source, pending[..n]);
    hide CanPull, NextChunk, Take;
    assert r'.Checkpoint(source) == r.Checkpoint(source) + n;
    if HoldsUpToCheckpoint(r', t, l, source) {
      EffectInTurn(r.own, source, r.peers, pending, n, t.Checkpoint(source) - r'.Checkpoint(source));
    }
  }

  /** Nothing can be fetched once a receiver that does not hold everything has lost its trust in the source. */
  lemma UntrustedStops(r: Receiver, l: Log, source: string, key: Key, limits: seq<int>, now: int)
    requires CanPull(r, l, source, key) && LimitsFit(l.maxChanges, r.maxChanges, limits)
    requires limits != [] && limits[0] >= 1
    requires !Trusts(Advanced(r, source, NextChunk(r, l, source, limits[0])).peers, source, key)
    ensures var r' := Advanced(r, source, NextChunk(r, l, source, limits[0]));
            && PullAll(r', l, source, key, limits[1..], now) == r'
            && l.Oldest() - 1 <= r'.Checkpoint(source) <= l.sequence
            && Sum(limits[1..]) >= 0
            && (TrustedAtCuts(r', l, source, key, limits[1..]) <==> Covered(r', l, source, Sum(limits[1..])) == 0)
  {
    LimitsFitInTurn(l.maxChanges, r.maxChanges, limits);
    SumIsPositive(l.maxChanges, r.maxChanges, limits[1..]);
    var chunk := NextChunk(r, l, source, limits[0]);
    var r' := Advanced(r, source, chunk);
    AdvancedCanPull(r, l, source, key, limits[0]);
    OnlyANewKeyEndsTrust(r.own, source, r.peers, chunk, key);
    RekeyedSourceIsRefused(r', l, source, key, limits[1..], now);
    var pending := Pending(l, r'.Checkpoint(source));
    hide CanPull, Pending, EffectAll, Log.Valid, Log.Oldest, Trusts, LimitsFit, NextChunk, Advanced, PullAll;
    if limits[1..] != [] && pending != [] {
      assert pending[..0] == [] && EffectAll(r'.own, source, r'.peers, []) == r'.peers by { NoEffect(r'.own, source, r'.peers); }
      assert limits[1..][..0] == [] && Sum([]) == 0;
      assert !TrustedAt(r', l, source, key, Sum(limits[1..][..0]));
    }
  }

  lemma NoEffect(own: string, source: string, p: Peers)
    ensures EffectAll(own, source, p, []) == p
  {}

  /**
   Whatever the limits, the receiver ends with the effect of the pending changes up to its checkpoint. It gets as
   far as the limits reach if and only if it trusts the source at every cut; otherwise it stays behind for good.
   */
  lemma {:induction false} PullsFollowTheCuts(r: Receiver, l: Log, source: string, key: Key, limits: seq<int>, now: int)
    requires CanPull(r, l, source, key) && LimitsFit(l.maxChanges, r.maxChanges, limits)
    ensures Sum(limits) >= 0
    ensures var t := PullAll(r, l, source, key, limits, now);
            var reach := r.Checkpoint(source) + Covered(r, l, source, Sum(limits));
            && HoldsUpToCheckpoint(r, t, l, source)
            && t.Checkpoint(source) <= reach
            && (t.Checkpoint(source) == reach <==> TrustedAtCuts(r, l, source, key, limits))
    decreases |limits|
  {
    SumIsPositive(l.maxChanges, r.maxChanges, limits);
    if limits == [] {
      NoEffect(r.own, source, r.peers);
      assert Pending(l, r.Checkpoint(source))[..0] == [];
      hide Pending, EffectAll;
    } else {
      LimitsFitInTurn(l.maxChanges, r.maxChanges, limits);
      SumIsPositive(l.maxChanges, r.maxChanges, limits[1..]);
      OnePull(r, l, source, key, limits[0], now);
      AdvancedCanPull(r, l, source, key, limits[0]);
      var r' := Advanced(r, source, NextChunk(r, l, source, limits[0]));
      assert r'.maxChanges == r.maxChanges;
      hide HoldsUpToCheckpoint, Covered, TrustedAtCuts, LimitsFit, Pending, Trusts, PullOnce, Advanced, NextChunk;
      hide CanPull, Log.Valid, Log.Oldest, Receiver.Checkpoint;
      if Trusts(r'.peers, source, key) {
        PullsFollowTheCuts(r', l, source, key, limits[1..], now);
      } else {
        UntrustedStops(r, l, source, key, limits, now);
        StandsStill(r', l, source);
      }
      OnePullMore(r, PullAll(r', l, source, key, limits[1..], now), l, source, key, limits);
    }
  }

  lemma StandsStill(r: Receiver, l: Log, source: string)
    requires l.Valid() && l.Oldest() - 1 <= r.Checkpoint(source) <= l.sequence
    ensures HoldsUpToCheckpoint(r, r, l, source)
  {
    assert Pending(l, r.Checkpoint(source))[..0] == [];
    NoEffect(r.own, source, r.peers);
    hide Pending, EffectAll;
  }

  /** Where a receiver ends up after the first pull tells where it ends up from the start. */
  lemma OnePullMore(r: Receiver, t: Receiver, l: Log, source: string, key: Key, limits: seq<int>)
    requires CanPull(r, l, source, key) && LimitsFit(l.maxChanges, r.maxChanges, limits)
    requires limits != [] && limits[0] >= 1 && Sum(limits[1..]) >= 0
    ensures var r' := Advanced(r, source, NextChunk(r, l, source, limits[0]));
            && l.Oldest() - 1 <= r'.Checkpoint(source) <= l.sequence
            && var near := r'.Checkpoint(source) + Covered(r', l, source, Sum(limits[1..]));
            && var far := r.Checkpoint(source) + Covered(r, l, source, Sum(limits));
            && near == far
            && (HoldsUpToCheckpoint(r', t, l, source) ==> HoldsUpToCheckpoint(r, t, l, source))
            && (TrustedAtCuts(r', l, source, key, limits[1..]) <==> TrustedAtCuts(r, l, source, key, limits))
  {
    hide HoldsUpToCheckpoint, Covered, TrustedAtCuts, LimitsFit, Pending, Trusts, Advanced, NextChunk;
    hide Log.Valid, Log.Oldest, CanPull, Receiver.Checkpoint;
    CutsMoveOn(r, l, source, key, limits);
    HoldsInTurn(r, t, l, source, key, limits[0]);
    CoveredInTurn(r, l, source, key, limits[0], Sum(limits[1..]));
  }

  /** The pulls amount to one fold over the pending changes that the limits cover. */
  ghost predicate IsOneFold(r: Receiver, t: Receiver, l: Log, source: string, n: nat)
    requires l.Valid() && l.Oldest() - 1 <= r.Checkpoint(source) <= l.sequence
  {
    var pulled := Take(Pending(l, r.Checkpoint(source)), n);
    && t.peers == EffectAll(r.own, source, r.peers, pulled)
    && t.Checkpoint(source) == r.Checkpoint(source) + |pulled|
  }

  /** Pulling in chunks equals one fold over what they cover if and only if the source is trusted at every cut. */
  lemma ChunksDoNotMatter(r: Receiver, l: Log, source: string, key: Key, limits: seq<int>, now: int)
    requires CanPull(r, l, source, key) && LimitsFit(l.maxChanges, r.maxChanges, limits)
    ensures Sum(limits) >= 0
    ensures TrustedAtCuts(r, l, source, key, limits)
       <==> IsOneFold(r, PullAll(r, l, source, key, limits, now), l, source, Sum(limits))
  {
    PullsFollowTheCuts(r, l, source, key, limits, now);
    hide CanPull, TrustedAtCuts, LimitsFit, Pending, EffectAll, PullAll, Sum, Log.Valid, Log.Oldest;
    var pending := Pending(l, r.Checkpoint(source));
    assert Take(pending, Sum(limits)) == pending[..Covered(r, l, source, Sum(limits))];
  }

  ghost predicate TrustedThroughout(r: Receiver, l: Log, source: string, key: Key)
    requires l.Valid() && l.Oldest() - 1 <= r.Checkpoint(source) <= l.sequence
  {
    forall k: nat :: k < |Pending(l, r.Checkpoint(source))| ==> TrustedAt(r, l, source, key, k)
  }

  function Ones(n: nat): (ones: seq<int>)
    ensures |ones| == n && forall i :: 0 <= i < n ==> ones[i] == 1
  {
    seq(n, i => 1)
  }

  lemma {:induction false} SumOfOnes(n: nat)
    ensures Sum(Ones(n)) == n
  {
    if n > 0 {
      SumOfOnes(n - 1);
      assert Ones(n)[1..] == Ones(n - 1);
    }
  }

  /** Pulling is one fold for chunks of all sizes if and only if no proper prefix of the pending changes re-keys the source. */
  lemma NoChunksMatter(r: Receiver, l: Log, source: string, key: Key, now: int)
    requires CanPull(r, l, source, key) && r.maxChanges >= 1
    ensures (forall limits :: LimitsFit(l.maxChanges, r.maxChanges, limits) ==>
               Sum(limits) >= 0 && IsOneFold(r, PullAll(r, l, source, key, limits, now), l, source, Sum(limits)))
            <==> TrustedThroughout(r, l, source, key)
  {
    forall limits | LimitsFit(l.maxChanges, r.maxChanges, limits)
      ensures Sum(limits) >= 0
      ensures TrustedAtCuts(r, l, source, key, limits)
         <==> IsOneFold(r, PullAll(r, l, source, key, limits, now), l, source, Sum(limits))
      ensures TrustedThroughout(r, l, source, key) ==> TrustedAtCuts(r, l, source, key, limits)
    {
      ChunksDoNotMatter(r, l, source, key, limits, now);
      hide IsOneFold, PullAll, Pending, EffectAll, Trusts;
    }
    assert 1 <= l.maxChanges;
    hide IsOneFold, PullAll, CanPull, TrustedAt, Log.Valid, Log.Oldest, Pending;
    if forall limits :: LimitsFit(l.maxChanges, r.maxChanges, limits) ==> TrustedAtCuts(r, l, source, key, limits) {
      forall k: nat
        ensures TrustedAt(r, l, source, key, k)
      {
        assert LimitsFit(l.maxChanges, r.maxChanges, Ones(k + 1));
        assert TrustedAtCuts(r, l, source, key, Ones(k + 1));
        assert Ones(k + 1)[..k] == Ones(k);
        SumOfOnes(k);
      }
    }
  }

  /** Limits that cover everything pending reach the sender's sequence, and with it the effect of every pending change,
      if and only if the source is trusted at every cut. */
  lemma PullingToTheEnd(r: Receiver, l: Log, source: string, key: Key, limits: seq<int>, now: int)
    requires CanPull(r, l, source, key) && LimitsFit(l.maxChanges, r.maxChanges, limits)
    ensures var t := PullAll(r, l, source, key, limits, now);
            && (t.Checkpoint(source) == l.sequence ==>
                  t.peers == EffectAll(r.own, source, r.peers, Pending(l, r.Checkpoint(source))))
            && (Sum(limits) >= l.sequence - r.Checkpoint(source) ==>
                  (t.Checkpoint(source) == l.sequence <==> TrustedAtCuts(r, l, source, key, limits)))
  {
    hide TrustedAtCuts, LimitsFit, Pending, EffectAll, PullAll, Sum, Trusts, Log.Valid, Log.Oldest;
    PullsFollowTheCuts(r, l, source, key, limits, now);
    hide CanPull;
    var pending := Pending(l, r.Checkpoint(source));
    assert |pending| == l.sequence - r.Checkpoint(source) by { PendingIsAfter(l, r.Checkpoint(source)); }
    assert pending[..|pending|] == pending;
  }

  /** A log whose first change gives the source a new key: in chunks of one the receiver stops after it, in one chunk it does not. */
  lemma ChunksCanMatter()
    ensures exists r, l, source, key, now ::
              && CanPull(r, l, source, key)
              && PullAll(r, l, source, key, [1, 1], now).Checkpoint(source) == 1
              && PullAll(r, l, source, key, [2], now).Checkpoint(source) == 2 == l.sequence
  {
    var known := Peer("s", Identity("s", 1, true), PeerTrusted, 0, true, None, None, None);
    var rekeyed := known.(identity := Identity("s", 2, true), updatedAt := 5);
    var l := Log(10, 2, [DirectoryChange(1, Upsert, "s", 5, Some(rekeyed), None),
                         DirectoryChange(2, Tombstone, "x", 6, None, Some("gone"))]);
    var r := Receiver("own", 10, map["s" := known], map[]);
    assert |"own"| == 3 && |"s"| == 1;
    assert CanPull(r, l, "s", 1);
    assert Pending(l, 0) == l.changes;
    OnePull(r, l, "s", 1, 1, 0);
    OnePull(r, l, "s", 1, 2, 0);
    var chunk := NextChunk(r, l, "s", 1);
    assert chunk == [l.changes[0]] && chunk[..0] == [];
    assert EffectAll("own", "s", r.peers, []) == r.peers;
    var stuck := Advanced(r, "s", chunk);
    assert stuck.peers["s"].identity.key == 2;
    RekeyedSourceIsRefused(stuck, l, "s", 1, [1], 0);
    assert [1, 1][1..] == [1] && [2][1..] == [];
    hide CanPull, PullOnce, Advanced, EffectAll;
    assert PullAll(r, l, "s", 1, [1, 1], 0) == PullAll(stuck, l, "s", 1, [1], 0);
    var whole := Advanced(r, "s", NextChunk(r, l, "s", 2));
    assert PullAll(r, l, "s", 1, [2], 0) == PullAll(whole, l, "s", 1, [], 0);
  }

  // ------------------------------------------------------------ what a mismatch leaves behind

  /** A change that carries a sequence and an office, whatever else is wrong with it. */
  predicate Numbered(w: WireChange) {
    w.WireChange? && w.sequence.Some? && w.officeId.Some?
  }

  /** The highest number among the checkpoint and the numbered changes. */
  function Highest(from: int, ws: seq<WireChange>): (h: int)
    ensures h >= from
    ensures forall w :: w in ws && Numbered(w) ==> w.sequence.value <= h
    ensures h == from || exists w :: w in ws && Numbered(w) && w.sequence.value == h
  {
    if ws == [] then from
    else
      var front, w := ws[..|ws| - 1], ws[|ws| - 1];
      assert ws == front + [w];
      var h := Highest(from, front);
      if Numbered(w) && w.sequence.value > h then
        assert w in ws;
        w.sequence.value
      else h
  }

  lemma {:induction false} ScanEndsAtTheHighest(own: string, source: string, now: int, s: Scan, ws: seq<WireChange>)
    ensures ScanAll(own, source, now, s, ws).last == Highest(s.last, ws)
  {
    if ws != [] {
      ScanEndsAtTheHighest(own, source, now, s, ws[..|ws| - 1]);
    }
  }

  /** A mismatch is reported exactly when the announced end of a non-empty list is not the highest number in it. */
  lemma MismatchExactly(r: Receiver, m: Manifest, now: int)
    ensures ApplyResult(r, m, now) == Err(SequenceMismatch) <==>
              && ApplyRefusal(r, m).None? && m.changes.value != []
              && m.to.value != Highest(m.from.value, m.changes.value)
  {
    if ApplyRefusal(r, m).None? {
      ScanEndsAtTheHighest(r.own, m.officeId.value, now, Scan(r.peers, m.from.value, NO_COUNTS), m.changes.value);
    }
    hide ScanAll, Highest;
  }

  /** A change of one office that its number admits: it is higher than everything before it. */
  predicate Admitted(own: string, from: int, before: seq<WireChange>, w: WireChange, o: string) {
    Numbered(w) && w.officeId == Some(o) && o != own && w.sequence.value > Highest(from, before)
  }

  /** Some admitted upsert is valid and newer than the record held, or there is no record. */
  predicate BringsNews(own: string, p: Peers, from: int, ws: seq<WireChange>, o: string) {
    ws != [] &&
    var front, w := ws[..|ws| - 1], ws[|ws| - 1];
    || BringsNews(own, p, from, front, o)
    || (Admitted(own, from, front, w, o) && NewUpsert(Find(p, o), w))
  }

  function LastTombstone(own: string, from: int, ws: seq<WireChange>, o: string): (t: Option<WireChange>)
    ensures t.Some? ==> t.value.WireChange?
  {
    if ws == [] then None
    else
      var front, w := ws[..|ws| - 1], ws[|ws| - 1];
      if Admitted(own, from, front, w, o) && w.operation.Tombstone? then Some(w) else LastTombstone(own, from, front, o)
  }

  /** The last admitted tombstone of a known office says something else than what is recorded. */
  predicate BringsWithdrawal(own: string, source: string, now: int, p: Peers, from: int, ws: seq<WireChange>, o: string) {
    var t := LastTombstone(own, from, ws, o);
    o in p && t.Some? && Retired(source, now, p[o], t.value) != p[o]
  }

  /** The list changes what is recorded of an office. */
  predicate BringsChange(own: string, source: string, now: int, p: Peers, from: int, ws: seq<WireChange>, o: string) {
    BringsNews(own, p, from, ws, o) || BringsWithdrawal(own, source, now, p, from, ws, o)
  }

  predicate NewUpsert(p: Option<Peer>, w: WireChange)
    requires w.WireChange? && w.officeId.Some?
  {
    w.operation.Upsert? && UpsertIsValid(w) && (p.Some? ==> w.record.value.updatedAt > p.value.updatedAt)
  }

  /** What one change does to the record of one office. */
  lemma ScanOneOffice(own: string, source: string, now: int, s: Scan, w: WireChange, o: string)
    ensures var before, after := Find(s.peers, o), Find(ScanOne(own, source, now, s, w).peers, o);
            if Numbered(w) && w.officeId == Some(o) && o != own && w.sequence.value > s.last then
              && (NewUpsert(before, w) ==> after.Some? && after.value.updatedAt == w.record.value.updatedAt)
              && (w.operation.Tombstone? ==> after == if before.None? then None else Some(Retired(source, now, before.value, w)))
              && (!NewUpsert(before, w) && !w.operation.Tombstone? ==> after == before)
            else
              after == before
  {}

  /** What a scan leaves for one office, read off the received list and the record held before it. */
  lemma {:induction false} ScanOfOneOffice(own: string, source: string, now: int, p: Peers, from: int,
                                           ws: seq<WireChange>, o: string)
    ensures var q := ScanAll(own, source, now, Scan(p, from, NO_COUNTS), ws).peers;
            var t := LastTombstone(own, from, ws, o);
            && (o in p ==> o in q && q[o].updatedAt >= p[o].updatedAt)
            && (BringsNews(own, p, from, ws, o) ==> o in q && (o in p ==> q[o].updatedAt > p[o].updatedAt))
            && (!BringsNews(own, p, from, ws, o) ==>
                  && (o in q <==> o in p)
                  && (o in p ==> q[o] == if t.Some? then Retired(source, now, p[o], t.value) else p[o]))
  {
    if ws != [] {
      var front := ws[..|ws| - 1];
      ScanOfOneOffice(own, source, now, p, from, front, o);
      ScanEndsAtTheHighest(own, source, now, Scan(p, from, NO_COUNTS), front);
      ScanOneOffice(own, source, now, ScanAll(own, source, now, Scan(p, from, NO_COUNTS), front), ws[|ws| - 1], o);
      hide Highest, ScanOne, UpsertIsValid;
    }
  }

  /** A refused manifest has changed the peers exactly when it was refused for its sequence and, for some office,
      brought news or a new withdrawal; it never moves a checkpoint. */
  lemma RefusalsThatChangePeers(r: Receiver, m: Manifest, now: int)
    requires ApplyResult(r, m, now).Err?
    ensures Applied(r, m, now).checkpoints == r.checkpoints
    ensures Applied(r, m, now).peers != r.peers <==>
              && ApplyResult(r, m, now) == Err(SequenceMismatch)
              && exists o :: BringsChange(r.own, m.officeId.value, now, r.peers, m.from.value, m.changes.value, o)
  {
    if ApplyRefusal(r, m).None? {
      var source, from, ws := m.officeId.value, m.from.value, m.changes.value;
      var q := ScanAll(r.own, source, now, Scan(r.peers, from, NO_COUNTS), ws).peers;
      assert Applied(r, m, now).peers == q && ApplyResult(r, m, now) == Err(SequenceMismatch);
      hide ScanAll, BringsNews, LastTombstone, Retired, Applied;
      forall o
        ensures Find(q, o) != Find(r.peers, o) <==> BringsChange(r.own, source, now, r.peers, from, ws, o)
      {
        ScanOfOneOffice(r.own, source, now, r.peers, from, ws, o);
      }
      if forall o :: Find(q, o) == Find(r.peers, o) {
        EqualPeers(q, r.peers);
      } else {
        var o :| Find(q, o) != Find(r.peers, o);
        assert BringsChange(r.own, source, now, r.peers, from, ws, o);
      }
    }
  }

  const NEWS := WireChange(Some(1), Some("b"), Upsert, Some(5), Some(WireRecord(Some(Identity("b", 2, true)), 9)), None)

  /** Refusing a manifest for its sequence does not undo it: here the peers grow while the checkpoint stays. */
  lemma MismatchCanLeavePeersChanged()
    ensures exists r, m, now ::
      && ApplyResult(r, m, now) == Err(SequenceMismatch)
      && Applied(r, m, now).peers != r.peers
      && Applied(r, m, now).checkpoints == r.checkpoints
  {
    var source := Peer("s", Identity("s", 1, true), PeerTrusted, 0, true, None, None, None);
    var r := Receiver("own", 10, map["s" := source], map[]);
    var m := Manifest(true, Some("s"), Some([NEWS]), Some(0), Some(7), 7, false, Some(1));
    assert "s"[0] == 's' && "b"[0] == 'b' && |"own"| == 3;
    var start := Scan(r.peers, 0, NO_COUNTS);
    assert [NEWS][..0] == [] && ScanAll("own", "s", 0, start, []) == start;
    var s := ScanAll("own", "s", 0, start, [NEWS]);
    assert s == ScanOne("own", "s", 0, start, NEWS);
    assert s.last == 1 && "b" in s.peers && "b" !in r.peers;
    assert ApplyRefusal(r, m).None?;
    assert ApplyResult(r, m, 0) == Err(SequenceMismatch);
  }

  // ------------------------------------------------------------ manifests in full

  /** How many changes a manifest carries: those after the checkpoint, up to the limit. */
  function Carried(l: Log, since: int, limit: int): nat
    requires limit >= 1
  {
    if since >= l.sequence then 0 else if l.sequence - since <= limit then l.sequence - since else limit
  }

  /** Change i of a manifest is the i-th change after the checkpoint. */
  ghost predicate CarriesNext(l: Log, since: int, ws: seq<WireChange>) {
    forall i :: 0 <= i < |ws| ==>
      var k := |l.changes| - (l.sequence - since) + i;
      0 <= k < |l.changes| && ws[i] == Document(l.changes[k])
  }

  /** The next changes after a checkpoint, in order and signed, and whether more will remain. */
  ghost predicate IsNextDelta(l: Log, office: string, key: Key, since: int, limit: int, m: Manifest)
    requires limit >= 1
  {
    var n := Carried(l, since, limit);
    && m.isDelta && m.officeId == Some(office) && m.signer == Some(key)
    && m.from == Some(since) && m.to == Some(since + n) && m.current == l.sequence
    && (m.more <==> since + n < l.sequence)
    && m.changes.Some? && |m.changes.value| == n && CarriesNext(l, since, m.changes.value)
  }

  /** A manifest is cut for every checkpoint that is not behind the log, and for every limit within bounds. */
  lemma CutInFull(l: Log, office: string, key: Key, since: int, limit: int)
    requires l.Valid()
    ensures var r := ManifestSince(l, office, key, since, limit);
            && (r == Err(InvalidDeltaRequest) <==> since < 0 || limit < 1 || l.maxChanges < limit)
            && (r.Ok? <==> 0 <= since && 1 <= limit <= l.maxChanges && l.sequence - since <= |l.changes|)
            && (r.Ok? ==> IsNextDelta(l, office, key, since, limit, r.value))
            && (r.Err? && r.error.CheckpointExpired? ==>
                  r.error == CheckpointExpired(l.sequence - |l.changes| + 1, l.sequence))
  {
    CutRefusals(l, office, key, since, limit);
    if ManifestSince(l, office, key, since, limit).Ok? {
      hide ManifestSince, IsNextDelta;
      if since <= l.sequence {
        CutOfPending(l, office, key, since, limit);
      } else {
        CutPastTheEnd(l, office, key, since, limit);
      }
    }
  }

  lemma CutRefusals(l: Log, office: string, key: Key, since: int, limit: int)
    requires l.Valid()
    ensures var r := ManifestSince(l, office, key, since, limit);
            && (r == Err(InvalidDeltaRequest) <==> since < 0 || limit < 1 || l.maxChanges < limit)
            && (r.Ok? <==> 0 <= since && 1 <= limit <= l.maxChanges && l.sequence - since <= |l.changes|)
            && (r.Err? && r.error.CheckpointExpired? ==>
                  r.error == CheckpointExpired(l.sequence - |l.changes| + 1, l.sequence))
  {
    hide After, Take, Documents;
  }

  lemma CutOfPending(l: Log, office: string, key: Key, since: int, limit: int)
    requires l.Valid() && 0 <= since && l.Oldest() - 1 <= since <= l.sequence && 1 <= limit <= l.maxChanges
    ensures ManifestSince(l, office, key, since, limit).Ok?
    ensures IsNextDelta(l, office, key, since, limit, ManifestSince(l, office, key, since, limit).value)
  {
    hide ManifestSince, Take, Document;
    NextManifest(l, office, key, since, limit);
    TakenOfPending(l, since, limit);
    hide Pending;
  }

  lemma NothingPastTheEnd(l: Log, since: int)
    requires l.Valid() && l.sequence < since
    ensures After(l.changes, since) == []
  {
    AfterIsSuffix(l.changes, l.sequence - |l.changes| + 1, since);
  }

  lemma CutPastTheEnd(l: Log, office: string, key: Key, since: int, limit: int)
    requires l.Valid() && l.sequence < since && 0 <= since && 1 <= limit <= l.maxChanges
    ensures ManifestSince(l, office, key, since, limit).Ok?
    ensures IsNextDelta(l, office, key, since, limit, ManifestSince(l, office, key, since, limit).value)
  {
    hide Document, After;
    NothingPastTheEnd(l, since);
    assert l.changes != [] ==> l.Oldest() <= l.sequence;
    hide Log.Valid, Log.Oldest;
  }

  lemma TakenOfPending(l: Log, since: int, limit: int)
    requires l.Valid() && l.Oldest() - 1 <= since <= l.sequence && limit >= 1
    ensures |Take(Pending(l, since), limit)| == Carried(l, since, limit)
    ensures forall i :: 0 <= i < Carried(l, since, limit) ==>
      Take(Pending(l, since), limit)[i] == l.changes[|l.changes| - (l.sequence - since) + i]
  {}

  /** A delta of a trusted source, signed under its key, that starts at the receiver's checkpoint and is in range. */
  predicate IsNextOf(r: Receiver, m: Manifest) {
    && m.isDelta && m.officeId.Some? && m.changes.Some? && m.from.Some? && m.to.Some?
    && |m.changes.value| <= r.maxChanges
    && m.from.value <= m.to.value
    && m.officeId.value in r.peers
    && !r.peers[m.officeId.value].trust.PeerRestricted?
    && m.signer == Some(r.peers[m.officeId.value].identity.key)
    && m.from.value == (if m.officeId.value in r.checkpoints then r.checkpoints[m.officeId.value] else 0)
  }

  lemma RefusalsInFull(r: Receiver, m: Manifest)
    ensures ApplyRefusal(r, m).None? <==> IsNextOf(r, m)
  {}

  /** Change i carries a number above the checkpoint and above all the numbers further up. */
  predicate HasNewNumber(from: int, ws: seq<WireChange>, i: nat) {
    && i < |ws| && Numbered(ws[i]) && ws[i].sequence.value > from
    && forall j :: 0 <= j < i && Numbered(ws[j]) ==> ws[j].sequence.value < ws[i].sequence.value
  }

  /** Change i is about another office, under a new number. */
  predicate Concerns(own: string, from: int, ws: seq<WireChange>, i: nat) {
    HasNewNumber(from, ws, i) && ws[i].officeId.value != own
  }

  /** Change i says how the office is, and the office has signed its identity itself. */
  predicate IsReport(own: string, from: int, ws: seq<WireChange>, i: nat) {
    Concerns(own, from, ws, i) && ws[i].operation.Upsert? && ws[i].record.Some? &&
    var identity := ws[i].record.value.identity;
    identity.Some? && identity.value.selfSigned && identity.value.officeId == ws[i].officeId.value
  }

  predicate IsReportOf(own: string, from: int, ws: seq<WireChange>, i: nat, o: string) {
    IsReport(own, from, ws, i) && ws[i].officeId.value == o
  }

  /** Every report of the office among the first changes is older than some time. */
  ghost predicate ReportsAreBefore(own: string, from: int, ws: seq<WireChange>, n: nat, o: string, time: int) {
    forall j: nat :: j < n && IsReportOf(own, from, ws, j, o) ==> ws[j].record.value.updatedAt < time
  }

  ghost predicate IsReported(own: string, from: int, ws: seq<WireChange>, n: nat, o: string) {
    exists j: nat :: j < n && IsReportOf(own, from, ws, j, o)
  }

  datatype Fate = IsApplied | IsTombstoned | IsSkipped | IsRejected

  /** The four ways a change can fare, read off the list and the peers held before it. */
  ghost predicate MeetsFate(own: string, p: Peers, from: int, ws: seq<WireChange>, i: nat, fate: Fate)
    requires i < |ws|
  {
    match fate
    case IsApplied =>
      IsReport(own, from, ws, i) && IsNewReport(own, p, from, ws, i)
    case IsTombstoned =>
      Concerns(own, from, ws, i) && ws[i].operation.Tombstone? && IsHeld(own, p, from, ws, i)
    case IsSkipped =>
      || (HasNewNumber(from, ws, i) && ws[i].officeId.value == own)
      || (IsReport(own, from, ws, i) && !IsNewReport(own, p, from, ws, i))
      || (Concerns(own, from, ws, i) && ws[i].operation.Tombstone? && !IsHeld(own, p, from, ws, i))
    case IsRejected =>
      || !HasNewNumber(from, ws, i)
      || (Concerns(own, from, ws, i) && !ws[i].operation.Tombstone? && !IsReport(own, from, ws, i))
  }

  ghost predicate IsNewReport(own: string, p: Peers, from: int, ws: seq<WireChange>, i: nat)
    requires IsReport(own, from, ws, i)
  {
    var o, time := ws[i].officeId.value, ws[i].record.value.updatedAt;
    (o in p ==> p[o].updatedAt < time) && ReportsAreBefore(own, from, ws, i, o, time)
  }

  ghost predicate IsHeld(own: string, p: Peers, from: int, ws: seq<WireChange>, i: nat)
    requires Concerns(own, from, ws, i)
  {
    ws[i].officeId.value in p || IsReported(own, from, ws, i, ws[i].officeId.value)
  }

  lemma NewNumberIsHigher(from: int, ws: seq<WireChange>, i: nat)
    requires i < |ws|
    ensures HasNewNumber(from, ws, i) <==> Numbered(ws[i]) && ws[i].sequence.value > Highest(from, ws[..i])
  {
    forall j | 0 <= j < i ensures ws[..i][j] == ws[j] && ws[j] in ws[..i] {}
    hide Highest, Numbered;
  }

  lemma PrefixNumbers(from: int, ws: seq<WireChange>, n: nat, j: nat)
    requires j < n <= |ws|
    ensures HasNewNumber(from, ws[..n], j) <==> HasNewNumber(from, ws, j)
  {
    hide Numbered;
    assert forall k :: 0 <= k < n ==> ws[..n][k] == ws[k];
  }

  /** What is held of an office after a scan: something if it was known or reported, and the newest. */
  lemma {:induction false} HeldAfterScan(own: string, source: string, now: int, p: Peers, from: int, ws: seq<WireChange>,
                                         n: nat, o: string, time: int)
    requires n <= |ws|
    ensures var q := ScanAll(own, source, now, Scan(p, from, NO_COUNTS), ws[..n]).peers;
            && (o in q <==> o in p || IsReported(own, from, ws, n, o))
            && (o in q ==> (q[o].updatedAt < time <==>
                              (o in p ==> p[o].updatedAt < time) && ReportsAreBefore(own, from, ws, n, o, time)))
    decreases n
  {
    hide ScanOne, Highest;
    if n == 0 {
      assert ws[..0] == [];
    } else {
      var s := ScanAll(own, source, now, Scan(p, from, NO_COUNTS), ws[..n - 1]);
      var w := ws[n - 1];
      assert ws[..n][..n - 1] == ws[..n - 1];
      HeldAfterScan(own, source, now, p, from, ws, n - 1, o, time);
      ScanEndsAtTheHighest(own, source, now, Scan(p, from, NO_COUNTS), ws[..n - 1]);
      NewNumberIsHigher(from, ws, n - 1);
      ScanOneOffice(own, source, now, s, w, o);
      hide ScanAll;
      if IsReportOf(own, from, ws, n - 1, o) {
        HeldAfterScan(own, source, now, p, from, ws, n - 1, o, w.record.value.updatedAt);
      }
      OneMoreReport(own, from, ws, n - 1, o, time);
    }
  }

  lemma OneMoreReport(own: string, from: int, ws: seq<WireChange>, n: nat, o: string, time: int)
    ensures IsReported(own, from, ws, n + 1, o) <==> IsReported(own, from, ws, n, o) || IsReportOf(own, from, ws, n, o)
    ensures ReportsAreBefore(own, from, ws, n + 1, o, time) <==>
              && ReportsAreBefore(own, from, ws, n, o, time)
              && (IsReportOf(own, from, ws, n, o) ==> ws[n].record.value.updatedAt < time)
  {
    hide IsReport;
  }

  /** What the scan counts a change as. */
  function FateOf(own: string, source: string, now: int, s: Scan, w: WireChange): Fate {
    var t := ScanOne(own, source, now, s, w).counts;
    if t.applied > s.counts.applied then IsApplied
    else if t.tombstoned > s.counts.tombstoned then IsTombstoned
    else if t.skipped > s.counts.skipped then IsSkipped
    else IsRejected
  }

  /** The fate of one change, read off the scan so far. */
  lemma FateOfOne(own: string, source: string, now: int, s: Scan, w: WireChange)
    ensures FateOf(own, source, now, s, w) ==
      if !Numbered(w) || w.sequence.value <= s.last then IsRejected
      else if w.officeId.value == own then IsSkipped
      else match w.operation
        case Upsert =>
          if !UpsertIsValid(w) then IsRejected
          else if w.officeId.value in s.peers && s.peers[w.officeId.value].updatedAt >= w.record.value.updatedAt then IsSkipped
          else IsApplied
        case Tombstone => if w.officeId.value in s.peers then IsTombstoned else IsSkipped
        case OtherOperation => IsRejected
  {
    hide Retired, UpsertIsValid;
  }

  /** A change meets exactly the fate that the list and the peers before it call for. */
  lemma FateInFull(own: string, source: string, now: int, p: Peers, from: int, ws: seq<WireChange>, i: nat)
    requires i < |ws|
    ensures var s := ScanAll(own, source, now, Scan(p, from, NO_COUNTS), ws[..i]);
            forall fate :: MeetsFate(own, p, from, ws, i, fate) <==> fate == FateOf(own, source, now, s, ws[i])
  {
    hide ScanAll, ScanOne, FateOf, Highest, HasNewNumber, ReportsAreBefore, IsReported, Retired;
    var s, w := ScanAll(own, source, now, Scan(p, from, NO_COUNTS), ws[..i]), ws[i];
    NewNumberIsHigher(from, ws, i);
    ScanEndsAtTheHighest(own, source, now, Scan(p, from, NO_COUNTS), ws[..i]);
    FateOfOne(own, source, now, s, w);
    if Concerns(own, from, ws, i) {
      HeldAfterScan(own, source, now, p, from, ws, i, w.officeId.value,
                    if w.record.Some? then w.record.value.updatedAt else 0);
      NoReportsNoneLater(own, from, ws, i, w.officeId.value, if w.record.Some? then w.record.value.updatedAt else 0);
    }
  }

  lemma NoReportsNoneLater(own: string, from: int, ws: seq<WireChange>, n: nat, o: string, time: int)
    ensures !IsReported(own, from, ws, n, o) ==> ReportsAreBefore(own, from, ws, n, o, time)
  {}

  ghost function Meeting(own: string, p: Peers, from: int, ws: seq<WireChange>, n: nat, fate: Fate): set<nat>
    requires n <= |ws|
  {
    set i: nat | i < n && MeetsFate(own, p, from, ws, i, fate)
  }

  lemma OneMoreMeets(own: string, p: Peers, from: int, ws: seq<WireChange>, n: nat, fate: Fate)
    requires n < |ws|
    ensures |Meeting(own, p, from, ws, n + 1, fate)| ==
              |Meeting(own, p, from, ws, n, fate)| + (if MeetsFate(own, p, from, ws, n, fate) then 1 else 0)
  {
    hide MeetsFate;
    var before, after := Meeting(own, p, from, ws, n, fate), Meeting(own, p, from, ws, n + 1, fate);
    var grows := MeetsFate(own, p, from, ws, n, fate);
    forall i: nat ensures i in after <==> i in before || (grows && i == n) {}
    assert n !in before;
    hide Meeting;
    OneMore(before, after, n, grows);
  }

  /** The four counts are the numbers of changes that met each fate. */
  ghost predicate CountsFates(own: string, p: Peers, from: int, ws: seq<WireChange>, n: nat, c: DeltaCounts)
    requires n <= |ws|
  {
    && c.applied == |Meeting(own, p, from, ws, n, IsApplied)|
    && c.tombstoned == |Meeting(own, p, from, ws, n, IsTombstoned)|
    && c.skipped == |Meeting(own, p, from, ws, n, IsSkipped)|
    && c.rejected == |Meeting(own, p, from, ws, n, IsRejected)|
  }

  lemma ScanCountsOne(own: string, source: string, now: int, s: Scan, w: WireChange)
    ensures var c, fate := ScanOne(own, source, now, s, w).counts, FateOf(own, source, now, s, w);
            && c.applied == s.counts.applied + (if fate.IsApplied? then 1 else 0)
            && c.tombstoned == s.counts.tombstoned + (if fate.IsTombstoned? then 1 else 0)
            && c.skipped == s.counts.skipped + (if fate.IsSkipped? then 1 else 0)
            && c.rejected == s.counts.rejected + (if fate.IsRejected? then 1 else 0)
  {}

  lemma {:induction false} ScanCountsFates(own: string, source: string, now: int, p: Peers, from: int, ws: seq<WireChange>, n: nat)
    requires n <= |ws|
    ensures CountsFates(own, p, from, ws, n, ScanAll(own, source, now, Scan(p, from, NO_COUNTS), ws[..n]).counts)
    decreases n
  {
    hide MeetsFate, ScanOne, FateOf;
    if n == 0 {
      assert ws[..0] == [];
    } else {
      assert ws[..n][..n - 1] == ws[..n - 1];
      ScanCountsFates(own, source, now, p, from, ws, n - 1);
      ScanCountsOne(own, source, now, ScanAll(own, source, now, Scan(p, from, NO_COUNTS), ws[..n - 1]), ws[n - 1]);
      FateInFull(own, source, now, p, from, ws, n - 1);
      OneMoreMeets(own, p, from, ws, n - 1, IsApplied);
      OneMoreMeets(own, p, from, ws, n - 1, IsTombstoned);
      OneMoreMeets(own, p, from, ws, n - 1, IsSkipped);
      OneMoreMeets(own, p, from, ws, n - 1, IsRejected);
      hide Meeting;
    }
  }

  /** A manifest is applied exactly when it is the next one of a trusted source and ends at its highest number. */
  lemma ApplicationInFull(r: Receiver, m: Manifest, now: int)
    ensures ApplyResult(r, m, now).Ok? <==> IsNextOf(r, m) && EndsAtItsHighest(m)
    ensures ApplyResult(r, m, now).Ok? ==>
      CountsFates(r.own, r.peers, m.from.value, m.changes.value, |m.changes.value|, ApplyResult(r, m, now).value)
    ensures !IsNextOf(r, m) ==> Applied(r, m, now) == r
    ensures ApplyResult(r, m, now).Err? ==> Applied(r, m, now).checkpoints == r.checkpoints
    ensures ApplyResult(r, m, now).Ok? ==> Applied(r, m, now).checkpoints == r.checkpoints[m.officeId.value := m.to.value]
  {
    RefusalsInFull(r, m);
    if IsNextOf(r, m) {
      MismatchExactly(r, m, now);
      HighestEnds(m);
      ScanCountsFates(r.own, m.officeId.value, now, r.peers, m.from.value, m.changes.value, |m.changes.value|);
      assert m.changes.value[..|m.changes.value|] == m.changes.value;
    }
    hide ScanAll, Highest, CountsFates, EndsAtItsHighest;
  }

  /** An empty delta, or one whose announced end is the highest number in it, or where it starts if none is higher. */
  ghost predicate EndsAtItsHighest(m: Manifest)
    requires m.changes.Some? && m.from.Some? && m.to.Some?
  {
    var ws, from, to := m.changes.value, m.from.value, m.to.value;
    || ws == []
    || (&& from <= to && (forall i :: 0 <= i < |ws| && Numbered(ws[i]) ==> ws[i].sequence.value <= to)
        && (to == from || exists i :: 0 <= i < |ws| && Numbered(ws[i]) && ws[i].sequence.value == to))
  }

  lemma HighestEnds(m: Manifest)
    requires m.changes.Some? && m.from.Some? && m.to.Some?
    ensures EndsAtItsHighest(m) <==> m.changes.value == [] || m.to.value == Highest(m.from.value, m.changes.value)
  {
    var ws, h := m.changes.value, Highest(m.from.value, m.changes.value);
    hide Highest, Numbered;
    assert forall i :: 0 <= i < |ws| ==> ws[i] in ws;
    if h != m.from.value {
      var w :| w in ws && Numbered(w) && w.sequence.value == h;
      var i :| 0 <= i < |ws| && ws[i] == w;
    }
  }

  /** The office is recorded as reported, under the trust it had or as observed; nobody else's record changes. */
  predicate IsImported(source: string, before: Peers, after: Peers, w: WireChange) {
    && w.WireChange? && w.sequence.Some? && w.officeId.Some? && w.record.Some? && w.record.value.identity.Some?
    && var o := w.officeId.value;
    && after == before[o := Peer(o, w.record.value.identity.value, if o in before then before[o].trust else PeerObserved,
                                 w.record.value.updatedAt, true, Some(source), w.sequence, None)]
  }

  /** The office is recorded as withdrawn, since the time given or else since now; all else about it stays. */
  predicate IsWithdrawn(source: string, now: int, before: Peers, after: Peers, w: WireChange) {
    && w.WireChange? && w.sequence.Some? && w.officeId.Some? && w.officeId.value in before
    && var o := w.officeId.value;
    var since := if w.changedAt.Some? then w.changedAt.value else now;
    var why := if w.reason.Some? then w.reason.value else "withdrawn";
    after == before[o := before[o].(withdrawn := Some(Withdrawal(since, why)), source := Some(source), sequence := w.sequence)]
  }

  // ------------------------------------------------------------ the journal object

  datatype JournalError = UnknownOffice | ReasonRequired

  class IncrementalDirectoryJournal {
    const state: TelegraphOfficeState
    const key: Key
    const maxChanges: int
    var sequence: int
    var changes: seq<Change>
    var checkpoints: map<string, int>

    ghost function View(): Log
      reads this
    {
      Log(maxChanges, sequence, changes)
    }

    ghost function AsReceiver(): Receiver
      reads this, state
    {
      Receiver(state.officeId, maxChanges, state.peers, checkpoints)
    }

    ghost predicate Valid()
      reads this, state
    {
      View().Valid() && state.Valid()
    }

    constructor (state: TelegraphOfficeState, key: Key, maxChanges: int)
      requires state.Valid() && maxChanges >= 1
      ensures this.state == state && this.key == key && this.maxChanges == maxChanges
      ensures Valid() && View() == Log(maxChanges, 0, []) && checkpoints == map[]
    {
      this.state := state;
      this.key := key;
      this.maxChanges := maxChanges;
      sequence, changes, checkpoints := 0, [], map[];
    }

    method Append(operation: Operation, officeId: string, record: Option<Peer>, reason: Option<string>, now: int)
        returns (change: Change)
      requires Valid()
      modifies this
      ensures Valid() && checkpoints == old(checkpoints)
      ensures change == DirectoryChange(old(sequence) + 1, operation, officeId, now, record, reason)
      ensures View() == old(View()).Append(change)
    {
      hide Log.Valid, TelegraphOfficeState.Valid;
      AppendKeepsLog(View(), DirectoryChange(0, operation, officeId, now, record, reason));
      sequence := sequence + 1;
      change := DirectoryChange(sequence, operation, officeId, now, record, reason);
      changes := changes + [change];
      if |changes| > maxChanges {
        changes := changes[|changes| - maxChanges..];
      }
    }

    method RecordUpsert(officeId: string, now: int) returns (r: Result<Change, JournalError>)
      requires Valid()
      modifies this
      ensures Valid() && checkpoints == old(checkpoints)
      ensures r.Ok? <==> officeId in state.peers
      ensures r.Err? ==> View() == old(View())
      ensures r.Ok? ==>
        && r.value == DirectoryChange(old(sequence) + 1, Upsert, officeId, now, Some(state.peers[officeId]), None)
        && View() == old(View()).Append(r.value)
    {
      if officeId !in state.peers {
        return Err(UnknownOffice);
      }
      var change := Append(Upsert, officeId, Some(state.peers[officeId]), None, now);
      r := Ok(change);
    }

    method RecordTombstone(officeId: string, reason: string, now: int) returns (r: Result<Change, JournalError>)
      requires Valid()
      modifies this
      ensures Valid() && checkpoints == old(checkpoints)
      ensures r.Ok? <==> reason != ""
      ensures r.Err? ==> View() == old(View())
      ensures r.Ok? ==>
        && r.value == DirectoryChange(old(sequence) + 1, Tombstone, officeId, now, None, Some(reason))
        && View() == old(View()).Append(r.value)
    {
      if reason == "" {
        return Err(ReasonRequired);
      }
      var change := Append(Tombstone, officeId, None, Some(reason), now);
      r := Ok(change);
    }

    method CutManifest(since: int, limit: int) returns (r: Result<Manifest, DeltaError>)
      requires Valid()
      ensures r == ManifestSince(View(), state.officeId, key, since, limit)
      ensures r == Err(InvalidDeltaRequest) <==> since < 0 || limit < 1 || maxChanges < limit
      ensures r.Ok? <==> 0 <= since && 1 <= limit <= maxChanges && sequence - since <= |changes|
      ensures r.Ok? ==> IsNextDelta(View(), state.officeId, key, since, limit, r.value)
    {
      CutInFull(View(), state.officeId, key, since, limit);
      hide IsNextDelta;
      if since < 0 || limit < 1 || limit > maxChanges {
        return Err(InvalidDeltaRequest);
      }
      var oldest := if changes != [] then changes[0].sequence else sequence + 1;
      if changes != [] && since < oldest - 1 {
        return Err(CheckpointExpired(oldest, sequence));
      }
      var selected := Take(After(changes, since), limit);
      var to := if selected == [] then since else selected[|selected| - 1].sequence;
      var more := After(changes, to) != [];
      r := Ok(Manifest(true, Some(state.officeId), Some(Documents(selected)), Some(since), Some(to), sequence, more, Some(key)));
    }

    method ApplyManifest(m: Manifest, now: int) returns (r: Result<DeltaCounts, ApplyError>)
      requires Valid()
      modifies this, state
      ensures Valid() && View() == old(View())
      ensures r == ApplyResult(old(AsReceiver()), m, now)
      ensures AsReceiver() == Applied(old(AsReceiver()), m, now)
      ensures r.Ok? <==> IsNextOf(old(AsReceiver()), m) && EndsAtItsHighest(m)
      ensures r.Ok? ==> checkpoints == old(checkpoints)[m.officeId.value := m.to.value]
      ensures r.Ok? ==>
        CountsFates(state.officeId, old(state.peers), m.from.value, m.changes.value, |m.changes.value|, r.value)
      ensures !IsNextOf(old(AsReceiver()), m) ==> state.peers == old(state.peers)
      ensures r.Err? ==> checkpoints == old(checkpoints)
    {
      ApplicationInFull(AsReceiver(), m, now);
      hide IsNextOf, EndsAtItsHighest, CountsFates;
      ghost var before := AsReceiver();
      if !m.isDelta || m.officeId.None? || m.changes.None? || m.from.None? || m.to.None? {
        return Err(InvalidManifest);
      }
      var source, received, from, to := m.officeId.value, m.changes.value, m.from.value, m.to.value;
      if |received| > maxChanges || to < from {
        return Err(InvalidRange);
      }
      if source !in state.peers {
        return Err(UnknownDeltaSource);
      }
      if state.peers[source].trust == PeerRestricted {
        return Err(RestrictedDeltaSource);
      }
      if m.signer != Some(state.peers[source].identity.key) {
        return Err(InvalidDeltaSignature);
      }
      var expected := if source in checkpoints then checkpoints[source] else 0;
      if from != expected {
        return Err(CheckpointMismatch(expected, from));
      }
      assert ApplyRefusal(before, m).None?;
      var last, counts := ScanChanges(source, received, from, now);
      if received != [] && last != to {
        return Err(SequenceMismatch);
      }
      checkpoints := checkpoints[source := to];
      r := Ok(counts);
    }

    /** The loop over the received changes. */
    method ScanChanges(source: string, received: seq<WireChange>, from: int, now: int) returns (last: int, counts: DeltaCounts)
      requires Valid()
      modifies state
      ensures Valid()
      ensures Scan(state.peers, last, counts) ==
                ScanAll(state.officeId, source, now, Scan(old(state.peers), from, NO_COUNTS), received)
    {
      ghost var s := Scan(state.peers, from, NO_COUNTS);
      last, counts := from, NO_COUNTS;
      for i := 0 to |received|
        invariant Valid()
        invariant Scan(state.peers, last, counts) == ScanAll(state.officeId, source, now, s, received[..i])
      {
        assert received[..i + 1][..i] == received[..i];
        last, counts := TakeChange(source, received[i], last, counts, now);
      }
      assert received[..|received|] == received;
    }

    method TakeChange(source: string, w: WireChange, last: int, counts: DeltaCounts, now: int)
        returns (last': int, counts': DeltaCounts)
      requires Valid()
      modifies state
      ensures Valid()
      ensures Scan(state.peers, last', counts') ==
                ScanOne(state.officeId, source, now, Scan(old(state.peers), last, counts), w)
      ensures counts'.applied > counts.applied ==> IsImported(source, old(state.peers), state.peers, w)
      ensures counts'.tombstoned > counts.tombstoned ==> IsWithdrawn(source, now, old(state.peers), state.peers, w)
      ensures counts'.applied == counts.applied && counts'.tombstoned == counts.tombstoned ==> state.peers == old(state.peers)
    {
      last', counts' := last, counts;
      if w.BadChange? || w.sequence.None? || w.sequence.value <= last || w.officeId.None? {
        counts' := counts.(rejected := counts.rejected + 1);
        return;
      }
      last' := w.sequence.value;
      var o := w.officeId.value;
      if o == state.officeId {
        counts' := counts.(skipped := counts.skipped + 1);
        return;
      }
      var existing := Find(state.peers, o);
      match w.operation {
        case Upsert =>
          if !UpsertIsValid(w) {
            counts' := counts.(rejected := counts.rejected + 1);
          } else if existing.Some? && w.record.value.updatedAt <= existing.value.updatedAt {
            counts' := counts.(skipped := counts.skipped + 1);
          } else {
            var standing := if existing.Some? then existing.value.trust else PeerObserved;
            state.SavePeer(Peer(o, w.record.value.identity.value, standing, w.record.value.updatedAt, true,
                                Some(source), Some(last'), None));
            counts' := counts.(applied := counts.applied + 1);
          }
        case Tombstone =>
          if existing.None? {
            counts' := counts.(skipped := counts.skipped + 1);
          } else {
            var at := if w.changedAt.Some? then w.changedAt.value else now;
            var reason := if w.reason.Some? then w.reason.value else "withdrawn";
            state.SavePeer(existing.value.(withdrawn := Some(Withdrawal(at, reason)),
                                           source := Some(source), sequence := Some(last')));
            counts' := counts.(tombstoned := counts.tombstoned + 1);
          }
        case OtherOperation =>
          counts' := counts.(rejected := counts.rejected + 1);
      }
    }
  }
}
