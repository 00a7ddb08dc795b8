/**
 The journal of a sender that goes on recording changes while a receiver pulls
 them: what the receiver holds at any time, and which pulls move it.
 */
module JournalRuns {
  import opened Wrappers
  import opened DirectoryMerge
  import opened JournalSync

  datatype Event = Record(change: Change) | Pull(limit: int, now: int)

  /** The log of the sender and the state of the receiver. */
  datatype Sync = Sync(log: Log, receiver: Receiver)

  ghost function Step(s: Sync, source: string, key: Key, e: Event): (t: Sync)
    requires s.log.Valid()
    ensures t.log.Valid()
  {
    match e
    case Record(c) =>
      AppendKeepsLog(s.log, c);
      s.(log := s.log.Append(c))
    case Pull(limit, now) => s.(receiver := PullOnce(s.receiver, s.log, source, key, limit, now))
  }

  ghost function Run(s: Sync, source: string, key: Key, events: seq<Event>): (t: Sync)
    requires s.log.Valid()
    ensures t.log.Valid()
  {
    if events == [] then s else Step(Run(s, source, key, events[..|events| - 1]), source, key, events[|events| - 1])
  }

  // ------------------------------------------------------------ one pull

  /** Whether a pull is served and accepted; what it carries may still be nothing. */
  ghost predicate GoesThrough(r: Receiver, l: Log, source: string, key: Key, limit: int)
    requires l.Valid() && r.Checkpoint(source) <= l.sequence
  {
    && 1 <= limit <= l.maxChanges
    && 0 <= r.Checkpoint(source) && l.Oldest() - 1 <= r.Checkpoint(source)
    && Trusts(r.peers, source, key)
    && |NextChunk(r, l, source, limit)| <= r.maxChanges
  }

  /** A pull applies its whole chunk, or changes nothing. */
  lemma PullIsAllOrNothing(r: Receiver, l: Log, source: string, key: Key, limit: int, now: int)
    requires l.Valid() && 0 <= r.Checkpoint(source) <= l.sequence
    ensures GoesThrough(r, l, source, key, limit) ==>
              PullOnce(r, l, source, key, limit, now) == Advanced(r, source, NextChunk(r, l, source, limit))
    ensures !GoesThrough(r, l, source, key, limit) ==> PullOnce(r, l, source, key, limit, now) == r
  {
    if 1 <= limit <= l.maxChanges && l.Oldest() - 1 <= r.Checkpoint(source) {
      ServedPull(r, l, source, key, limit, now);
    } else {
      assert l.changes == [] ==> l.Oldest() - 1 == l.sequence == 0;
      assert ManifestSince(l, source, key, r.Checkpoint(source), limit).Err?;
      hide ManifestSince;
    }
  }

  lemma ServedPull(r: Receiver, l: Log, source: string, key: Key, limit: int, now: int)
    requires l.Valid() && 0 <= r.Checkpoint(source) && l.Oldest() - 1 <= r.Checkpoint(source) <= l.sequence
    requires 1 <= limit <= l.maxChanges
    ensures PullOnce(r, l, source, key, limit, now) ==
              if GoesThrough(r, l, source, key, limit) then Advanced(r, source, NextChunk(r, l, source, limit)) else r
  {
    hide NextChunk, Applied, ManifestSince, Delta, Trusts, Log.Valid, Log.Oldest, Pending, Advanced, After;
    var since, chunk := r.Checkpoint(source), NextChunk(r, l, source, limit);
    assert chunk == Take(Pending(l, since), limit) by { ChunkIs(r, l, source, limit); }
    NextManifest(l, source, key, since, limit);
    ChunkOfPending(l, since, limit);
    hide Take;
    if Trusts(r.peers, source, key) && |chunk| <= r.maxChanges {
      AppliedChunk(r, source, key, since, chunk, l.sequence, now);
    } else {
      TurnedAway(r, source, key, since, chunk, l.sequence, now);
    }
  }

  lemma ChunkIs(r: Receiver, l: Log, source: string, limit: nat)
    requires l.Valid() && l.Oldest() - 1 <= r.Checkpoint(source) <= l.sequence
    ensures NextChunk(r, l, source, limit) == Take(Pending(l, r.Checkpoint(source)), limit)
  {}

  lemma TurnedAway(r: Receiver, source: string, key: Key, since: int, chunk: seq<Change>, current: int, now: int)
    requires !Trusts(r.peers, source, key) || |chunk| > r.maxChanges
    ensures Applied(r, Delta(source, key, since, chunk, current), now) == r
  {
    hide Scanned, ApplyResult;
  }

  // ------------------------------------------------------------ all changes since the receiver started

  /** The changes recorded in the course of a run, as the log numbers them. */
  function Recorded(sequence: int, events: seq<Event>): seq<Change> {
    if events == [] then []
    else
      var before, e := Recorded(sequence, events[..|events| - 1]), events[|events| - 1];
      if e.Record? then before + [e.change.(sequence := sequence + |before| + 1)] else before
  }

  /** What was pending at the start, and what was recorded since. */
  ghost function History(s: Sync, source: string, events: seq<Event>): seq<Change>
    requires Retains(s, source)
  {
    Pending(s.log, s.receiver.Checkpoint(source)) + Recorded(s.log.sequence, events)
  }

  ghost predicate Retains(s: Sync, source: string) {
    s.log.Valid() && 0 <= s.receiver.Checkpoint(source) && s.log.Oldest() - 1 <= s.receiver.Checkpoint(source) <= s.log.sequence
  }

  /** The log holds the latest of all changes after `start`. */
  ghost predicate HoldsLatest(l: Log, start: int, all: seq<Change>) {
    && l.Valid() && l.sequence == start + |all|
    && forall i :: 0 <= i < |l.changes| ==> IsInPlace(l.changes[i], start, all)
  }

  /** A change after `start` stands where its number says. */
  ghost predicate IsInPlace(c: Change, start: int, all: seq<Change>) {
    c.sequence > start ==> c.sequence - start <= |all| && c == all[c.sequence - start - 1]
  }

  lemma RecordKeepsLatest(l: Log, start: int, all: seq<Change>, c: Change)
    requires HoldsLatest(l, start, all)
    ensures HoldsLatest(l.Append(c), start, all + [c.(sequence := l.sequence + 1)])
  {
    AppendKeepsLog(l, c);
    AppendedAt(l, c);
    var more, kept := all + [c.(sequence := l.sequence + 1)], l.Append(c).changes;
    hide Log.Append;
    forall i | 0 <= i < |kept|
      ensures IsInPlace(kept[i], start, more)
    {
      if i < |kept| - 1 {
        assert kept[i] == l.changes[i + (|l.changes| + 1 - |kept|)];
        assert IsInPlace(kept[i], start, all);
      }
    }
  }

  lemma PendingIsTheRest(l: Log, start: int, all: seq<Change>, since: int)
    requires HoldsLatest(l, start, all) && start <= since <= l.sequence && l.Oldest() - 1 <= since
    ensures since - start <= |all| && Pending(l, since) == all[since - start..]
  {
    assert |Pending(l, since)| == l.sequence - since;
    hide Pending, HoldsLatest, Log.Valid, Log.Oldest;
    forall j | 0 <= j < |Pending(l, since)|
      ensures Pending(l, since)[j] == all[since - start..][j]
    {
      RestAt(l, start, all, since, j);
    }
  }

  lemma RestAt(l: Log, start: int, all: seq<Change>, since: int, j: nat)
    requires HoldsLatest(l, start, all) && start <= since <= l.sequence && l.Oldest() - 1 <= since
    requires j < l.sequence - since
    ensures |Pending(l, since)| == l.sequence - since && Pending(l, since)[j] == all[since - start + j]
  {
    var k := |l.changes| - (l.sequence - since) + j;
    assert 0 <= k < |l.changes| && l.changes[k].sequence == since + 1 + j;
    assert IsInPlace(l.changes[k], start, all);
    hide HoldsLatest, Log.Valid, Log.Oldest;
  }

  lemma StartHoldsLatest(s: Sync, source: string)
    requires Retains(s, source)
    ensures HoldsLatest(s.log, s.receiver.Checkpoint(source), Pending(s.log, s.receiver.Checkpoint(source)))
  {
    var l, start := s.log, s.receiver.Checkpoint(source);
    assert |Pending(l, start)| == l.sequence - start;
    hide Pending, Log.Oldest, Log.Valid;
    forall i | 0 <= i < |l.changes|
      ensures IsInPlace(l.changes[i], start, Pending(l, start))
    {
      PendingAt(l, start, i);
    }
    hide IsInPlace;
  }

  lemma PendingAt(l: Log, since: int, i: nat)
    requires l.Valid() && l.Oldest() - 1 <= since <= l.sequence && i < |l.changes|
    ensures IsInPlace(l.changes[i], since, Pending(l, since))
  {
    var first := |l.changes| - (l.sequence - since);
    assert l.changes[i].sequence - since - 1 == i - first;
    hide Log.Valid;
    if i >= first {
      assert l.changes[first..][i - first] == l.changes[i];
    }
  }

  /** The receiver has the effect of the first changes of the history, up to its checkpoint. */
  ghost predicate IsCaughtUpTo(r: Receiver, t: Receiver, source: string, all: seq<Change>) {
    var n := t.Checkpoint(source) - r.Checkpoint(source);
    && 0 <= r.Checkpoint(source) && 0 <= n <= |all| && t.own == r.own
    && t.peers == EffectAll(r.own, source, r.peers, all[..n])
  }

  lemma PullCatchesUp(r: Receiver, t: Receiver, l: Log, source: string, key: Key, all: seq<Change>, limit: int, now: int)
    requires HoldsLatest(l, r.Checkpoint(source), all) && IsCaughtUpTo(r, t, source, all)
    ensures IsCaughtUpTo(r, PullOnce(t, l, source, key, limit, now), source, all)
  {
    CaughtUpWithin(r, t, l, source, all);
    hide HoldsLatest, IsCaughtUpTo, Log.Valid, Log.Oldest, PullOnce, Trusts, Pending, EffectAll, Advanced;
    PullIsAllOrNothing(t, l, source, key, limit, now);
    if GoesThrough(t, l, source, key, limit) {
      PendingIsTheRest(l, r.Checkpoint(source), all, t.Checkpoint(source));
      ChunkCatchesUp(r, t, source, all, limit);
    }
  }

  lemma CaughtUpWithin(r: Receiver, t: Receiver, l: Log, source: string, all: seq<Change>)
    requires HoldsLatest(l, r.Checkpoint(source), all) && IsCaughtUpTo(r, t, source, all)
    ensures l.Valid() && 0 <= r.Checkpoint(source) <= t.Checkpoint(source) <= l.sequence
    ensures t.Checkpoint(source) - r.Checkpoint(source) <= |all|
  {}

  lemma ChunkCatchesUp(r: Receiver, t: Receiver, source: string, all: seq<Change>, limit: nat)
    requires IsCaughtUpTo(r, t, source, all)
    ensures IsCaughtUpTo(r, Advanced(t, source, Take(all[t.Checkpoint(source) - r.Checkpoint(source)..], limit)), source, all)
  {
    hide EffectAll;
    var done := t.Checkpoint(source) - r.Checkpoint(source);
    var rest := all[done..];
    var n := |Take(rest, limit)|;
    assert Take(rest, limit) == rest[..n];
    EffectInTurn(r.own, source, r.peers, all, done, n);
  }

  /**
   While the sender goes on recording, whatever is pulled and whichever pulls are refused: the receiver has
   the effect of all changes up to its checkpoint, in order, and of no others. What it still lacks is pending
   in the log for as long as the log retains its checkpoint.
   */
  lemma {:induction false} ReceiversFollowTheHistory(s: Sync, source: string, key: Key, events: seq<Event>)
    requires Retains(s, source)
    ensures var all, t := History(s, source, events), Run(s, source, key, events);
            && HoldsLatest(t.log, s.receiver.Checkpoint(source), all)
            && IsCaughtUpTo(s.receiver, t.receiver, source, all)
            && (Retains(t, source) ==>
                  Pending(t.log, t.receiver.Checkpoint(source)) ==
                    all[t.receiver.Checkpoint(source) - s.receiver.Checkpoint(source)..])
  {
    var all, t := History(s, source, events), Run(s, source, key, events);
    HistoryIsKept(s, source, key, events);
    if Retains(t, source) {
      PendingIsTheRest(t.log, s.receiver.Checkpoint(source), all, t.receiver.Checkpoint(source));
    }
    hide HoldsLatest, IsCaughtUpTo, Run, History, Pending;
  }

  lemma {:induction false} HistoryIsKept(s: Sync, source: string, key: Key, events: seq<Event>)
    requires Retains(s, source)
    ensures var all, t := History(s, source, events), Run(s, source, key, events);
            && HoldsLatest(t.log, s.receiver.Checkpoint(source), all)
            && IsCaughtUpTo(s.receiver, t.receiver, source, all)
  {
    hide Log.Valid, Log.Oldest, Log.Append, EffectAll, PullOnce, Pending;
    var start := s.receiver.Checkpoint(source);
    if events == [] {
      StartHoldsLatest(s, source);
      assert History(s, source, events) == Pending(s.log, start);
      NoEffect(s.receiver.own, source, s.receiver.peers);
      assert History(s, source, events)[..0] == [];
    } else {
      var n := |events| - 1;
      HistoryIsKept(s, source, key, events[..n]);
      var all, t := History(s, source, events[..n]), Run(s, source, key, events[..n]);
      assert |all| == |Pending(s.log, start)| + |Recorded(s.log.sequence, events[..n])|;
      StartHoldsLatest(s, source);
      match events[n]
      case Record(c) =>
        RecordKeepsLatest(t.log, start, all, c);
        assert History(s, source, events) == all + [c.(sequence := t.log.sequence + 1)];
        var k := t.receiver.Checkpoint(source) - start;
        assert (all + [c.(sequence := t.log.sequence + 1)])[..k] == all[..k];
      case Pull(limit, now) =>
        PullCatchesUp(s.receiver, t.receiver, t.log, source, key, all, limit, now);
    }
  }
}
