/**
 Peer records of a telegraph office and the merge of a signed directory into
 them: a last-writer-wins join that never touches local trust.
 */
module DirectoryMerge {
  import opened Wrappers

  /** Signatures are ideal: a document names the key, if any, under which its signature verifies. */
  type Key = nat

  datatype PeerTrust = PeerObserved | PeerTrusted | PeerRestricted

  /** `selfSigned` says that the identity document verifies under its own key. */
  datatype Identity = Identity(officeId: string, key: Key, selfSigned: bool)

  datatype Withdrawal = Withdrawal(at: int, reason: string)

  datatype Peer = Peer(
    officeId: string,
    identity: Identity,
    trust: PeerTrust,
    updatedAt: int,
    verified: bool,
    source: Option<string>,
    sequence: Option<int>,
    withdrawn: Option<Withdrawal>)

  type Peers = map<string, Peer>

  /** One entry of a received directory; an absent field failed its type check. */
  datatype Entry =
    | NotAnObject
    | Entry(officeId: Option<string>, identity: Option<Identity>, updatedAt: Option<int>)

  datatype Directory = Directory(officeId: Option<string>, entries: Option<seq<Entry>>, signer: Option<Key>)

  datatype MergeOutcome = Imported | Updated | Skipped | Refused

  /** The checks an entry passes to count as a record of an office. */
  predicate IsRecordOf(own: string, e: Entry, o: string) {
    && e.Entry? && e.officeId == Some(o) && o != own
    && e.identity.Some? && e.identity.value.officeId == o && e.identity.value.selfSigned
    && e.updatedAt.Some?
  }

  function NewRecord(source: string, e: Entry, o: string, trust: PeerTrust): Peer
    requires e.Entry? && e.identity.Some? && e.updatedAt.Some?
  {
    Peer(o, e.identity.value, trust, e.updatedAt.value, true, Some(source), None, None)
  }

  /** What the loop of `sync_directory` does with one entry. */
  function MergeOne(own: string, source: string, p: Peers, e: Entry): (Peers, MergeOutcome) {
    if e.NotAnObject? then (p, Refused)
    else if e.officeId == Some(own) then (p, Skipped)
    else if e.officeId.None? || e.identity.None? then (p, Refused)
    else
      var o, identity := e.officeId.value, e.identity.value;
      if identity.officeId != o || !identity.selfSigned then (p, Refused)
      else if e.updatedAt.None? then (p, Refused)
      else if o in p && e.updatedAt.value <= p[o].updatedAt then (p, Skipped)
      else if o in p then (p[o := NewRecord(source, e, o, p[o].trust)], Updated)
      else (p[o := NewRecord(source, e, o, PeerObserved)], Imported)
  }

  function Merge(own: string, source: string, p: Peers, es: seq<Entry>): Peers {
    if es == [] then p
    else MergeOne(own, source, Merge(own, source, p, es[..|es| - 1]), es[|es| - 1]).0
  }

  // ------------------------------------------------------------ the merge as a join

  /** The first of the newest records of an office in a list. */
  function Newest(own: string, es: seq<Entry>, o: string): (r: Option<Entry>)
    ensures r.Some? ==> IsRecordOf(own, r.value, o)
  {
    if es == [] then None
    else
      var best, e := Newest(own, es[..|es| - 1], o), es[|es| - 1];
      if !IsRecordOf(own, e, o) then best
      else if best.None? || best.value.updatedAt.value < e.updatedAt.value then Some(e)
      else best
  }

  /** No record is newer, and every record before it is older; there is none only if the list has no record. */
  lemma {:induction false} NewestIsTheFirstNewest(own: string, es: seq<Entry>, o: string)
    ensures Newest(own, es, o).None? <==> forall e :: e in es ==> !IsRecordOf(own, e, o)
    ensures Newest(own, es, o).Some? ==>
              && Newest(own, es, o).value in es
              && (forall e :: e in es && IsRecordOf(own, e, o) ==> e.updatedAt.value <= Newest(own, es, o).value.updatedAt.value)
    ensures Newest(own, es, o).Some? ==> exists k | 0 <= k < |es| && es[k] == Newest(own, es, o).value ::
              forall j :: 0 <= j < k && IsRecordOf(own, es[j], o) ==>
                es[j].updatedAt.value < Newest(own, es, o).value.updatedAt.value
  {
    if es != [] {
      var front := es[..|es| - 1];
      NewestIsTheFirstNewest(own, front, o);
      hide IsRecordOf;
      assert forall e :: e in es <==> e in front || e == es[|es| - 1];
      assert forall j :: 0 <= j < |front| ==> es[j] == front[j] && front[j] in front;
    }
  }

  function Find(p: Peers, o: string): Option<Peer> {
    if o in p then Some(p[o]) else None
  }

  predicate IsEntryWithRecord(e: Option<Entry>) {
    e.Some? ==> e.value.Entry? && e.value.identity.Some? && e.value.updatedAt.Some?
  }

  /** The join of an existing record with the newest received one: the later wins, ties keep what is there. */
  function Join(source: string, o: string, existing: Option<Peer>, newest: Option<Entry>): Option<Peer>
    requires IsEntryWithRecord(newest)
  {
    if newest.None? then existing
    else if existing.None? then Some(NewRecord(source, newest.value, o, PeerObserved))
    else if newest.value.updatedAt.value <= existing.value.updatedAt then existing
    else Some(NewRecord(source, newest.value, o, existing.value.trust))
  }

  lemma MergeOneMeaning(own: string, source: string, p: Peers, e: Entry, o: string)
    ensures Find(MergeOne(own, source, p, e).0, o) ==
              Join(source, o, Find(p, o), if IsRecordOf(own, e, o) then Some(e) else None)
  {}

  /** Entry by entry, the loop computes the join: each office ends with the newest record offered or held. */
  lemma {:induction false} MergeIsLastWriterWins(own: string, source: string, p: Peers, es: seq<Entry>, o: string)
    ensures Find(Merge(own, source, p, es), o) == Join(source, o, Find(p, o), Newest(own, es, o))
  {
    if es != [] {
      var front := es[..|es| - 1];
      hide MergeOne, IsRecordOf, NewRecord, Find;
      MergeIsLastWriterWins(own, source, p, front, o);
      MergeOneMeaning(own, source, Merge(own, source, p, front), es[|es| - 1], o);
    }
  }

  lemma EqualPeers(p: Peers, r: Peers)
    requires forall o :: Find(p, o) == Find(r, o)
    ensures p == r
  {
    forall o ensures (o in p <==> o in r) && (o in p ==> p[o] == r[o]) {
      assert Find(p, o) == Find(r, o);
    }
  }

  /** Merging never changes the trust of a peer, and newcomers are only observed. */
  lemma MergeKeepsTrust(own: string, source: string, p: Peers, es: seq<Entry>, o: string)
    ensures o in p ==> o in Merge(own, source, p, es) && Merge(own, source, p, es)[o].trust == p[o].trust
    ensures o !in p && o in Merge(own, source, p, es) ==> Merge(own, source, p, es)[o].trust == PeerObserved
  {
    MergeIsLastWriterWins(own, source, p, es, o);
  }

  /** Merging the same directory again changes nothing, and imports and updates nothing. */
  lemma MergeIsIdempotent(own: string, source: string, p: Peers, es: seq<Entry>)
    ensures Merge(own, source, Merge(own, source, p, es), es) == Merge(own, source, p, es)
    ensures forall e :: e in es ==>
              var r := MergeOne(own, source, Merge(own, source, p, es), e);
              r.0 == Merge(own, source, p, es) && (r.1.Skipped? || r.1.Refused?)
  {
    var m := Merge(own, source, p, es);
    forall o ensures Find(Merge(own, source, m, es), o) == Find(m, o) {
      MergeIsLastWriterWins(own, source, p, es, o);
      MergeIsLastWriterWins(own, source, m, es, o);
    }
    EqualPeers(Merge(own, source, m, es), m);
    forall e | e in es && e.Entry? && e.officeId.Some? && IsRecordOf(own, e, e.officeId.value)
      ensures e.officeId.value in m && e.updatedAt.value <= m[e.officeId.value].updatedAt
    {
      MergeIsLastWriterWins(own, source, p, es, e.officeId.value);
      NewestIsTheFirstNewest(own, es, e.officeId.value);
    }
  }

  /** No office is recorded at one and the same time by both lists. */
  ghost predicate DistinctTimes(own: string, a: seq<Entry>, b: seq<Entry>) {
    forall x, y, o :: x in a && y in b && IsRecordOf(own, x, o) && IsRecordOf(own, y, o) ==> x.updatedAt != y.updatedAt
  }

  lemma NewestDiffer(own: string, a: seq<Entry>, b: seq<Entry>, o: string)
    requires DistinctTimes(own, a, b)
    ensures var x, y := Newest(own, a, o), Newest(own, b, o);
            && IsEntryWithRecord(x) && IsEntryWithRecord(y)
            && (x.Some? && y.Some? ==> x.value.updatedAt != y.value.updatedAt)
  {
    NewestIsTheFirstNewest(own, a, o);
    NewestIsTheFirstNewest(own, b, o);
  }

  lemma JoinsCommute(s: string, t: string, o: string, x: Option<Peer>, a: Option<Entry>, b: Option<Entry>)
    requires IsEntryWithRecord(a) && IsEntryWithRecord(b)
    requires a.Some? && b.Some? ==> a.value.updatedAt != b.value.updatedAt
    ensures Join(t, o, Join(s, o, x, a), b) == Join(s, o, Join(t, o, x, b), a)
  {}

  /** Two directories whose records carry distinct times merge to the same peers in either order. */
  lemma MergesCommute(own: string, s: string, a: seq<Entry>, t: string, b: seq<Entry>, p: Peers)
    requires DistinctTimes(own, a, b)
    ensures Merge(own, t, Merge(own, s, p, a), b) == Merge(own, s, Merge(own, t, p, b), a)
  {
    hide Merge, Join, Find, Newest, DistinctTimes, IsRecordOf;
    var ab, ba := Merge(own, t, Merge(own, s, p, a), b), Merge(own, s, Merge(own, t, p, b), a);
    forall o ensures Find(ab, o) == Find(ba, o) {
      MergeIsLastWriterWins(own, s, p, a, o);
      MergeIsLastWriterWins(own, t, Merge(own, s, p, a), b, o);
      MergeIsLastWriterWins(own, t, p, b, o);
      MergeIsLastWriterWins(own, s, Merge(own, t, p, b), a, o);
      NewestDiffer(own, a, b, o);
      JoinsCommute(s, t, o, Find(p, o), Newest(own, a, o), Newest(own, b, o));
    }
    EqualPeers(ab, ba);
  }

  // ------------------------------------------------------------ accepting a directory

  datatype SyncError =
    | InvalidDirectory | DirectoryTooLarge | UnknownSource | RestrictedSource | InvalidSignature

  datatype SyncCounts = SyncCounts(imported: nat, updated: nat, skipped: nat, refused: nat)

  function CountOutcome(c: SyncCounts, o: MergeOutcome): SyncCounts {
    match o
    case Imported => c.(imported := c.imported + 1)
    case Updated => c.(updated := c.updated + 1)
    case Skipped => c.(skipped := c.skipped + 1)
    case Refused => c.(refused := c.refused + 1)
  }

  /** Why a directory is turned away before its entries are read. */
  function SyncRefusal(p: Peers, d: Directory): Option<SyncError> {
    if d.officeId.None? || d.entries.None? then Some(InvalidDirectory)
    else if |d.entries.value| > 1000 then Some(DirectoryTooLarge)
    else if d.officeId.value !in p then Some(UnknownSource)
    else if p[d.officeId.value].trust == PeerRestricted then Some(RestrictedSource)
    else if d.signer != Some(p[d.officeId.value].identity.key) then Some(InvalidSignature)
    else None
  }

  function Synced(own: string, p: Peers, d: Directory): Peers {
    if SyncRefusal(p, d).Some? then p else Merge(own, d.officeId.value, p, d.entries.value)
  }

  /** Sending a directory twice is the same as sending it once, whether or not it is accepted the second time. */
  lemma ResendingADirectoryChangesNothing(own: string, p: Peers, d: Directory)
    ensures Synced(own, Synced(own, p, d), d) == Synced(own, p, d)
  {
    if SyncRefusal(p, d).None? {
      MergeIsIdempotent(own, d.officeId.value, p, d.entries.value);
    }
  }

  /** Two directories accepted in both orders leave the same peers, if their records carry distinct times. */
  lemma AcceptedDirectoriesCommute(own: string, p: Peers, c: Directory, d: Directory)
    requires SyncRefusal(p, c).None? && SyncRefusal(Synced(own, p, c), d).None?
    requires SyncRefusal(p, d).None? && SyncRefusal(Synced(own, p, d), c).None?
    requires DistinctTimes(own, c.entries.value, d.entries.value)
    ensures Synced(own, Synced(own, p, c), d) == Synced(own, Synced(own, p, d), c)
  {
    MergesCommute(own, c.officeId.value, c.entries.value, d.officeId.value, d.entries.value, p);
  }

  /** A directory can only lose its acceptance if the other one re-keyed its source. */
  lemma AcceptanceSurvivesUnlessRekeyed(own: string, p: Peers, c: Directory, d: Directory)
    requires SyncRefusal(p, c).None? && SyncRefusal(p, d).None?
    ensures SyncRefusal(Synced(own, p, c), d).None? <==>
              var newest := Newest(own, c.entries.value, d.officeId.value);
              newest.None? || newest.value.updatedAt.value <= p[d.officeId.value].updatedAt
              || newest.value.identity.value.key == p[d.officeId.value].identity.key
  {
    MergeIsLastWriterWins(own, c.officeId.value, p, c.entries.value, d.officeId.value);
    MergeKeepsTrust(own, c.officeId.value, p, c.entries.value, d.officeId.value);
  }

  // ------------------------------------------------------------ a synchronisation in full

  /** An entry about another office, with that office's self-signed identity and a time. */
  predicate IsProper(own: string, e: Entry) {
    && e.Entry?
    && e.officeId.Some? && e.officeId.value != own
    && e.identity.Some? && e.identity.value.officeId == e.officeId.value && e.identity.value.selfSigned
    && e.updatedAt.Some?
  }

  predicate IsAboutUs(own: string, e: Entry) {
    e.Entry? && e.officeId == Some(own)
  }

  /** Both entries are proper and about one office. */
  predicate SameOffice(own: string, a: Entry, b: Entry) {
    IsProper(own, a) && IsProper(own, b) && a.officeId == b.officeId
  }

  /** Entry i is newer than what is held of its office and than the entries about it further up. */
  ghost predicate IsNews(own: string, p: Peers, es: seq<Entry>, i: nat) {
    && i < |es| && IsProper(own, es[i])
    && (es[i].officeId.value in p ==> p[es[i].officeId.value].updatedAt < es[i].updatedAt.value)
    && (forall j :: 0 <= j < i && SameOffice(own, es[j], es[i]) ==> es[j].updatedAt.value < es[i].updatedAt.value)
  }

  /** Entry i is the first to mention an office that is not known. */
  ghost predicate IsFirstMention(own: string, p: Peers, es: seq<Entry>, i: nat) {
    && i < |es| && IsProper(own, es[i])
    && es[i].officeId.value !in p
    && (forall j :: 0 <= j < i ==> !SameOffice(own, es[j], es[i]))
  }

  /** The four ways an entry can fare. */
  ghost predicate FaresAs(own: string, p: Peers, es: seq<Entry>, i: nat, o: MergeOutcome)
    requires i < |es|
  {
    match o
    case Imported => IsFirstMention(own, p, es, i)
    case Updated => IsNews(own, p, es, i) && !IsFirstMention(own, p, es, i)
    case Skipped => IsAboutUs(own, es[i]) || (IsProper(own, es[i]) && !IsNews(own, p, es, i))
    case Refused => !IsAboutUs(own, es[i]) && !IsProper(own, es[i])
  }

  function OutcomeAt(own: string, source: string, p: Peers, es: seq<Entry>, i: nat): MergeOutcome
    requires i < |es|
  {
    MergeOne(own, source, Merge(own, source, p, es[..i]), es[i]).1
  }

  /** What is held of an office after some entries: something exactly if it was known or mentioned, and the newest. */
  lemma HeldAfter(own: string, source: string, p: Peers, es: seq<Entry>, i: nat, e: Entry)
    requires i <= |es| && IsProper(own, e)
    ensures var m, o := Merge(own, source, p, es[..i]), e.officeId.value;
            && (o in m <==> o in p || exists j :: 0 <= j < i && SameOffice(own, es[j], e))
            && (o in m ==>
                  (m[o].updatedAt < e.updatedAt.value <==>
                    && (o in p ==> p[o].updatedAt < e.updatedAt.value)
                    && forall j :: 0 <= j < i && SameOffice(own, es[j], e) ==> es[j].updatedAt.value < e.updatedAt.value))
  {
    var o, front := e.officeId.value, es[..i];
    MergeIsLastWriterWins(own, source, p, front, o);
    NewestIsTheFirstNewest(own, front, o);
    forall j | 0 <= j < i
      ensures SameOffice(own, es[j], e) <==> IsRecordOf(own, es[j], o)
      ensures front[j] == es[j] && es[j] in front
    {}
    hide Merge, Newest;
    var newest := Newest(own, front, o);
    if newest.Some? {
      var k :| 0 <= k < i && es[k] == newest.value;
      assert SameOffice(own, es[k], e);
    }
  }

  lemma {:induction false} OutcomeInFull(own: string, source: string, p: Peers, es: seq<Entry>, i: nat)
    requires i < |es|
    ensures forall o :: FaresAs(own, p, es, i, o) <==> o == OutcomeAt(own, source, p, es, i)
  {
    var e := es[i];
    if IsProper(own, e) {
      HeldAfter(own, source, p, es, i, e);
      hide Merge, NewRecord;
      assert IsFirstMention(own, p, es, i) ==> IsNews(own, p, es, i);
    } else {
      hide Merge, NewRecord;
    }
  }

  /** The entries that fare in one way, as positions in the list. */
  ghost function Faring(own: string, p: Peers, es: seq<Entry>, n: nat, o: MergeOutcome): set<nat>
    requires n <= |es|
  {
    set i: nat | i < n && FaresAs(own, p, es, i, o)
  }

  lemma OneMore(before: set<nat>, after: set<nat>, n: nat, grows: bool)
    requires n !in before && after == if grows then before + {n} else before
    ensures |after| == |before| + (if grows then 1 else 0)
  {}

  lemma OneMoreFares(own: string, p: Peers, es: seq<Entry>, n: nat, o: MergeOutcome)
    requires n < |es|
    ensures |Faring(own, p, es, n + 1, o)| == |Faring(own, p, es, n, o)| + (if FaresAs(own, p, es, n, o) then 1 else 0)
  {
    hide FaresAs;
    var before, after, grows := Faring(own, p, es, n, o), Faring(own, p, es, n + 1, o), FaresAs(own, p, es, n, o);
    forall i: nat ensures i in after <==> i in before || (grows && i == n) {}
    assert n !in before;
    hide Faring;
    OneMore(before, after, n, grows);
  }

  /** The four counts are the numbers of entries that fared so. */
  ghost predicate CountsFaring(own: string, p: Peers, es: seq<Entry>, n: nat, c: SyncCounts)
    requires n <= |es|
  {
    && c.imported == |Faring(own, p, es, n, Imported)|
    && c.updated == |Faring(own, p, es, n, Updated)|
    && c.skipped == |Faring(own, p, es, n, Skipped)|
    && c.refused == |Faring(own, p, es, n, Refused)|
  }

  lemma CountsOneMore(own: string, source: string, p: Peers, es: seq<Entry>, n: nat, c: SyncCounts)
    requires n < |es| && CountsFaring(own, p, es, n, c)
    ensures CountsFaring(own, p, es, n + 1, CountOutcome(c, OutcomeAt(own, source, p, es, n)))
  {
    OutcomeInFull(own, source, p, es, n);
    OneMoreFares(own, p, es, n, Imported);
    OneMoreFares(own, p, es, n, Updated);
    OneMoreFares(own, p, es, n, Skipped);
    OneMoreFares(own, p, es, n, Refused);
    hide FaresAs, OutcomeAt, Faring;
  }

  lemma NothingFares(own: string, p: Peers, es: seq<Entry>)
    ensures CountsFaring(own, p, es, 0, SyncCounts(0, 0, 0, 0))
  {}

  /** What is held of an office is what was held, or what a proper entry says, under the trust it had or as observed. */
  ghost predicate IsHeldOrHeard(own: string, source: string, p: Peers, es: seq<Entry>, o: string, record: Peer) {
    || (o in p && record == p[o])
    || exists i: nat :: IsNews(own, p, es, i) && es[i].officeId == Some(o) && IsRecordFrom(source, p, es[i], o, record)
  }

  predicate IsRecordFrom(source: string, p: Peers, e: Entry, o: string, record: Peer)
    requires e.Entry? && e.identity.Some? && e.updatedAt.Some?
  {
    && record.officeId == o && record.identity == e.identity.value && record.updatedAt == e.updatedAt.value
    && record.trust == (if o in p then p[o].trust else PeerObserved)
    && record.verified && record.source == Some(source) && record.sequence.None? && record.withdrawn.None?
  }

  lemma HeldOrHeard(own: string, source: string, p: Peers, es: seq<Entry>, o: string)
    ensures o in p ==> o in Merge(own, source, p, es)
    ensures o in Merge(own, source, p, es) ==> IsHeldOrHeard(own, source, p, es, o, Merge(own, source, p, es)[o])
  {
    MergeIsLastWriterWins(own, source, p, es, o);
    NewestIsTheFirstNewest(own, es, o);
    hide Merge;
    var newest := Newest(own, es, o);
    var m := Find(Merge(own, source, p, es), o);
    if newest.Some? && m != Find(p, o) {
      var k: nat :| k < |es| && es[k] == newest.value &&
        forall j :: 0 <= j < k && IsRecordOf(own, es[j], o) ==> es[j].updatedAt.value < newest.value.updatedAt.value;
      hide Newest;
      assert IsNews(own, p, es, k);
      assert IsRecordFrom(source, p, es[k], o, m.value);
    }
  }

  /** The directory is signed by a known source that is not restricted, and not too long. */
  predicate IsFromAKnownSource(p: Peers, d: Directory) {
    && d.officeId.Some? && d.entries.Some?
    && |d.entries.value| <= 1000
    && d.officeId.value in p
    && !p[d.officeId.value].trust.PeerRestricted?
    && d.signer == Some(p[d.officeId.value].identity.key)
  }

  lemma AcceptanceInFull(p: Peers, d: Directory)
    ensures SyncRefusal(p, d).None? <==> IsFromAKnownSource(p, d)
  {}

  // ------------------------------------------------------------ the office's peer table

  datatype Registration = Registration(officeId: Option<string>, identity: Option<Identity>, trust: Option<PeerTrust>)

  datatype RegisterError = InvalidPeerRecord | IdentityMismatch | InvalidTrust | InvalidPeerSignature

  class TelegraphOfficeState {
    const officeId: string
    var peers: Peers
    var trust: map<string, PeerTrust>

    /** The office's trust table mirrors the trust recorded for its peers. */
    ghost predicate Valid()
      reads this
    {
      && (forall o :: o in peers ==> peers[o].officeId == o)
      && (forall o :: o in peers ==> o in trust && trust[o] == peers[o].trust)
    }

    /** Restarting loads the stored peers and fills the trust table from them. */
    constructor (officeId: string, stored: Peers)
      requires forall o :: o in stored ==> stored[o].officeId == o
      ensures this.officeId == officeId && peers == stored && Valid()
      ensures trust.Keys == stored.Keys
    {
      this.officeId := officeId;
      this.peers := stored;
      this.trust := map o | o in stored :: stored[o].trust;
    }

    method SavePeer(record: Peer)
      requires Valid()
      modifies this
      ensures Valid() && peers == old(peers)[record.officeId := record]
      ensures trust == old(trust)[record.officeId := record.trust]
    {
      peers := peers[record.officeId := record];
      trust := trust[record.officeId := record.trust];
    }

    /** `trust` is `None` when the request names a standing outside the known three. */
    method RegisterPeer(doc: Registration, now: int) returns (r: Result<Peer, RegisterError>)
      requires Valid()
      modifies this
      ensures Valid()
      ensures r.Err? ==> peers == old(peers)
      ensures r.Ok? <==>
        && doc.officeId.Some? && doc.identity.Some? && doc.trust.Some?
        && doc.identity.value.officeId == doc.officeId.value && doc.identity.value.selfSigned
      ensures r.Ok? ==>
        && peers == old(peers)[doc.officeId.value := r.value]
        && r.value == Peer(doc.officeId.value, doc.identity.value, doc.trust.value, now, true, None, None, None)
    {
      if doc.officeId.None? || doc.identity.None? {
        return Err(InvalidPeerRecord);
      }
      if doc.identity.value.officeId != doc.officeId.value {
        return Err(IdentityMismatch);
      }
      if doc.trust.None? {
        return Err(InvalidTrust);
      }
      if !doc.identity.value.selfSigned {
        return Err(InvalidPeerSignature);
      }
      var record := Peer(doc.officeId.value, doc.identity.value, doc.trust.value, now, true, None, None, None);
      SavePeer(record);
      r := Ok(record);
    }

    method SyncDirectory(d: Directory) returns (r: Result<SyncCounts, SyncError>)
      requires Valid()
      modifies this
      ensures Valid()
      ensures peers == Synced(officeId, old(peers), d)
      ensures r.Err? <==> SyncRefusal(old(peers), d).Some?
      ensures r.Err? ==> r.error == SyncRefusal(old(peers), d).value
      ensures r.Ok? ==>
        && r.value.imported + r.value.updated + r.value.skipped + r.value.refused == |d.entries.value|
        && r.value.imported == |peers| - |old(peers)|
      ensures r.Ok? <==> IsFromAKnownSource(old(peers), d)
      ensures r.Err? ==> peers == old(peers)
      ensures r.Ok? ==> CountsFaring(officeId, old(peers), d.entries.value, |d.entries.value|, r.value)
      ensures r.Ok? ==> forall o :: o in old(peers) ==> o in peers
      ensures r.Ok? ==> forall o :: o in peers ==>
        IsHeldOrHeard(officeId, d.officeId.value, old(peers), d.entries.value, o, peers[o])
    {
      AcceptanceInFull(peers, d);
      hide Merge, Valid, CountsFaring, IsHeldOrHeard;
      if d.officeId.None? || d.entries.None? {
        return Err(InvalidDirectory);
      }
      var source, entries := d.officeId.value, d.entries.value;
      if |entries| > 1000 {
        return Err(DirectoryTooLarge);
      }
      if source !in peers {
        return Err(UnknownSource);
      }
      if peers[source].trust == PeerRestricted {
        return Err(RestrictedSource);
      }
      if d.signer != Some(peers[source].identity.key) {
        return Err(InvalidSignature);
      }
      forall o {
        HeldOrHeard(officeId, source, peers, entries, o);
      }
      var counts := TakeEntries(source, entries);
      r := Ok(counts);
    }

    method TakeEntries(source: string, entries: seq<Entry>) returns (counts: SyncCounts)
      requires Valid()
      modifies this
      ensures Valid() && peers == Merge(officeId, source, old(peers), entries)
      ensures counts.imported + counts.updated + counts.skipped + counts.refused == |entries|
      ensures counts.imported == |peers| - |old(peers)|
      ensures CountsFaring(officeId, old(peers), entries, |entries|, counts)
    {
      hide MergeOne, Valid, FaresAs, CountsFaring;
      NothingFares(officeId, peers, entries);
      counts := SyncCounts(0, 0, 0, 0);
      for i := 0 to |entries|
        invariant Valid() && peers == Merge(officeId, source, old(peers), entries[..i])
        invariant counts.imported + counts.updated + counts.skipped + counts.refused == i
        invariant counts.imported == |peers| - |old(peers)|
        invariant CountsFaring(officeId, old(peers), entries, i, counts)
      {
        assert entries[..i + 1][..i] == entries[..i];
        CountsOneMore(officeId, source, old(peers), entries, i, counts);
        var outcome := TakeEntry(source, entries[i]);
        counts := CountOutcome(counts, outcome);
      }
      assert entries[..|entries|] == entries;
    }

    /** One entry of the directory: checked, then skipped, imported or used to update what is held. */
    method TakeEntry(source: string, e: Entry) returns (outcome: MergeOutcome)
      requires Valid()
      modifies this
      ensures Valid() && (peers, outcome) == MergeOne(officeId, source, old(peers), e)
      ensures |peers| == |old(peers)| + if outcome.Imported? then 1 else 0
    {
      if e.NotAnObject? {
        return Refused;
      }
      if e.officeId == Some(officeId) {
        return Skipped;
      }
      if e.officeId.None? || e.identity.None? {
        return Refused;
      }
      var o := e.officeId.value;
      if e.identity.value.officeId != o || !e.identity.value.selfSigned || e.updatedAt.None? {
        return Refused;
      }
      var existing := Find(peers, o);
      if existing.Some? && e.updatedAt.value <= existing.value.updatedAt {
        return Skipped;
      }
      SavePeer(NewRecord(source, e, o, if existing.Some? then existing.value.trust else PeerObserved));
      outcome := if existing.None? then Imported else Updated;
    }
  }
}
