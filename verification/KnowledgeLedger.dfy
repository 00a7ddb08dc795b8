/**
 The knowledge ledger: ingestion appends one record for each new combination of
 asset, location, method, version and facts, and reuses the record it finds.

 Idempotency keys and record ids are ideal digests, so a key is the
 combination itself and an id made by ingestion is named by its key.
 */
module KnowledgeLedger {
  import opened Wrappers
  import opened HashChain

  const EXTRACTION_METHOD := "cookie-monster-alpha-metadata"

  datatype Facts = Facts(filename: string, extension: string, sizeBytes: nat, mimeType: string)

  datatype Asset = Asset(
    assetId: string,
    location: string,
    facts: Facts,
    timestamp: string,
    actor: string,
    actorVersion: string,
    diagnostics: seq<string>)

  datatype Key = Key(assetId: string, location: string, extraction: string, version: string, facts: Facts)

  datatype RecordId = FromKey(key: Key) | Named(text: string)

  /** A ledger row read back: `key` is its stored idempotency key, `parts` what its other fields would give. */
  datatype Entry = Entry(
    id: RecordId,
    key: Option<Key>,
    parts: Option<Key>,
    timestamp: string,
    actor: string,
    actorVersion: string,
    confidence: real,
    status: string)

  type Ledger = seq<Link<Entry>>

  function AssetKey(a: Asset, version: string): Key {
    Key(a.assetId, a.location, EXTRACTION_METHOD, version, a.facts)
  }

  function EntryKey(e: Entry): Option<Key> {
    if e.key.Some? then e.key else e.parts
  }

  function EntryFor(a: Asset, version: string): Entry {
    var key := AssetKey(a, version);
    Entry(FromKey(key), Some(key), Some(key), a.timestamp, a.actor, a.actorVersion,
          if a.diagnostics == [] then 1.0 else 0.7,
          if a.diagnostics == [] then "draft" else "pending_review")
  }

  /** The last row with a key, as the dictionary built over all rows keeps it. */
  function Lookup(rows: Ledger, key: Key): Option<Link<Entry>> {
    if rows == [] then None
    else
      var n := |rows| - 1;
      if EntryKey(rows[n].content) == Some(key) then Some(rows[n]) else Lookup(rows[..n], key)
  }

  function IngestOne(rows: Ledger, a: Asset, version: string): Ledger {
    if Lookup(rows, AssetKey(a, version)).Some? then rows else Appended(rows, EntryFor(a, version))
  }

  function Ingest(rows: Ledger, assets: seq<Asset>, version: string): Ledger {
    if assets == [] then rows
    else
      var n := |assets| - 1;
      IngestOne(Ingest(rows, assets[..n], version), assets[n], version)
  }

  /** The record a run reports for each asset, old or new. */
  function Reported(rows: Ledger, assets: seq<Asset>, version: string): seq<Option<Link<Entry>>> {
    seq(|assets|, i requires 0 <= i < |assets| => Lookup(Ingest(rows, assets[..i + 1], version), AssetKey(assets[i], version)))
  }

  // ------------------------------------------------------------ one key, one record

  lemma {:induction false} LookupFinds(rows: Ledger, key: Key)
    ensures Lookup(rows, key).Some? <==> exists i :: 0 <= i < |rows| && EntryKey(rows[i].content) == Some(key)
    ensures Lookup(rows, key).Some? ==>
              Lookup(rows, key).value in rows && EntryKey(Lookup(rows, key).value.content) == Some(key)
  {
    if rows != [] {
      var n := |rows| - 1;
      LookupFinds(rows[..n], key);
      assert forall i :: 0 <= i < n ==> rows[..n][i] == rows[i];
    }
  }

  /** Rows are only added, each for a key that no row before it carries. */
  ghost predicate Extends(before: Ledger, after: Ledger) {
    && before <= after
    && (forall j :: |before| <= j < |after| ==> EntryKey(after[j].content).Some?)
    && (forall i, j :: 0 <= i < j && |before| <= j < |after| ==> EntryKey(after[i].content) != EntryKey(after[j].content))
  }

  lemma IngestOneExtends(before: Ledger, rows: Ledger, a: Asset, version: string)
    requires Extends(before, rows)
    ensures Extends(before, IngestOne(rows, a, version))
    ensures InStep(rows) ==> InStep(IngestOne(rows, a, version)) && Gaps(IngestOne(rows, a, version)) == Gaps(rows)
    ensures Lookup(IngestOne(rows, a, version), AssetKey(a, version)).Some?
  {
    LookupFinds(rows, AssetKey(a, version));
    AppendingAddsNoGap(rows, EntryFor(a, version));
    if Lookup(rows, AssetKey(a, version)).None? {
      assert forall i :: 0 <= i < |rows| ==> EntryKey(rows[i].content) != Some(AssetKey(a, version));
      LookupFinds(IngestOne(rows, a, version), AssetKey(a, version));
      hide Gaps, InStep, Lookup, LatestHash;
      assert EntryKey(IngestOne(rows, a, version)[|rows|].content) == Some(AssetKey(a, version));
    }
  }

  /** Ingestion never writes a key the ledger already holds, whatever the ledger held before, and breaks no chain. */
  lemma {:induction false} IngestWritesEachKeyOnce(rows: Ledger, assets: seq<Asset>, version: string)
    ensures Extends(rows, Ingest(rows, assets, version))
    ensures InStep(rows) ==> InStep(Ingest(rows, assets, version)) && Gaps(Ingest(rows, assets, version)) == Gaps(rows)
  {
    hide Gaps, InStep, Extends;
    if assets == [] {
      assert Extends(rows, rows) by { ExtendsItself(rows); }
    } else {
      var n := |assets| - 1;
      IngestWritesEachKeyOnce(rows, assets[..n], version);
      IngestOneExtends(rows, Ingest(rows, assets[..n], version), assets[n], version);
    }
  }

  lemma ExtendsItself(rows: Ledger)
    ensures Extends(rows, rows)
  {}

  /** Once a key has its record, no later row takes its place. */
  lemma {:induction false} RecordsAreForever(before: Ledger, after: Ledger, key: Key)
    requires Extends(before, after) && Lookup(before, key).Some?
    ensures Lookup(after, key) == Lookup(before, key)
    decreases |after|
  {
    if |before| < |after| {
      var n := |after| - 1;
      LookupFinds(before, key);
      assert EntryKey(after[n].content) != Some(key);
      assert Extends(before, after[..n]);
      RecordsAreForever(before, after[..n], key);
    } else {
      assert before == after;
    }
  }

  // ------------------------------------------------------------ reruns

  lemma {:induction false} EveryAssetIsCovered(rows: Ledger, assets: seq<Asset>, version: string, i: nat)
    requires i < |assets|
    ensures Lookup(Ingest(rows, assets, version), AssetKey(assets[i], version)).Some?
  {
    hide Extends, Gaps, InStep, Lookup;
    var n := |assets| - 1;
    var key := AssetKey(assets[i], version);
    IngestWritesEachKeyOnce(rows, assets[..n], version);
    var mid := Ingest(rows, assets[..n], version);
    IngestOneExtends(rows, mid, assets[n], version);
    if i < n {
      EveryAssetIsCovered(rows, assets[..n], version, i);
      IngestWritesEachKeyOnce(mid, [assets[n]], version);
      IngestOneStep(mid, assets[n], version);
      RecordsAreForever(mid, Ingest(rows, assets, version), key);
    }
  }

  lemma IngestOneStep(rows: Ledger, a: Asset, version: string)
    ensures Ingest(rows, [a], version) == IngestOne(rows, a, version)
  {
    assert [a][..0] == [];
    assert Ingest(rows, [], version) == rows;
  }

  lemma {:induction false} CoveredAssetsAddNothing(rows: Ledger, assets: seq<Asset>, version: string)
    requires forall i :: 0 <= i < |assets| ==> Lookup(rows, AssetKey(assets[i], version)).Some?
    ensures Ingest(rows, assets, version) == rows
  {
    if assets != [] {
      var n := |assets| - 1;
      assert forall i :: 0 <= i < n ==> assets[..n][i] == assets[i];
      CoveredAssetsAddNothing(rows, assets[..n], version);
    }
  }

  /** The same files again: equal keys, whatever the timestamps, actors and diagnostics. */
  ghost predicate SameAssets(a: seq<Asset>, b: seq<Asset>, version: string) {
    |a| == |b| && forall i :: 0 <= i < |a| ==> AssetKey(a[i], version) == AssetKey(b[i], version)
  }

  /** A rerun on unchanged assets, after any other runs, adds no row and reports the very records of the first run. */
  lemma RerunsChangeNothing(rows: Ledger, assets: seq<Asset>, version: string, later: Ledger, again: seq<Asset>)
    requires Extends(Ingest(rows, assets, version), later) && SameAssets(assets, again, version)
    ensures Ingest(later, again, version) == later
    ensures Reported(later, again, version) == Reported(rows, assets, version)
  {
    hide Extends, Ingest, Lookup, Reported;
    forall i | 0 <= i < |assets|
      ensures Lookup(later, AssetKey(again[i], version)).Some?
      ensures Lookup(later, AssetKey(again[i], version))
                == Lookup(Ingest(rows, assets[..i + 1], version), AssetKey(assets[i], version))
    {
      FirstReportStands(rows, assets, version, later, i);
    }
    CoveredAssetsAddNothing(later, again, version);
    forall i | 0 <= i < |again|
      ensures Lookup(Ingest(later, again[..i + 1], version), AssetKey(again[i], version))
                == Lookup(Ingest(rows, assets[..i + 1], version), AssetKey(assets[i], version))
    {
      assert forall j :: 0 <= j < i + 1 ==> again[..i + 1][j] == again[j];
      CoveredAssetsAddNothing(later, again[..i + 1], version);
    }
    SameReports(rows, assets, version, later, again);
  }

  lemma SameReports(rows: Ledger, assets: seq<Asset>, version: string, later: Ledger, again: seq<Asset>)
    requires |assets| == |again|
    requires forall i :: 0 <= i < |again| ==>
               Lookup(Ingest(later, again[..i + 1], version), AssetKey(again[i], version))
                 == Lookup(Ingest(rows, assets[..i + 1], version), AssetKey(assets[i], version))
    ensures Reported(later, again, version) == Reported(rows, assets, version)
  {
    hide Ingest, Lookup, AssetKey;
  }

  lemma FirstReportStands(rows: Ledger, assets: seq<Asset>, version: string, later: Ledger, i: nat)
    requires i < |assets| && Extends(Ingest(rows, assets, version), later)
    ensures Lookup(later, AssetKey(assets[i], version)).Some?
    ensures Lookup(later, AssetKey(assets[i], version))
              == Lookup(Ingest(rows, assets[..i + 1], version), AssetKey(assets[i], version))
  {
    hide Extends, Ingest, Lookup;
    var upTo := assets[..i + 1];
    var key := AssetKey(assets[i], version);
    assert upTo[i] == assets[i];
    EveryAssetIsCovered(rows, upTo, version, i);
    PrefixIsExtended(rows, assets, version, i + 1);
    RecordsAreForever(Ingest(rows, upTo, version), Ingest(rows, assets, version), key);
    RecordsAreForever(Ingest(rows, assets, version), later, key);
  }

  lemma PrefixIsExtended(rows: Ledger, assets: seq<Asset>, version: string, k: nat)
    requires k <= |assets|
    ensures Extends(Ingest(rows, assets[..k], version), Ingest(rows, assets, version))
  {
    hide Ingest, Extends, Gaps, InStep;
    assert assets == assets[..k] + assets[k..];
    IngestInBatches(rows, assets[..k], assets[k..], version);
    IngestWritesEachKeyOnce(Ingest(rows, assets[..k], version), assets[k..], version);
  }

  /** How the assets are cut into runs of one version does not matter. */
  lemma {:induction false} IngestInBatches(rows: Ledger, a: seq<Asset>, b: seq<Asset>, version: string)
    ensures Ingest(rows, a + b, version) == Ingest(Ingest(rows, a, version), b, version)
  {
    if b == [] {
      assert a + b == a;
    } else {
      var n := |b| - 1;
      assert (a + b)[..|a + b| - 1] == a + b[..n];
      IngestInBatches(rows, a, b[..n], version);
    }
  }

  // ------------------------------------------------------------ rows in full

  /** A row says which file it is about, as what and by which method it was read, and in full. */
  predicate IsAbout(e: Entry, a: Asset, version: string) {
    && e.parts.Some? && e.key == e.parts && e.id == FromKey(e.parts.value)
    && e.parts.value.assetId == a.assetId
    && e.parts.value.location == a.location
    && e.parts.value.extraction == "cookie-monster-alpha-metadata"
    && e.parts.value.version == version
    && e.parts.value.facts == a.facts
  }

  /** A file without diagnostics is a certain draft; any other one has to be reviewed. */
  predicate IsRecordFor(e: Entry, a: Asset, version: string) {
    && IsAbout(e, a, version)
    && e.timestamp == a.timestamp && e.actor == a.actor && e.actorVersion == a.actorVersion
    && (if |a.diagnostics| == 0 then e.confidence == 1.0 && e.status == "draft"
        else e.confidence == 0.7 && e.status == "pending_review")
  }

  /** The row carries the key of the file. */
  predicate CarriesKeyOf(e: Entry, a: Asset, version: string) {
    var key := if e.key.Some? then e.key else e.parts;
    key.Some? && key.value == Key(a.assetId, a.location, "cookie-monster-alpha-metadata", version, a.facts)
  }

  lemma EntryIsRecord(a: Asset, version: string)
    ensures IsRecordFor(EntryFor(a, version), a, version)
  {}

  /** Every new row is the record of one of the files, and no row before it carries the key of that file. */
  lemma {:induction false} NewRowsInFull(rows: Ledger, assets: seq<Asset>, version: string, j: nat)
    requires |rows| <= j < |Ingest(rows, assets, version)|
    ensures exists i :: 0 <= i < |assets| && IsRecordFor(Ingest(rows, assets, version)[j].content, assets[i], version) &&
              forall k :: 0 <= k < j ==> !CarriesKeyOf(Ingest(rows, assets, version)[k].content, assets[i], version)
  {
    hide IsRecordFor, CarriesKeyOf, Lookup, LatestHash;
    var n := |assets| - 1;
    var before := Ingest(rows, assets[..n], version);
    if j < |before| {
      NewRowsInFull(rows, assets[..n], version, j);
      IngestOneExtendsRows(before, assets[n], version);
    } else {
      NewRowIsUnheard(before, assets[n], version);
    }
  }

  lemma IngestOneExtendsRows(rows: Ledger, a: Asset, version: string)
    ensures rows <= IngestOne(rows, a, version)
  {
    hide Lookup, LatestHash;
  }

  lemma NewRowIsUnheard(rows: Ledger, a: Asset, version: string)
    requires |IngestOne(rows, a, version)| > |rows|
    ensures var after := IngestOne(rows, a, version);
            && |after| == |rows| + 1
            && IsRecordFor(after[|rows|].content, a, version)
            && forall k :: 0 <= k < |rows| ==> !CarriesKeyOf(after[k].content, a, version)
  {
    EntryIsRecord(a, version);
    LookupFinds(rows, AssetKey(a, version));
    hide Lookup, LatestHash, IsRecordFor;
  }

  /** What a run reports for a file carries the key of that file. */
  lemma ReportsInFull(rows: Ledger, assets: seq<Asset>, version: string, i: nat)
    requires i < |assets|
    ensures |Reported(rows, assets, version)| == |assets|
    ensures Reported(rows, assets, version)[i].Some?
    ensures CarriesKeyOf(Reported(rows, assets, version)[i].value.content, assets[i], version)
  {
    ReportedAt(rows, assets, version, i);
    EveryAssetIsCovered(rows, assets[..i + 1], version, i);
    LookupFinds(Ingest(rows, assets[..i + 1], version), AssetKey(assets[i], version));
    hide Ingest, Lookup;
  }

  // ------------------------------------------------------------ the loop

  /** Every row of a dictionary built by one pass over the rows is the last one with its key. */
  method IndexByKey(rows: Ledger) returns (byKey: map<Key, Link<Entry>>)
    ensures forall k :: k in byKey <==> Lookup(rows, k).Some?
    ensures forall k :: k in byKey ==> Lookup(rows, k) == Some(byKey[k])
  {
    byKey := map[];
    for i := 0 to |rows|
      invariant forall k :: k in byKey <==> Lookup(rows[..i], k).Some?
      invariant forall k :: k in byKey ==> Lookup(rows[..i], k) == Some(byKey[k])
    {
      assert rows[..i + 1][..i] == rows[..i];
      var key := EntryKey(rows[i].content);
      if key.Some? {
        byKey := byKey[key.value := rows[i]];
      }
    }
    assert rows[..|rows|] == rows;
  }

  method LatestHashOf(rows: Ledger) returns (h: Option<Digest<Entry>>)
    ensures h == LatestHash(rows)
  {
    var i := |rows|;
    assert rows[..i] == rows;
    while i > 0
      invariant 0 <= i <= |rows|
      invariant LatestHash(rows[..i]) == LatestHash(rows)
    {
      assert rows[..i][..i - 1] == rows[..i - 1];
      if rows[i - 1].hash.Some? {
        return rows[i - 1].hash;
      }
      i := i - 1;
    }
    h := None;
  }

  lemma AppendedLookup(rows: Ledger, e: Entry, key: Key)
    ensures Lookup(Appended(rows, e), key) == (if EntryKey(e) == Some(key) then Some(NextLink(rows, e)) else Lookup(rows, key))
    ensures LatestHash(Appended(rows, e)) == NextLink(rows, e).hash
  {
    assert Appended(rows, e)[..|rows|] == rows;
  }

  lemma ReportedAt(rows: Ledger, assets: seq<Asset>, version: string, i: nat)
    requires i < |assets|
    ensures |Reported(rows, assets, version)| == |assets|
    ensures Ingest(rows, assets[..i + 1], version) == IngestOne(Ingest(rows, assets[..i], version), assets[i], version)
    ensures Reported(rows, assets, version)[i] ==
              Lookup(Ingest(rows, assets[..i + 1], version), AssetKey(assets[i], version))
  {
    assert assets[..i + 1][..i] == assets[..i];
  }

  /** The dictionary and the previous hash of the loop describe the rows so far. */
  ghost predicate Describes(byKey: map<Key, Link<Entry>>, previous: Option<Digest<Entry>>, rows: Ledger) {
    && previous == LatestHash(rows)
    && (forall k :: k in byKey <==> Lookup(rows, k).Some?)
    && (forall k :: k in byKey ==> Lookup(rows, k) == Some(byKey[k]))
  }

  lemma DescribesAppended(byKey: map<Key, Link<Entry>>, previous: Option<Digest<Entry>>, rows: Ledger, e: Entry, key: Key)
    requires Describes(byKey, previous, rows) && EntryKey(e) == Some(key)
    ensures Describes(byKey[key := NextLink(rows, e)], NextLink(rows, e).hash, Appended(rows, e))
    ensures Lookup(Appended(rows, e), key) == Some(NextLink(rows, e))
  {
    forall k {
      AppendedLookup(rows, e, k);
    }
    hide Lookup, LatestHash;
  }

  method Scan(rows: Ledger) returns (byKey: map<Key, Link<Entry>>, previous: Option<Digest<Entry>>)
    ensures Describes(byKey, previous, rows)
  {
    byKey := IndexByKey(rows);
    previous := LatestHashOf(rows);
  }

  lemma NothingIngested(rows: Ledger, assets: seq<Asset>, version: string)
    ensures Ingest(rows, assets[..0], version) == rows
    ensures |Reported(rows, assets, version)| == |assets|
  {}

  /** What the loop does with one asset that is already known. */
  lemma DescribesAt(byKey: map<Key, Link<Entry>>, previous: Option<Digest<Entry>>, rows: Ledger, a: Asset, version: string)
    requires Describes(byKey, previous, rows)
    ensures AssetKey(a, version) in byKey <==> Lookup(rows, AssetKey(a, version)).Some?
    ensures AssetKey(a, version) in byKey ==>
              && Lookup(rows, AssetKey(a, version)) == Some(byKey[AssetKey(a, version)])
              && IngestOne(rows, a, version) == rows
  {}

  /** What the loop does with one new asset. */
  lemma DescribesNext(byKey: map<Key, Link<Entry>>, previous: Option<Digest<Entry>>, rows: Ledger, a: Asset, version: string)
    requires Describes(byKey, previous, rows) && AssetKey(a, version) !in byKey
    ensures var key, entry := AssetKey(a, version), EntryFor(a, version);
            var row := Link(entry, previous, Some(DigestOf(entry, previous)));
            && IngestOne(rows, a, version) == rows + [row]
            && Describes(byKey[key := row], row.hash, rows + [row])
            && Lookup(rows + [row], key) == Some(row)
  {
    DescribesAppended(byKey, previous, rows, EntryFor(a, version), AssetKey(a, version));
  }

  method MakeKnowledgeRecords(assets: seq<Asset>, version: string, existing: Ledger)
      returns (current: seq<Link<Entry>>, added: Ledger)
    ensures existing + added == Ingest(existing, assets, version)
    ensures |current| == |assets| == |Reported(existing, assets, version)|
    ensures forall i :: 0 <= i < |assets| ==> Reported(existing, assets, version)[i] == Some(current[i])
    ensures forall i :: 0 <= i < |assets| ==> CarriesKeyOf(current[i].content, assets[i], version)
    ensures forall row :: row in added ==> exists a :: a in assets && IsRecordFor(row.content, a, version)
  {
    hide CarriesKeyOf, IsRecordFor;
    hide Ingest, IngestOne, Reported, Lookup, LatestHash, Describes, AssetKey, EntryFor;
    var byKey, previous := Scan(existing);
    current, added := [], [];
    assert existing + added == existing;
    NothingIngested(existing, assets, version);
    for i := 0 to |assets|
      invariant existing + added == Ingest(existing, assets[..i], version)
      invariant Describes(byKey, previous, existing + added)
      invariant |current| == i
      invariant forall j :: 0 <= j < i ==> Reported(existing, assets, version)[j] == Some(current[j])
    {
      ghost var rows := existing + added;
      var key := AssetKey(assets[i], version);
      ReportedAt(existing, assets, version, i);
      DescribesAt(byKey, previous, rows, assets[i], version);
      if key in byKey {
        current := current + [byKey[key]];
      } else {
        var entry := EntryFor(assets[i], version);
        var row := Link(entry, previous, Some(DigestOf(entry, previous)));
        DescribesNext(byKey, previous, rows, assets[i], version);
        assert existing + (added + [row]) == rows + [row];
        current, added := current + [row], added + [row];
        byKey := byKey[key := row];
        previous := row.hash;
      }
    }
    assert assets[..|assets|] == assets;
    forall i | 0 <= i < |assets| ensures CarriesKeyOf(current[i].content, assets[i], version) {
      ReportsInFull(existing, assets, version, i);
    }
    forall row | row in added ensures exists a :: a in assets && IsRecordFor(row.content, a, version) {
      var k :| 0 <= k < |added| && added[k] == row;
      assert (existing + added)[|existing| + k] == row;
      NewRowsInFull(existing, assets, version, |existing| + k);
    }
  }
}
