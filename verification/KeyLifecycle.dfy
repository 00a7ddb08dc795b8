/**
 Signing-key rotation, retirement and revocation of an office's keyring, and the
 replay of its rotation manifests by a remote office.

 Signatures are ideal: a signature carries the public key whose private half
 made it and the content it covers, and verifies for exactly those two.
 */
module KeyLifecycle {
  import opened Wrappers

  /** `office#signing-n`. */
  datatype KeyId = KeyId(office: string, generation: nat)

  type PublicKey = nat

  datatype KeyStatus = Active | Retiring | Retired | Revoked

  datatype ManagedKey = ManagedKey(
    keyId: KeyId,
    publicKey: PublicKey,
    notBefore: int,
    notAfter: Option<int>,
    status: KeyStatus,
    revokedAt: Option<int>,
    revocationReason: Option<string>)

  /** What lifecycle documents say, without their signature. */
  datatype Body =
    | RotationBody(office: string, sequence: int, issuedAt: int, previous: KeyId, newKey: ManagedKey, overlapUntil: int)
    | RevocationBody(office: string, sequence: int, issuedAt: int, revoked: KeyId, reason: string, authorizedBy: KeyId)
    | OtherBody(content: string)

  datatype Signature = Signature(keyId: KeyId, signer: PublicKey, covers: Body)

  datatype Document = Document(body: Body, signature: Option<Signature>)

  predicate Verifies(key: PublicKey, s: Signature, b: Body) {
    s.signer == key && s.covers == b
  }

  datatype Ring = Ring(
    office: string,
    overlap: int,
    sequence: int,
    active: KeyId,
    keys: map<KeyId, ManagedKey>,
    lifecycle: seq<Document>)

  datatype KeyError = InvalidOffice | NegativeOverlap | ReasonRequired | UnknownKey | RotateFirst | KeyUnavailable

  // ------------------------------------------------------------ the keyring's operations, as values

  function FreshKey(id: KeyId, public: PublicKey, now: int): ManagedKey {
    ManagedKey(id, public, now, None, Active, None, None)
  }

  /** Why a keyring is not created. */
  function NewRingRefusal(office: string, overlap: int): Option<KeyError> {
    if office == "" || '#' in office then Some(InvalidOffice)
    else if overlap < 0 then Some(NegativeOverlap)
    else None
  }

  function NewRing(office: string, overlap: int, public: PublicKey, now: int): Ring {
    var id := KeyId(office, 1);
    Ring(office, overlap, 1, id, map[id := FreshKey(id, public, now)], [])
  }

  predicate CanSign(r: Ring, id: KeyId) {
    id in r.keys && (r.keys[id].status == Active || r.keys[id].status == Retiring)
  }

  function Sign(r: Ring, id: KeyId, b: Body): Signature
    requires CanSign(r, id)
  {
    Signature(id, r.keys[id].publicKey, b)
  }

  /** The ids are the generations 1 to n of one office, the last of them active. */
  ghost predicate ValidKeys(r: Ring) {
    && (forall id :: id in r.keys <==> id.office == r.office && 1 <= id.generation <= r.active.generation)
    && r.active.office == r.office && r.active.generation >= 1
    && (forall id :: id in r.keys ==> r.keys[id].keyId == id)
    && (forall id :: id in r.keys ==> (r.keys[id].status == Active <==> id == r.active))
    && (forall id :: id in r.keys ==> (r.keys[id].notAfter.Some? <==> id != r.active))
    && (forall id :: id in r.keys ==> (r.keys[id].status == Revoked <==> r.keys[id].revokedAt.Some?))
  }

  /** Lifecycle documents are numbered from one without gaps. */
  ghost predicate ValidLog(r: Ring) {
    && r.sequence == |r.lifecycle| + 1
    && (forall i :: 0 <= i < |r.lifecycle| ==> SequenceOf(r.lifecycle[i].body) == i + 1)
  }

  ghost predicate Valid(r: Ring) {
    ValidKeys(r) && ValidLog(r) && r.overlap >= 0
  }

  function SequenceOf(b: Body): int {
    match b
    case RotationBody(_, sequence, _, _, _, _) => sequence
    case RevocationBody(_, sequence, _, _, _, _) => sequence
    case OtherBody(_) => 0
  }

  function NextId(r: Ring): KeyId {
    KeyId(r.office, r.active.generation + 1)
  }

  function RotationManifest(r: Ring, public: PublicKey, now: int): Document
    requires CanSign(r, r.active)
  {
    var body := RotationBody(r.office, r.sequence, now, r.active, FreshKey(NextId(r), public, now), now + r.overlap);
    Document(body, Some(Sign(r, r.active, body)))
  }

  function Rotate(r: Ring, public: PublicKey, now: int): Ring
    requires CanSign(r, r.active)
  {
    var next := NextId(r);
    var retiring := r.keys[r.active].(status := Retiring, notAfter := Some(now + r.overlap));
    r.(keys := r.keys[r.active := retiring][next := FreshKey(next, public, now)],
       active := next,
       sequence := r.sequence + 1,
       lifecycle := r.lifecycle + [RotationManifest(r, public, now)])
  }

  predicate RetirementDue(k: ManagedKey, now: int) {
    k.status == Retiring && k.notAfter.Some? && now >= k.notAfter.value
  }

  function RetireExpired(r: Ring, now: int): Ring {
    r.(keys := map id | id in r.keys ::
         if RetirementDue(r.keys[id], now) then r.keys[id].(status := Retired) else r.keys[id])
  }

  function RevokeRefusal(r: Ring, id: KeyId, reason: string): Option<KeyError> {
    if reason == "" then Some(ReasonRequired)
    else if id !in r.keys then Some(UnknownKey)
    else if id == r.active then Some(RotateFirst)
    else None
  }

  function RevocationRecord(r: Ring, id: KeyId, reason: string, now: int): Document
    requires CanSign(r, r.active)
  {
    var body := RevocationBody(r.office, r.sequence, now, id, reason, r.active);
    Document(body, Some(Sign(r, r.active, body)))
  }

  function Revoke(r: Ring, id: KeyId, reason: string, now: int): Ring
    requires CanSign(r, r.active)
  {
    if RevokeRefusal(r, id, reason).Some? then r
    else
      r.(keys := r.keys[id := r.keys[id].(status := Revoked, revokedAt := Some(now), revocationReason := Some(reason))],
         sequence := r.sequence + 1,
         lifecycle := r.lifecycle + [RevocationRecord(r, id, reason, now)])
  }

  /** Whether a key's dates and revocation admit a signature made at a moment. */
  predicate Admits(k: ManagedKey, moment: int) {
    && moment >= k.notBefore
    && !(k.status == Revoked && k.revokedAt.Some? && moment >= k.revokedAt.value)
    && (k.notAfter.Some? ==> moment <= k.notAfter.value)
  }

  predicate Verify(r: Ring, d: Document, moment: int) {
    && d.signature.Some?
    && d.signature.value.keyId in r.keys
    && Admits(r.keys[d.signature.value.keyId], moment)
    && Verifies(r.keys[d.signature.value.keyId].publicKey, d.signature.value, d.body)
  }

  // ------------------------------------------------------------ runs

  datatype Op =
    | DoRotate(public: PublicKey, now: int)
    | DoRetire(now: int)
    | DoRevoke(id: KeyId, reason: string, now: int)

  function Step(r: Ring, op: Op): Ring
    requires CanSign(r, r.active)
  {
    match op
    case DoRotate(public, now) => Rotate(r, public, now)
    case DoRetire(now) => RetireExpired(r, now)
    case DoRevoke(id, reason, now) => Revoke(r, id, reason, now)
  }

  lemma ValidRingCanSign(r: Ring)
    requires Valid(r)
    ensures r.active in r.keys && CanSign(r, r.active)
  {
    assert r.active in r.keys;
  }

  lemma RotateKeepsValid(r: Ring, public: PublicKey, now: int)
    requires Valid(r) && CanSign(r, r.active)
    ensures Valid(Rotate(r, public, now))
  {
    assert ValidLog(Rotate(r, public, now)) by {
      hide ValidKeys;
    }
    hide ValidLog;
  }

  lemma RetireKeepsValid(r: Ring, now: int)
    requires Valid(r)
    ensures Valid(RetireExpired(r, now))
  {}

  lemma RevokeKeepsValid(r: Ring, id: KeyId, reason: string, now: int)
    requires Valid(r) && CanSign(r, r.active)
    ensures Valid(Revoke(r, id, reason, now))
  {
    assert ValidLog(Revoke(r, id, reason, now)) by {
      hide ValidKeys;
    }
    hide ValidLog;
  }

  /** Exactly one key stays active, and lifecycle entry i keeps sequence i + 1. */
  lemma StepKeepsValid(r: Ring, op: Op)
    requires Valid(r)
    ensures r.active in r.keys && CanSign(r, r.active) && Valid(Step(r, op))
  {
    ValidRingCanSign(r);
    hide Valid, Rotate, RetireExpired, Revoke;
    match op
    case DoRotate(public, now) => RotateKeepsValid(r, public, now);
    case DoRetire(now) => RetireKeepsValid(r, now);
    case DoRevoke(id, reason, now) => RevokeKeepsValid(r, id, reason, now);
  }

  ghost function Run(r: Ring, ops: seq<Op>): (t: Ring)
    requires Valid(r)
    ensures Valid(t)
  {
    if ops == [] then r
    else
      var before := Run(r, ops[..|ops| - 1]);
      StepKeepsValid(before, ops[|ops| - 1]);
      Step(before, ops[|ops| - 1])
  }

  lemma NewRingIsValid(office: string, overlap: int, public: PublicKey, now: int)
    requires overlap >= 0
    ensures Valid(NewRing(office, overlap, public, now))
  {}

  ghost predicate TimesFrom(m: int, ops: seq<Op>) {
    && (forall i :: 0 <= i < |ops| ==> m <= ops[i].now)
    && (forall i, j :: 0 <= i < j < |ops| ==> ops[i].now <= ops[j].now)
  }

  // ------------------------------------------------------------ signatures outlive rotation

  lemma StepKeepsKey(r: Ring, op: Op, id: KeyId, m: int)
    requires Valid(r) && CanSign(r, r.active) && id in r.keys && m <= op.now
    requires r.keys[id].notAfter.Some? ==> m <= r.keys[id].notAfter.value
    ensures var t := Step(r, op);
            && id in t.keys
            && t.keys[id].publicKey == r.keys[id].publicKey
            && t.keys[id].notBefore == r.keys[id].notBefore
            && (t.keys[id].notAfter.Some? ==> m <= t.keys[id].notAfter.value)
  {}

  lemma StepRevokes(r: Ring, op: Op, id: KeyId)
    requires Valid(r) && CanSign(r, r.active) && id in r.keys
    ensures var t := Step(r, op);
            && id in t.keys
            && t.keys[id].revokedAt ==
                 if op.DoRevoke? && op.id == id && RevokeRefusal(r, id, op.reason).None? then Some(op.now)
                 else r.keys[id].revokedAt
  {}

  /** What a key keeps through a run that starts at time m: its dates admit m, and its revocation is the run's last. */
  lemma {:induction false} KeyThroughRun(r: Ring, ops: seq<Op>, id: KeyId, m: int)
    requires Valid(r) && id in r.keys && TimesFrom(m, ops)
    requires m >= r.keys[id].notBefore && (r.keys[id].notAfter.Some? ==> m <= r.keys[id].notAfter.value)
    ensures var t := Run(r, ops);
            && id in t.keys
            && t.keys[id].publicKey == r.keys[id].publicKey
            && t.keys[id].notBefore == r.keys[id].notBefore
            && (t.keys[id].notAfter.Some? ==> m <= t.keys[id].notAfter.value)
  {
    hide Valid, Step, CanSign;
    if ops != [] {
      var n := |ops| - 1;
      KeyThroughRun(r, ops[..n], id, m);
      var before := Run(r, ops[..n]);
      ValidRingCanSign(before);
      StepKeepsKey(before, ops[n], id, m);
    }
  }

  /**
   A signature made by the then-active key at time m still verifies at m after any later run of
   rotations, retirements and revocations, if and only if the key is not left revoked as of m.
   */
  lemma SignaturesOutliveRotation(r: Ring, b: Body, m: int, ops: seq<Op>)
    requires Valid(r) && m >= r.keys[r.active].notBefore && TimesFrom(m, ops)
    ensures CanSign(r, r.active)
    ensures var d := Document(b, Some(Sign(r, r.active, b)));
            var t := Run(r, ops);
            && r.active in t.keys
            && (Verify(t, d, m) <==> (t.keys[r.active].revokedAt.Some? ==> t.keys[r.active].revokedAt.value > m))
  {
    ValidRingCanSign(r);
    KeyThroughRun(r, ops, r.active, m);
    hide Valid;
    var t := Run(r, ops);
    RevokedMeansRevokedAt(t, r.active);
  }

  lemma RevokedMeansRevokedAt(r: Ring, id: KeyId)
    requires Valid(r) && id in r.keys
    ensures r.keys[id].status == Revoked <==> r.keys[id].revokedAt.Some?
  {}

  /** The time of the last revocation of a key in a run, if there is one. */
  ghost function LastRevocation(r: Ring, ops: seq<Op>, id: KeyId): Option<int>
    requires Valid(r)
  {
    if ops == [] then (if id in r.keys then r.keys[id].revokedAt else None)
    else
      var n := |ops| - 1;
      var last := ops[n];
      if last.DoRevoke? && last.id == id && RevokeRefusal(Run(r, ops[..n]), id, last.reason).None? then Some(last.now)
      else LastRevocation(r, ops[..n], id)
  }

  /** A second revocation overwrites the first: what counts is the last one that was accepted. */
  lemma {:induction false} RevocationIsTheLastOne(r: Ring, ops: seq<Op>, id: KeyId)
    requires Valid(r) && id in r.keys
    ensures id in Run(r, ops).keys && Run(r, ops).keys[id].revokedAt == LastRevocation(r, ops, id)
  {
    if ops != [] {
      var n := |ops| - 1;
      RevocationIsTheLastOne(r, ops[..n], id);
      var before := Run(r, ops[..n]);
      ValidRingCanSign(before);
      StepRevokes(before, ops[n], id);
      hide Valid, Step, CanSign, RevokeRefusal;
    }
  }

  /** The last accepted revocation is one of the run's, so it is no earlier than the run began. */
  lemma {:induction false} LastRevocationIsInTheRun(r: Ring, ops: seq<Op>, id: KeyId, m: int)
    requires Valid(r) && (id in r.keys ==> r.keys[id].revokedAt.None?)
    requires forall op :: op in ops && op.DoRevoke? && op.id == id ==> op.now > m
    ensures LastRevocation(r, ops, id).Some? ==> LastRevocation(r, ops, id).value > m
  {
    if ops != [] {
      assert ops[|ops| - 1] in ops && forall op :: op in ops[..|ops| - 1] ==> op in ops;
      LastRevocationIsInTheRun(r, ops[..|ops| - 1], id, m);
    }
  }

  /** So when every later revocation of the key is issued strictly after m, the signature keeps verifying at m. */
  lemma LaterRevocationsSpareEarlierSignatures(r: Ring, b: Body, m: int, ops: seq<Op>)
    requires Valid(r) && m >= r.keys[r.active].notBefore && TimesFrom(m, ops)
    requires forall op :: op in ops && op.DoRevoke? && op.id == r.active ==> op.now > m
    ensures CanSign(r, r.active)
    ensures Verify(Run(r, ops), Document(b, Some(Sign(r, r.active, b))), m)
  {
    ValidRingCanSign(r);
    SignaturesOutliveRotation(r, b, m, ops);
    RevocationIsTheLastOne(r, ops, r.active);
    LastRevocationIsInTheRun(r, ops, r.active, m);
  }

  /**
   Revocation is not final: a signature refused after one revocation is accepted again after a second
   one of the same key exactly when its moment lies before the second.
   */
  lemma RevokingAgainCanReadmit(r: Ring, id: KeyId, first: int, second: int, moment: int, d: Document)
    requires Valid(r) && id in r.keys && id != r.active
    requires d.signature.Some? && d.signature.value.keyId == id && Verify(r, d, moment)
    ensures var once := Run(r, [DoRevoke(id, "a", first)]);
            var twice := Run(r, [DoRevoke(id, "a", first), DoRevoke(id, "a", second)]);
            && (Verify(once, d, moment) <==> moment < first)
            && (Verify(twice, d, moment) <==> moment < second)
  {
    ValidRingCanSign(r);
    assert |"a"| == 1;
    var ops := [DoRevoke(id, "a", first), DoRevoke(id, "a", second)];
    assert [DoRevoke(id, "a", first)][..0] == [] && ops[..1] == [DoRevoke(id, "a", first)];
    var once := Revoke(r, id, "a", first);
    assert Run(r, [DoRevoke(id, "a", first)]) == once;
    assert Run(r, ops) == Revoke(once, id, "a", second);
    hide Valid, Run;
  }

  // ------------------------------------------------------------ remote replay

  datatype ManifestError =
    | InvalidRotationManifest | NoTrustAnchor | NotAuthorizedByPrevious | InvalidRotationSignature | ForeignKey

  /** Why a remote office refuses a rotation manifest; a body that is not a rotation is refused first. */
  function ManifestRefusal(known: map<KeyId, ManagedKey>, d: Document, office: string): Option<ManifestError> {
    if !d.body.RotationBody? || d.body.office != office then Some(InvalidRotationManifest)
    else if d.body.previous !in known then Some(NoTrustAnchor)
    else if d.signature.None? || d.signature.value.keyId != d.body.previous then Some(NotAuthorizedByPrevious)
    else if !Verifies(known[d.body.previous].publicKey, d.signature.value, d.body) then Some(InvalidRotationSignature)
    else if d.body.newKey.keyId.office != office then Some(ForeignKey)
    else None
  }

  function ApplyManifest(known: map<KeyId, ManagedKey>, d: Document, office: string): map<KeyId, ManagedKey> {
    if ManifestRefusal(known, d, office).Some? then known
    else
      var k := d.body.newKey;
      var new_ := ManagedKey(k.keyId, k.publicKey, k.notBefore, k.notAfter, k.status, None, None);
      var previous := known[d.body.previous].(status := Retiring, notAfter := Some(d.body.overlapUntil));
      known[d.body.previous := previous][new_.keyId := new_]
  }

  function Replay(known: map<KeyId, ManagedKey>, ds: seq<Document>, office: string): map<KeyId, ManagedKey> {
    if ds == [] then known else ApplyManifest(Replay(known, ds[..|ds| - 1], office), ds[|ds| - 1], office)
  }

  /**
   The remote keys mirror the local ring: same ids, public keys and dates, the same single active key,
   and the same status except that local retirements and revocations are not carried by manifests.
   */
  ghost predicate Mirrors(remote: map<KeyId, ManagedKey>, r: Ring) {
    && remote.Keys == r.keys.Keys
    && forall id :: id in remote ==>
         && remote[id].keyId == id
         && remote[id].publicKey == r.keys[id].publicKey
         && remote[id].notBefore == r.keys[id].notBefore
         && remote[id].notAfter == r.keys[id].notAfter
         && (remote[id].status == Active <==> id == r.active)
         && (r.keys[id].status == Active || r.keys[id].status == Retiring ==> remote[id].status == r.keys[id].status)
         && (r.keys[id].status == Retired || r.keys[id].status == Revoked ==> remote[id].status == Retiring)
  }

  lemma RotationIsMirrored(remote: map<KeyId, ManagedKey>, r: Ring, public: PublicKey, now: int)
    requires Valid(r) && Mirrors(remote, r)
    ensures CanSign(r, r.active)
    ensures ManifestRefusal(remote, RotationManifest(r, public, now), r.office).None?
    ensures Mirrors(ApplyManifest(remote, RotationManifest(r, public, now), r.office), Rotate(r, public, now))
  {
    ValidRingCanSign(r);
    assert NextId(r) !in r.keys;
    hide ValidLog, ValidKeys;
  }

  /** Retiring writes no document, and the document a revocation writes leaves a remote office as it is. */
  lemma OtherStepsAreMirrored(remote: map<KeyId, ManagedKey>, r: Ring, op: Op) returns (d: Option<Document>)
    requires Valid(r) && Mirrors(remote, r) && !op.DoRotate?
    ensures CanSign(r, r.active) && Mirrors(remote, Step(r, op))
    ensures Step(r, op).lifecycle == r.lifecycle + (if d.Some? then [d.value] else [])
    ensures d.Some? ==> ApplyManifest(remote, d.value, r.office) == remote
  {
    ValidRingCanSign(r);
    d := if op.DoRevoke? && RevokeRefusal(r, op.id, op.reason).None?
         then Some(RevocationRecord(r, op.id, op.reason, op.now)) else None;
  }

  lemma ReplayOneMore(known: map<KeyId, ManagedKey>, ds: seq<Document>, d: Document, office: string)
    ensures Replay(known, ds + [d], office) == ApplyManifest(Replay(known, ds, office), d, office)
  {
    assert (ds + [d])[..|ds|] == ds;
  }

  /** Replaying a keyring's lifecycle from its first key keeps a remote office's keys a mirror of the local ones. */
  lemma {:induction false} ReplayMirrorsTheRing(office: string, overlap: int, public: PublicKey, now: int, ops: seq<Op>)
    requires overlap >= 0
    ensures Valid(NewRing(office, overlap, public, now))
    ensures var r := NewRing(office, overlap, public, now);
            var t := Run(r, ops);
            t.office == office && Mirrors(Replay(r.keys, t.lifecycle, office), t)
  {
    NewRingIsValid(office, overlap, public, now);
    var r := NewRing(office, overlap, public, now);
    if ops != [] {
      var n := |ops| - 1;
      ReplayMirrorsTheRing(office, overlap, public, now, ops[..n]);
      var before := Run(r, ops[..n]);
      var remote := Replay(r.keys, before.lifecycle, office);
      StepKeepsValid(before, ops[n]);
      var after := Step(before, ops[n]);
      assert Run(r, ops) == after;
      hide Valid, Mirrors, Run, Replay, ApplyManifest, NewRing;
      match ops[n]
      case DoRotate(p, at) =>
        RotationIsMirrored(remote, before, p, at);
        ReplayOneMore(r.keys, before.lifecycle, RotationManifest(before, p, at), office);
      case _ =>
        var d := OtherStepsAreMirrored(remote, before, ops[n]);
        if d.Some? {
          ReplayOneMore(r.keys, before.lifecycle, d.value, office);
        } else {
          assert after.lifecycle == before.lifecycle;
        }
    }
  }

  // ------------------------------------------------------------ manifests that arrive again

  /** The rotation that led to the present active key. */
  ghost predicate IsLastRotation(ds: seq<Document>, i: nat)
    requires i < |ds|
  {
    ds[i].body.RotationBody? && forall j :: i < j < |ds| ==> !ds[j].body.RotationBody?
  }

  /** What stays true of a ring once it has sent a rotation manifest. */
  predicate WasSent(r: Ring, d: Document) {
    && d.body.RotationBody? && d.body.office == r.office && d.body.previous in r.keys
    && d.signature.Some? && d.signature.value.keyId == d.body.previous
    && Verifies(r.keys[d.body.previous].publicKey, d.signature.value, d.body)
    && var k := d.body.newKey;
    && k.keyId in r.keys && k.keyId.office == r.office && k.keyId != d.body.previous && k.status == Active
    && (k.keyId == r.active ==>
          && k == FreshKey(r.active, r.keys[r.active].publicKey, r.keys[r.active].notBefore)
          && r.keys[d.body.previous].notAfter == Some(d.body.overlapUntil))
  }

  ghost predicate LogWasSent(r: Ring) {
    forall i :: 0 <= i < |r.lifecycle| && r.lifecycle[i].body.RotationBody? ==>
      && WasSent(r, r.lifecycle[i])
      && (r.lifecycle[i].body.newKey.keyId == r.active <==> IsLastRotation(r.lifecycle, i))
  }

  lemma RotateKeepsSent(r: Ring, public: PublicKey, now: int, d: Document)
    requires Valid(r) && CanSign(r, r.active)
    ensures WasSent(r, d) ==> WasSent(Rotate(r, public, now), d) && d.body.newKey.keyId != NextId(r)
    ensures WasSent(Rotate(r, public, now), RotationManifest(r, public, now))
  {
    assert NextId(r) !in r.keys;
    hide ValidLog, ValidKeys;
  }

  lemma OtherStepsKeepSent(r: Ring, op: Op, d: Document)
    requires Valid(r) && CanSign(r, r.active) && !op.DoRotate? && WasSent(r, d)
    ensures WasSent(Step(r, op), d)
  {}

  lemma StepKeepsLogSent(r: Ring, op: Op)
    requires Valid(r) && CanSign(r, r.active) && LogWasSent(r)
    ensures LogWasSent(Step(r, op))
  {
    var after := Step(r, op);
    var n := |r.lifecycle|;
    assert r.lifecycle <= after.lifecycle && |after.lifecycle| <= n + 1;
    assert |after.lifecycle| == n + 1 ==> (after.lifecycle[n].body.RotationBody? <==> op.DoRotate?);
    assert op.DoRotate? ==> after.active == NextId(r) && after.lifecycle[n] == RotationManifest(r, op.public, op.now);
    assert !op.DoRotate? ==> after.active == r.active;
    assert op.DoRotate? ==> after == Rotate(r, op.public, op.now) && after.lifecycle[n].body.newKey.keyId == NextId(r);
    hide WasSent, Valid, Step, Rotate, RotationManifest;
    if op.DoRotate? {
      RotateKeepsSent(r, op.public, op.now, after.lifecycle[n]);
    }
    forall i | 0 <= i < n && r.lifecycle[i].body.RotationBody?
      ensures WasSent(after, r.lifecycle[i])
      ensures op.DoRotate? ==> r.lifecycle[i].body.newKey.keyId != after.active
    {
      if op.DoRotate? {
        RotateKeepsSent(r, op.public, op.now, r.lifecycle[i]);
      } else {
        OtherStepsKeepSent(r, op, r.lifecycle[i]);
      }
    }
    forall i | 0 <= i < n && r.lifecycle[i].body.RotationBody?
      ensures IsLastRotation(after.lifecycle, i) <==> !op.DoRotate? && IsLastRotation(r.lifecycle, i)
    {
      LaterDocuments(r.lifecycle, after.lifecycle, i);
    }
  }

  lemma LaterDocuments(ds: seq<Document>, more: seq<Document>, i: nat)
    requires i < |ds| && ds <= more && |more| <= |ds| + 1
    ensures IsLastRotation(more, i) <==>
              IsLastRotation(ds, i) && (|more| == |ds| + 1 ==> !more[|ds|].body.RotationBody?)
  {
    assert forall j :: 0 <= j < |ds| ==> more[j] == ds[j];
  }

  lemma {:induction false} RunsKeepLogSent(office: string, overlap: int, public: PublicKey, now: int, ops: seq<Op>)
    requires overlap >= 0
    ensures Valid(NewRing(office, overlap, public, now)) && LogWasSent(Run(NewRing(office, overlap, public, now), ops))
  {
    NewRingIsValid(office, overlap, public, now);
    var r := NewRing(office, overlap, public, now);
    if ops != [] {
      var n := |ops| - 1;
      RunsKeepLogSent(office, overlap, public, now, ops[..n]);
      StepKeepsValid(Run(r, ops[..n]), ops[n]);
      hide Valid, LogWasSent, Step, NewRing;
      StepKeepsLogSent(Run(r, ops[..n]), ops[n]);
    }
  }

  lemma ManifestIsAccepted(remote: map<KeyId, ManagedKey>, r: Ring, d: Document)
    requires Mirrors(remote, r) && WasSent(r, d)
    ensures ManifestRefusal(remote, d, r.office).None?
    ensures d.body.newKey.keyId in remote && d.body.previous in remote
  {}

  lemma LastArrivesAgain(remote: map<KeyId, ManagedKey>, r: Ring, d: Document)
    requires Valid(r) && Mirrors(remote, r) && WasSent(r, d) && d.body.newKey.keyId == r.active
    ensures Mirrors(ApplyManifest(remote, d, r.office), r)
  {
    ManifestIsAccepted(remote, r, d);
    ValidRingCanSign(r);
    assert r.keys[d.body.previous].status != Active && r.keys[r.active].status == Active;
    hide Valid, ManifestRefusal;
  }

  lemma OlderArrivesAgain(remote: map<KeyId, ManagedKey>, r: Ring, d: Document)
    requires Mirrors(remote, r) && WasSent(r, d) && d.body.newKey.keyId != r.active
    ensures !Mirrors(ApplyManifest(remote, d, r.office), r)
  {
    ManifestIsAccepted(remote, r, d);
    var after := ApplyManifest(remote, d, r.office);
    assert d.body.newKey.keyId in after && after[d.body.newKey.keyId].status == Active;
    hide ManifestRefusal, ApplyManifest;
  }

  /**
   A manifest carries a number that nobody checks: sent again after any run, a rotation leaves a remote
   office's keys a mirror of the ring if and only if it is the last one. An older one makes a second key active.
   */
  lemma ResendingARotation(office: string, overlap: int, public: PublicKey, now: int, ops: seq<Op>, i: nat)
    requires overlap >= 0
    ensures Valid(NewRing(office, overlap, public, now))
    ensures var r := NewRing(office, overlap, public, now);
            var t := Run(r, ops);
            var remote := Replay(r.keys, t.lifecycle, office);
            i < |t.lifecycle| && t.lifecycle[i].body.RotationBody? ==>
              (Mirrors(ApplyManifest(remote, t.lifecycle[i], office), t) <==> IsLastRotation(t.lifecycle, i))
  {
    ReplayMirrorsTheRing(office, overlap, public, now, ops);
    RunsKeepLogSent(office, overlap, public, now, ops);
    var r := NewRing(office, overlap, public, now);
    var t := Run(r, ops);
    hide Valid, Mirrors, Run, Replay, ApplyManifest, NewRing, WasSent;
    if i < |t.lifecycle| && t.lifecycle[i].body.RotationBody? {
      if t.lifecycle[i].body.newKey.keyId == t.active {
        LastArrivesAgain(Replay(r.keys, t.lifecycle, office), t, t.lifecycle[i]);
      } else {
        OlderArrivesAgain(Replay(r.keys, t.lifecycle, office), t, t.lifecycle[i]);
      }
    }
  }

  // ------------------------------------------------------------ what verifies, in full

  /** The key that a ring is born with, and each one that a rotation brings. */
  datatype Birth = Birth(public: PublicKey, at: int)

  function Births(public: PublicKey, now: int, ops: seq<Op>): (r: seq<Birth>)
    ensures |r| >= 1
  {
    if ops == [] then [Birth(public, now)]
    else
      var last := ops[|ops| - 1];
      Births(public, now, ops[..|ops| - 1]) + (if last.DoRotate? then [Birth(last.public, last.now)] else [])
  }

  /** When a key was last revoked: for some reason, and once another key had taken its place. */
  function LastRevoked(office: string, public: PublicKey, now: int, ops: seq<Op>, id: KeyId): Option<int> {
    if ops == [] then None
    else
      var n := |ops| - 1;
      if ops[n].DoRevoke? && ops[n].id == id && ops[n].reason != "" &&
         id.office == office && 1 <= id.generation < |Births(public, now, ops[..n])|
      then Some(ops[n].now)
      else LastRevoked(office, public, now, ops[..n], id)
  }

  /** Generation g is the g-th key born, from its birth until some overlap after the next one. */
  ghost predicate FollowsItsBirth(r: Ring, births: seq<Birth>, g: nat)
    requires 1 <= g <= |births|
  {
    var id := KeyId(r.office, g);
    && id in r.keys
    && r.keys[id].publicKey == births[g - 1].public
    && r.keys[id].notBefore == births[g - 1].at
    && r.keys[id].notAfter == if g < |births| then Some(births[g].at + r.overlap) else None
  }

  ghost predicate FollowsBirths(r: Ring, births: seq<Birth>) {
    && r.active == KeyId(r.office, |births|)
    && forall g :: 1 <= g <= |births| ==> FollowsItsBirth(r, births, g)
  }

  lemma RotationFollowsBirths(r: Ring, births: seq<Birth>, public: PublicKey, now: int)
    requires Valid(r) && CanSign(r, r.active) && FollowsBirths(r, births)
    ensures FollowsBirths(Rotate(r, public, now), births + [Birth(public, now)])
  {
    var t, more := Rotate(r, public, now), births + [Birth(public, now)];
    assert NextId(r) == KeyId(r.office, |more|);
    assert t.keys == r.keys[r.active := t.keys[r.active]][NextId(r) := t.keys[NextId(r)]];
    hide Valid, RotationManifest, CanSign;
    forall g | 1 <= g <= |more| ensures FollowsItsBirth(t, more, g) {
      if g <= |births| {
        assert FollowsItsBirth(r, births, g);
        assert g < |births| ==> more[g] == births[g];
      }
    }
  }

  lemma OtherStepsFollowBirths(r: Ring, births: seq<Birth>, op: Op)
    requires Valid(r) && CanSign(r, r.active) && FollowsBirths(r, births) && !op.DoRotate?
    ensures FollowsBirths(Step(r, op), births)
  {
    hide Valid, CanSign, RevocationRecord, RetirementDue;
    var t := Step(r, op);
    assert t.office == r.office && t.overlap == r.overlap && t.active == r.active;
    forall g | 1 <= g <= |births| ensures FollowsItsBirth(t, births, g) {
      assert FollowsItsBirth(r, births, g);
    }
  }

  /** The keys are those of the run's rotations, and revoked when the run last revoked them. */
  ghost predicate FollowsRun(t: Ring, office: string, overlap: int, public: PublicKey, now: int, ops: seq<Op>) {
    && t.office == office && t.overlap == overlap
    && FollowsBirths(t, Births(public, now, ops))
    && forall id :: id in t.keys ==> t.keys[id].revokedAt == LastRevoked(office, public, now, ops, id)
  }

  lemma StepFollowsTheRun(r: Ring, office: string, overlap: int, public: PublicKey, now: int, ops: seq<Op>)
    requires ops != [] && Valid(r) && CanSign(r, r.active)
    requires FollowsRun(r, office, overlap, public, now, ops[..|ops| - 1])
    ensures FollowsRun(Step(r, ops[|ops| - 1]), office, overlap, public, now, ops)
  {
    var n := |ops| - 1;
    var births := Births(public, now, ops[..n]);
    var t := Step(r, ops[n]);
    assert t.office == r.office && t.overlap == r.overlap;
    hide Valid, FollowsBirths, CanSign, Step;
    if ops[n].DoRotate? {
      assert Step(r, ops[n]) == Rotate(r, ops[n].public, ops[n].now) by { StepOfRotation(r, ops[n]); }
      RotationFollowsBirths(r, births, ops[n].public, ops[n].now);
    } else {
      OtherStepsFollowBirths(r, births, ops[n]);
      assert Births(public, now, ops) == births + [] == births;
    }
    forall id | id in t.keys ensures t.keys[id].revokedAt == LastRevoked(office, public, now, ops, id) {
      RevocationFollowsTheRun(r, ops, births, id);
      if id !in r.keys && !(ops[n].DoRevoke? && ops[n].id == id) {
        NoRevocationBeforeBirth(office, public, now, ops[..n], id);
      }
    }
  }

  lemma StepOfRotation(r: Ring, op: Op)
    requires CanSign(r, r.active) && op.DoRotate?
    ensures Step(r, op) == Rotate(r, op.public, op.now)
  {}

  lemma {:induction false} NoRevocationBeforeBirth(office: string, public: PublicKey, now: int, ops: seq<Op>, id: KeyId)
    requires id.generation > |Births(public, now, ops)|
    ensures LastRevoked(office, public, now, ops, id).None?
  {
    if ops != [] {
      NoRevocationBeforeBirth(office, public, now, ops[..|ops| - 1], id);
    }
  }

  /** After every run the keys are those of the rotations, and revoked when they were last revoked. */
  lemma {:induction false} KeysFollowTheRun(office: string, overlap: int, public: PublicKey, now: int, ops: seq<Op>)
    requires overlap >= 0
    ensures Valid(NewRing(office, overlap, public, now))
    ensures FollowsRun(Run(NewRing(office, overlap, public, now), ops), office, overlap, public, now, ops)
  {
    NewRingIsValid(office, overlap, public, now);
    if ops != [] {
      var n := |ops| - 1;
      KeysFollowTheRun(office, overlap, public, now, ops[..n]);
      var before := Run(NewRing(office, overlap, public, now), ops[..n]);
      StepKeepsValid(before, ops[n]);
      hide Valid, NewRing, FollowsRun, CanSign, Step;
      StepFollowsTheRun(before, office, overlap, public, now, ops);
    }
  }

  lemma RevocationFollowsTheRun(r: Ring, ops: seq<Op>, births: seq<Birth>, id: KeyId)
    requires Valid(r) && CanSign(r, r.active) && FollowsBirths(r, births) && ops != []
    requires id in Step(r, ops[|ops| - 1]).keys
    ensures var op := ops[|ops| - 1];
            var accepted := op.DoRevoke? && op.id == id && op.reason != "" && id.office == r.office && 1 <= id.generation < |births|;
            if accepted then Step(r, op).keys[id].revokedAt == Some(op.now)
            else if id in r.keys then Step(r, op).keys[id].revokedAt == r.keys[id].revokedAt
            else Step(r, op).keys[id].revokedAt.None? && id.office == r.office && id.generation == |births| + 1
  {
    hide RevocationRecord, RotationManifest, RetirementDue, ValidLog;
  }

  /** The signature was made by a key of the ring, over exactly this body, at a moment that its dates admit. */
  predicate IsGenuine(r: Ring, d: Document, moment: int) {
    d.signature.Some? &&
    var s := d.signature.value;
    s.keyId in r.keys &&
    var k := r.keys[s.keyId];
    && s.signer == k.publicKey
    && s.covers == d.body
    && k.notBefore <= moment
    && (k.notAfter.Some? ==> moment <= k.notAfter.value)
    && (k.revokedAt.Some? ==> moment < k.revokedAt.value)
  }

  lemma OnlyTheGenuineVerifies(r: Ring, d: Document, moment: int)
    requires Valid(r)
    ensures Verify(r, d, moment) <==> IsGenuine(r, d, moment)
  {
    if d.signature.Some? && d.signature.value.keyId in r.keys {
      RevokedMeansRevokedAt(r, d.signature.value.keyId);
    }
    hide Valid;
  }

  /**
   After every run a document is accepted exactly when it is signed by one of the keys born so far, over
   exactly its body, at a moment from that key's birth until some overlap after the next one, and before its
   last revocation. Nothing else is: not another key, nor another body, nor another time.
   */
  lemma DocumentsVerifyExactly(office: string, overlap: int, public: PublicKey, now: int, ops: seq<Op>, d: Document, moment: int)
    requires overlap >= 0
    ensures Valid(NewRing(office, overlap, public, now))
    ensures var births := Births(public, now, ops);
            Verify(Run(NewRing(office, overlap, public, now), ops), d, moment) <==>
              && d.signature.Some?
              && d.signature.value.covers == d.body
              && d.signature.value.keyId.office == office
              && 1 <= d.signature.value.keyId.generation <= |births|
              && d.signature.value.signer == births[d.signature.value.keyId.generation - 1].public
              && births[d.signature.value.keyId.generation - 1].at <= moment
              && (d.signature.value.keyId.generation < |births| ==>
                    moment <= births[d.signature.value.keyId.generation].at + overlap)
              && (var revoked := LastRevoked(office, public, now, ops, d.signature.value.keyId);
                  revoked.Some? ==> moment < revoked.value)
  {
    KeysFollowTheRun(office, overlap, public, now, ops);
    var t, births := Run(NewRing(office, overlap, public, now), ops), Births(public, now, ops);
    OnlyTheGenuineVerifies(t, d, moment);
    assert forall id :: id in t.keys <==> id.office == office && 1 <= id.generation <= |births|;
    hide Valid, NewRing, Births, LastRevoked, Verify, Run;
    if d.signature.Some? {
      var id := d.signature.value.keyId;
      if id.office == office && 1 <= id.generation <= |births| {
        assert FollowsItsBirth(t, births, id.generation) && KeyId(office, id.generation) == id;
      }
    }
  }

  // ------------------------------------------------------------ which manifests are applied, in full

  /** A rotation of the office, signed by the previous key over exactly its body, to a key of the office. */
  predicate IsAuthorized(known: map<KeyId, ManagedKey>, d: Document, office: string) {
    && d.body.RotationBody?
    && d.body.office == office
    && d.body.newKey.keyId.office == office
    && d.body.previous in known
    && d.signature.Some?
    && d.signature.value.keyId == d.body.previous
    && d.signature.value.signer == known[d.body.previous].publicKey
    && d.signature.value.covers == d.body
  }

  /** The previous key is put to rest and the new one is known; nothing else changes. */
  ghost predicate IsSucceeded(known: map<KeyId, ManagedKey>, after: map<KeyId, ManagedKey>, d: Document)
    requires d.body.RotationBody?
  {
    var previous, k := d.body.previous, d.body.newKey;
    && after.Keys == known.Keys + {k.keyId}
    && (forall id :: id in known && id != previous && id != k.keyId ==> after[id] == known[id])
    && after[k.keyId].keyId == k.keyId
    && after[k.keyId].publicKey == k.publicKey
    && after[k.keyId].notBefore == k.notBefore
    && after[k.keyId].notAfter == k.notAfter
    && after[k.keyId].status == k.status
    && after[k.keyId].revokedAt.None?
    && (previous in known && previous != k.keyId ==>
          && after[previous].status == Retiring
          && after[previous].notAfter == Some(d.body.overlapUntil)
          && after[previous].keyId == known[previous].keyId
          && after[previous].publicKey == known[previous].publicKey
          && after[previous].notBefore == known[previous].notBefore
          && after[previous].revokedAt == known[previous].revokedAt)
  }

  /** A manifest that the previous key did not sign leaves the known keys as they are; any other one does what it says. */
  lemma ManifestsInFull(known: map<KeyId, ManagedKey>, d: Document, office: string)
    ensures ManifestRefusal(known, d, office).None? <==> IsAuthorized(known, d, office)
    ensures !IsAuthorized(known, d, office) ==> ApplyManifest(known, d, office) == known
    ensures IsAuthorized(known, d, office) ==> IsSucceeded(known, ApplyManifest(known, d, office), d)
  {}

  /** The keys that a remote office knows of another one. */
  class RemoteKeys {
    const office: string
    var known: map<KeyId, ManagedKey>

    constructor (office: string, anchors: map<KeyId, ManagedKey>)
      ensures this.office == office && known == anchors
    {
      this.office, known := office, anchors;
    }

    method ApplyRotationManifest(d: Document) returns (r: Result<ManagedKey, ManifestError>)
      modifies this
      ensures known == ApplyManifest(old(known), d, office)
      ensures r.Err? ==> Some(r.error) == ManifestRefusal(old(known), d, office)
      ensures r.Ok? <==> IsAuthorized(old(known), d, office)
      ensures r.Ok? ==> IsSucceeded(old(known), known, d) && r.value == known[d.body.newKey.keyId]
      ensures r.Err? ==> known == old(known)
    {
      ManifestsInFull(known, d, office);
      hide IsSucceeded;
      if !d.body.RotationBody? || d.body.office != office {
        return Err(InvalidRotationManifest);
      }
      if d.body.previous !in known {
        return Err(NoTrustAnchor);
      }
      if d.signature.None? || d.signature.value.keyId != d.body.previous {
        return Err(NotAuthorizedByPrevious);
      }
      if !Verifies(known[d.body.previous].publicKey, d.signature.value, d.body) {
        return Err(InvalidRotationSignature);
      }
      if d.body.newKey.keyId.office != office {
        return Err(ForeignKey);
      }
      var k := d.body.newKey;
      var next := ManagedKey(k.keyId, k.publicKey, k.notBefore, k.notAfter, k.status, None, None);
      known := known[d.body.previous := known[d.body.previous].(status := Retiring, notAfter := Some(d.body.overlapUntil))];
      known := known[k.keyId := next];
      r := Ok(next);
    }
  }

  // ------------------------------------------------------------ the keyring object

  class TelegraphKeyring {
    const office: string
    const overlap: int
    var sequence: int
    var active: KeyId
    var keys: map<KeyId, ManagedKey>
    var lifecycle: seq<Document>

    function View(): Ring
      reads this
    {
      Ring(office, overlap, sequence, active, keys, lifecycle)
    }

    constructor (office: string, overlap: int, public: PublicKey, now: int)
      requires NewRingRefusal(office, overlap).None?
      ensures View() == NewRing(office, overlap, public, now) && Valid(View())
    {
      this.office, this.overlap := office, overlap;
      var id := KeyId(office, 1);
      sequence := 1;
      active := id;
      keys := map[id := FreshKey(id, public, now)];
      lifecycle := [];
    }

    method SignDocument(b: Body, id: Option<KeyId>) returns (r: Result<Signature, KeyError>)
      ensures var selected := if id.Some? then id.value else active;
              && r == (if CanSign(View(), selected) then Ok(Sign(View(), selected, b)) else Err(KeyUnavailable))
              && (r.Ok? <==> selected in keys && (keys[selected].status.Active? || keys[selected].status.Retiring?))
              && (r.Ok? ==> r.value == Signature(selected, keys[selected].publicKey, b))
    {
      var selected := if id.Some? then id.value else active;
      if selected !in keys || (keys[selected].status != Active && keys[selected].status != Retiring) {
        return Err(KeyUnavailable);
      }
      r := Ok(Signature(selected, keys[selected].publicKey, b));
    }

    /** The highest generation among the keys. */
    method HighestGeneration() returns (n: nat)
      requires Valid(View())
      ensures n == active.generation
    {
      n := 0;
      var rest := keys.Keys;
      while rest != {}
        invariant rest <= keys.Keys
        invariant n <= active.generation
        invariant active in keys && (active in rest || n == active.generation)
        decreases rest
      {
        var id :| id in rest;
        if id.generation > n {
          n := id.generation;
        }
        rest := rest - {id};
      }
    }

    /** Retires the active key into its overlap and makes another the active one. */
    method Succeed(next: ManagedKey, manifest: Document, now: int)
      requires active in keys
      modifies this
      ensures View() == old(View()).(
        keys := old(keys)[old(active) := old(keys)[old(active)].(status := Retiring, notAfter := Some(now + overlap))]
                         [next.keyId := next],
        active := next.keyId,
        sequence := old(sequence) + 1,
        lifecycle := old(lifecycle) + [manifest])
    {
      keys := keys[active := keys[active].(status := Retiring, notAfter := Some(now + overlap))];
      keys := keys[next.keyId := next];
      active := next.keyId;
      sequence := sequence + 1;
      lifecycle := lifecycle + [manifest];
    }

    method RotateKey(public: PublicKey, now: int) returns (manifest: Document)
      requires Valid(View())
      modifies this
      ensures Valid(View()) && CanSign(old(View()), old(active))
      ensures View() == Rotate(old(View()), public, now)
      ensures manifest == RotationManifest(old(View()), public, now)
    {
      StepKeepsValid(View(), DoRotate(public, now));
      hide Valid, ValidKeys, ValidLog, Rotate, RotationManifest;
      var highest := HighestGeneration();
      manifest := IssueKey(highest + 1, public, now);
    }

    /** Signs the rotation with the active key and puts the new key in its place. */
    method IssueKey(generation: nat, public: PublicKey, now: int) returns (manifest: Document)
      requires CanSign(View(), active) && generation == active.generation + 1
      modifies this
      ensures View() == Rotate(old(View()), public, now)
      ensures manifest == RotationManifest(old(View()), public, now)
    {
      var next := FreshKey(KeyId(office, generation), public, now);
      var body := RotationBody(office, sequence, now, active, next, now + overlap);
      var signature := SignDocument(body, Some(active));
      manifest := Document(body, Some(signature.value));
      Succeed(next, manifest, now);
    }

    method RetireExpiredKeys(now: int) returns (retired: set<KeyId>)
      requires Valid(View())
      modifies this
      ensures Valid(View()) && View() == RetireExpired(old(View()), now)
      ensures retired == set id | id in old(keys) && RetirementDue(old(keys)[id], now)
      ensures forall id :: id in retired <==>
        id in old(keys) && old(keys)[id].status.Retiring? && old(keys)[id].notAfter.Some? && old(keys)[id].notAfter.value <= now
      ensures keys.Keys == old(keys).Keys
      ensures forall id :: id in keys ==>
        keys[id] == if id in retired then old(keys)[id].(status := Retired) else old(keys)[id]
    {
      StepKeepsValid(View(), DoRetire(now));
      hide Valid, ValidKeys, ValidLog, RetireExpired, RetirementDue;
      retired := set id | id in keys && RetirementDue(keys[id], now);
      RetireEach(retired, now);
    }

    method RetireEach(due: set<KeyId>, now: int)
      requires due == set id | id in keys && RetirementDue(keys[id], now)
      modifies this
      ensures View() == RetireExpired(old(View()), now)
    {
      hide RetirementDue;
      var rest := due;
      ghost var before := keys;
      while rest != {}
        invariant rest <= due <= before.Keys
        invariant keys == map id | id in before ::
          if id in due && id !in rest then before[id].(status := Retired) else before[id]
        invariant sequence == old(sequence) && active == old(active) && lifecycle == old(lifecycle)
        decreases rest
      {
        var id :| id in rest;
        keys := keys[id := keys[id].(status := Retired)];
        rest := rest - {id};
      }
      assert keys == RetireExpired(old(View()), now).keys;
    }

    method RevokeKey(id: KeyId, reason: string, now: int) returns (r: Result<Document, KeyError>)
      requires Valid(View())
      modifies this
      ensures Valid(View()) && CanSign(old(View()), old(active))
      ensures View() == Revoke(old(View()), id, reason, now)
      ensures r == if RevokeRefusal(old(View()), id, reason).Some? then Err(RevokeRefusal(old(View()), id, reason).value)
                   else Ok(RevocationRecord(old(View()), id, reason, now))
      ensures r.Err? <==> reason == "" || id !in old(keys) || id == old(active)
      ensures r.Err? ==> View() == old(View())
      ensures r.Ok? ==>
        keys == old(keys)[id := old(keys)[id].(status := Revoked, revokedAt := Some(now), revocationReason := Some(reason))]
    {
      StepKeepsValid(View(), DoRevoke(id, reason, now));
      if reason == "" {
        return Err(ReasonRequired);
      }
      if id !in keys {
        return Err(UnknownKey);
      }
      if id == active {
        return Err(RotateFirst);
      }
      var body := RevocationBody(office, sequence, now, id, reason, active);
      var signature := SignDocument(body, Some(active));
      var record := Document(body, Some(signature.value));
      keys := keys[id := keys[id].(status := Revoked, revokedAt := Some(now), revocationReason := Some(reason))];
      sequence := sequence + 1;
      lifecycle := lifecycle + [record];
      r := Ok(record);
    }

    method VerifyDocument(d: Document, moment: int) returns (ok: bool)
      ensures ok == Verify(View(), d, moment)
      ensures Valid(View()) ==> (ok <==> IsGenuine(View(), d, moment))
    {
      if Valid(View()) {
        OnlyTheGenuineVerifies(View(), d, moment);
      }
      hide Valid, IsGenuine;
      if d.signature.None? || d.signature.value.keyId !in keys {
        return false;
      }
      var k := keys[d.signature.value.keyId];
      if moment < k.notBefore {
        return false;
      }
      if k.status == Revoked && k.revokedAt.Some? && moment >= k.revokedAt.value {
        return false;
      }
      if k.notAfter.Some? && moment > k.notAfter.value {
        return false;
      }
      ok := Verifies(k.publicKey, d.signature.value, d.body);
    }
  }
}
