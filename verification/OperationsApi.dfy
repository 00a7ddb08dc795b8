/**
 The operations API: signed requests that are accepted at most once, and typed
 actions whose handler runs at most once per idempotency key.
 */
module OperationsApi {
  import opened Wrappers

  const MAX_CLOCK_SKEW := 300

  // ------------------------------------------------------------ authentication

  /** Request headers; an absent field is missing or blank, and `stamp` is absent too when it is not a number. */
  datatype Headers = Headers(
    actor: Option<string>,
    nonce: Option<string>,
    stampText: Option<string>,
    stamp: Option<int>,
    signature: Option<string>,
    signatureMatches: bool)

  datatype AuthError = MissingHeaders | InvalidTimestamp | OutsideWindow | InvalidSignature | ReplayedNonce

  type Nonces = map<string, int>

  function Abs(x: int): nat {
    if x < 0 then -x else x
  }

  /** The checks before the nonce is looked at. */
  function AuthRefusal(h: Headers, now: int): Option<AuthError> {
    if h.actor.None? || h.nonce.None? || h.stampText.None? || h.signature.None? then Some(MissingHeaders)
    else if h.stamp.None? then Some(InvalidTimestamp)
    else if Abs(now - h.stamp.value) > MAX_CLOCK_SKEW then Some(OutsideWindow)
    else if !h.signatureMatches then Some(InvalidSignature)
    else None
  }

  function PruneNonces(ns: Nonces, now: int): Nonces {
    map n | n in ns && ns[n] >= now - MAX_CLOCK_SKEW :: ns[n]
  }

  /** The nonce table keeps the time the request carries, not the time it arrived. */
  function AuthOutcome(ns: Nonces, h: Headers, now: int): Result<(), AuthError> {
    if AuthRefusal(h, now).Some? then Err(AuthRefusal(h, now).value)
    else if h.nonce.value in PruneNonces(ns, now) then Err(ReplayedNonce)
    else Ok(())
  }

  function AuthEffect(ns: Nonces, h: Headers, now: int): Nonces {
    if AuthRefusal(h, now).Some? then ns
    else
      var live := PruneNonces(ns, now);
      if h.nonce.value in live then live else live[h.nonce.value := h.stamp.value]
  }

  datatype Arrival = Arrival(headers: Headers, now: int)

  function NoncesAfter(rs: seq<Arrival>): Nonces {
    if rs == [] then map[]
    else AuthEffect(NoncesAfter(rs[..|rs| - 1]), rs[|rs| - 1].headers, rs[|rs| - 1].now)
  }

  predicate Accepted(rs: seq<Arrival>, i: nat)
    requires i < |rs|
  {
    AuthOutcome(NoncesAfter(rs[..i]), rs[i].headers, rs[i].now).Ok?
  }

  ghost predicate Nondecreasing(rs: seq<Arrival>) {
    forall i, j :: 0 <= i < j < |rs| ==> rs[i].now <= rs[j].now
  }

  /** An accepted request's nonce stays in the table, at the request's time, while that time is in the window. */
  lemma {:induction false} AcceptedNonceStays(rs: seq<Arrival>, i: nat, n: nat)
    requires Nondecreasing(rs) && i < n <= |rs| && Accepted(rs, i)
    requires rs[i].headers.stamp.value >= rs[n - 1].now - MAX_CLOCK_SKEW
    ensures rs[i].headers.nonce.value in NoncesAfter(rs[..n])
    ensures NoncesAfter(rs[..n])[rs[i].headers.nonce.value] == rs[i].headers.stamp.value
    decreases n
  {
    assert rs[..n][..n - 1] == rs[..n - 1];
    if n - 1 > i {
      AcceptedNonceStays(rs, i, n - 1);
    }
  }

  /** With a clock that never goes back, no signed request is accepted twice, despite the pruning of nonces. */
  lemma NoRequestIsAcceptedTwice(rs: seq<Arrival>, i: nat, j: nat)
    requires Nondecreasing(rs) && i < j < |rs| && Accepted(rs, i)
    requires rs[j].headers.nonce == rs[i].headers.nonce && rs[j].headers.stamp == rs[i].headers.stamp
    ensures !Accepted(rs, j)
  {
    if rs[i].headers.stamp.value >= rs[j].now - MAX_CLOCK_SKEW {
      assert rs[j - 1].now <= rs[j].now;
      AcceptedNonceStays(rs, i, j);
    }
  }

  /** A nonce returns only with a later stamp, once the earlier stamp has left the window. */
  lemma NonceReturnsOnlyLater(rs: seq<Arrival>, i: nat, j: nat)
    requires Nondecreasing(rs) && i < j < |rs| && Accepted(rs, i) && Accepted(rs, j)
    requires rs[j].headers.nonce == rs[i].headers.nonce
    ensures rs[i].headers.stamp.value < rs[j].now - MAX_CLOCK_SKEW <= rs[j].headers.stamp.value
  {
    if rs[i].headers.stamp.value >= rs[j].now - MAX_CLOCK_SKEW {
      assert rs[j - 1].now <= rs[j].now;
      AcceptedNonceStays(rs, i, j);
    }
  }

  // ------------------------------------------------------------ which requests are accepted, in full

  /** All headers are there, the signature is theirs, and the stamp lies within five minutes of the arrival. */
  predicate IsSigned(h: Headers, now: int) {
    && h.actor.Some? && h.nonce.Some? && h.stampText.Some? && h.signature.Some?
    && h.stamp.Some?
    && now - 300 <= h.stamp.value <= now + 300
    && h.signatureMatches
  }

  /** The table holds the nonce at a time that is no more than five minutes ago. */
  predicate HoldsRecently(ns: Nonces, h: Headers, now: int)
    requires h.nonce.Some?
  {
    h.nonce.value in ns && now - 300 <= ns[h.nonce.value]
  }

  /** A signed request is accepted unless its nonce is held; an unsigned one never is, and leaves no trace. */
  lemma AuthenticationInFull(ns: Nonces, h: Headers, now: int)
    ensures AuthOutcome(ns, h, now).Ok? <==> IsSigned(h, now) && !HoldsRecently(ns, h, now)
    ensures AuthOutcome(ns, h, now) == Err(ReplayedNonce) <==> IsSigned(h, now) && HoldsRecently(ns, h, now)
    ensures !IsSigned(h, now) ==> AuthEffect(ns, h, now) == ns
    ensures IsSigned(h, now) ==> forall n ::
      n in AuthEffect(ns, h, now) <==> n == h.nonce.value || (n in ns && now - 300 <= ns[n])
    ensures IsSigned(h, now) ==> forall n :: n in AuthEffect(ns, h, now) ==>
      AuthEffect(ns, h, now)[n] == if n in ns && now - 300 <= ns[n] then ns[n] else h.stamp.value
  {}

  /** The request at step i was accepted, and no signed one before step x came so late as to drop its nonce. */
  ghost predicate IsHeld(rs: seq<Arrival>, i: nat, x: nat) {
    && i < x <= |rs| && Accepted(rs, i) && rs[i].headers.stamp.Some?
    && forall k :: i < k < x && IsSigned(rs[k].headers, rs[k].now) ==> !CameLate(rs, i, k)
  }

  /** Request k arrived more than five minutes after the stamp of request i. */
  predicate CameLate(rs: seq<Arrival>, i: nat, k: nat)
    requires i < |rs| && k < |rs| && rs[i].headers.stamp.Some?
  {
    rs[i].headers.stamp.value < rs[k].now - 300
  }

  lemma AcceptedIsSigned(rs: seq<Arrival>, i: nat)
    requires i < |rs| && Accepted(rs, i)
    ensures IsSigned(rs[i].headers, rs[i].now)
  {
    AuthenticationInFull(NoncesAfter(rs[..i]), rs[i].headers, rs[i].now);
  }

  lemma OneMoreArrival(rs: seq<Arrival>, n: nat)
    requires n < |rs|
    ensures NoncesAfter(rs[..n + 1]) == AuthEffect(NoncesAfter(rs[..n]), rs[n].headers, rs[n].now)
  {
    assert rs[..n + 1][..n] == rs[..n];
  }

  lemma {:induction false} HeldNonceStays(rs: seq<Arrival>, i: nat, x: nat)
    requires IsHeld(rs, i, x)
    ensures rs[i].headers.nonce.Some?
    ensures rs[i].headers.nonce.value in NoncesAfter(rs[..x])
    ensures NoncesAfter(rs[..x])[rs[i].headers.nonce.value] == rs[i].headers.stamp.value
    decreases x
  {
    hide AuthEffect, NoncesAfter, AuthOutcome;
    AcceptedIsSigned(rs, i);
    OneMoreArrival(rs, x - 1);
    AuthenticationInFull(NoncesAfter(rs[..x - 1]), rs[x - 1].headers, rs[x - 1].now);
    if i < x - 1 {
      HeldNonceStays(rs, i, x - 1);
    }
  }

  lemma {:induction false} StoredNonceIsHeld(rs: seq<Arrival>, x: nat, nonce: string) returns (i: nat)
    requires x <= |rs| && nonce in NoncesAfter(rs[..x])
    ensures IsHeld(rs, i, x) && rs[i].headers.nonce == Some(nonce)
    ensures NoncesAfter(rs[..x])[nonce] == rs[i].headers.stamp.value
    decreases x
  {
    assert rs[..0] == [];
    if x == 0 {
      assert false;
    }
    hide AuthEffect, NoncesAfter, AuthOutcome;
    i := x - 1;
    var last, before := rs[x - 1], NoncesAfter(rs[..x - 1]);
    OneMoreArrival(rs, x - 1);
    AuthenticationInFull(before, last.headers, last.now);
    if nonce in before && (IsSigned(last.headers, last.now) ==> last.now - 300 <= before[nonce]) {
      i := StoredNonceIsHeld(rs, x - 1, nonce);
    }
  }

  /**
   In every run, whatever the clock does: a request is accepted exactly when it is signed and each earlier
   acceptance of its nonce has been dropped by a signed request, perhaps this one, that came more than five
   minutes after the earlier stamp.
   */
  lemma AcceptedExactly(rs: seq<Arrival>, j: nat)
    requires j < |rs|
    ensures forall i :: 0 <= i < j && Accepted(rs, i) ==> rs[i].headers.stamp.Some?
    ensures Accepted(rs, j) <==>
      && IsSigned(rs[j].headers, rs[j].now)
      && forall i :: 0 <= i < j && Accepted(rs, i) && rs[i].headers.nonce == rs[j].headers.nonce ==>
           exists k :: i < k <= j && IsSigned(rs[k].headers, rs[k].now) && CameLate(rs, i, k)
  {
    var ns, h, now := NoncesAfter(rs[..j]), rs[j].headers, rs[j].now;
    AuthenticationInFull(ns, h, now);
    forall i | 0 <= i < j && Accepted(rs, i) ensures rs[i].headers.stamp.Some? {
      AcceptedIsSigned(rs, i);
    }
    hide AuthEffect, NoncesAfter, AuthOutcome;
    if IsSigned(h, now) && HoldsRecently(ns, h, now) {
      var i := StoredNonceIsHeld(rs, j, h.nonce.value);
      assert Accepted(rs, i) && !exists k :: i < k <= j && IsSigned(rs[k].headers, rs[k].now) && CameLate(rs, i, k);
    }
    if Accepted(rs, j) {
      forall i | 0 <= i < j && Accepted(rs, i) && rs[i].headers.nonce == rs[j].headers.nonce
        ensures exists k :: i < k <= j && IsSigned(rs[k].headers, rs[k].now) && CameLate(rs, i, k)
      {
        if IsHeld(rs, i, j) {
          HeldNonceStays(rs, i, j);
          assert CameLate(rs, i, j);
        }
      }
    }
  }

  /** With a clock that never goes back, it is the request's own arrival that decides whether its nonce is free again. */
  lemma AcceptedUnlessReplayed(rs: seq<Arrival>, j: nat)
    requires Nondecreasing(rs) && j < |rs|
    ensures Accepted(rs, j) <==>
      && IsSigned(rs[j].headers, rs[j].now)
      && forall i :: 0 <= i < j && Accepted(rs, i) && rs[i].headers.nonce == rs[j].headers.nonce ==>
           rs[i].headers.stamp.Some? && CameLate(rs, i, j)
  {
    AcceptedExactly(rs, j);
    hide Accepted;
    if IsSigned(rs[j].headers, rs[j].now) {
      forall i | 0 <= i < j && rs[i].headers.stamp.Some?
        ensures (exists k :: i < k <= j && IsSigned(rs[k].headers, rs[k].now) && CameLate(rs, i, k)) <==> CameLate(rs, i, j)
      {
        if CameLate(rs, i, j) {
          assert i < j <= j && IsSigned(rs[j].headers, rs[j].now);
        }
      }
    }
  }

  /** Whatever is refused before its nonce is looked at leaves the nonces as they were. */
  lemma UnsignedLeavesNoTrace(rs: seq<Arrival>, j: nat)
    requires j < |rs| && !IsSigned(rs[j].headers, rs[j].now)
    ensures !Accepted(rs, j) && NoncesAfter(rs[..j + 1]) == NoncesAfter(rs[..j])
  {
    OneMoreArrival(rs, j);
    AuthenticationInFull(NoncesAfter(rs[..j]), rs[j].headers, rs[j].now);
    hide AuthEffect, NoncesAfter, AuthOutcome;
  }

  // ------------------------------------------------------------ idempotent actions

  type ActionKey = (string, string)

  datatype Response = Succeeded(payload: string, replay: bool) | Failed(error: string, replay: bool)

  function AsReplay(r: Response): Response {
    match r
    case Succeeded(p, _) => Succeeded(p, true)
    case Failed(e, _) => Failed(e, true)
  }

  /** A row of the idempotency table; the response is absent while it is the empty string. */
  datatype Claim = Claim(hash: string, response: Option<Response>)

  type Claims = map<ActionKey, Claim>

  datatype ClaimOutcome = Fresh | Replay(response: Response) | ParametersDiffer | Incomplete

  function ClaimAnswer(cs: Claims, k: ActionKey, hash: string): ClaimOutcome {
    if k !in cs then Fresh
    else if cs[k].hash != hash then ParametersDiffer
    else if cs[k].response.None? then Incomplete
    else Replay(AsReplay(cs[k].response.value))
  }

  function ClaimEffect(cs: Claims, k: ActionKey, hash: string): Claims {
    if k in cs then cs else cs[k := Claim(hash, None)]
  }

  /** A claim is completed under its own hash, and only while it has no response. */
  predicate CanComplete(cs: Claims, k: ActionKey, hash: string) {
    k in cs && cs[k].hash == hash && cs[k].response.None?
  }

  function CompleteEffect(cs: Claims, k: ActionKey, hash: string, r: Response): Claims {
    if CanComplete(cs, k, hash) then cs[k := Claim(hash, Some(r))] else cs
  }

  // ------------------------------------------------------------ interleaved workers

  datatype Held = Held(key: ActionKey, hash: string, executed: bool)

  /** The table, what each worker holds, and how often the handler of each key has run. */
  datatype World = World(claims: Claims, workers: map<nat, Held>, runs: map<ActionKey, nat>)

  datatype Step =
    | DoClaim(worker: nat, key: ActionKey, hash: string)
    | DoExecute(worker: nat)
    | DoComplete(worker: nat, response: Response)
    | DoCrash(worker: nat)

  function Runs(w: World, k: ActionKey): nat {
    if k in w.runs then w.runs[k] else 0
  }

  /** A worker claims, then executes, then completes; it may stop anywhere, leaving its row claimed. */
  function Next(w: World, s: Step): World {
    match s
    case DoClaim(id, k, hash) =>
      if id in w.workers then w
      else if ClaimAnswer(w.claims, k, hash).Fresh? then
        w.(claims := ClaimEffect(w.claims, k, hash), workers := w.workers[id := Held(k, hash, false)])
      else w
    case DoExecute(id) =>
      if id !in w.workers || w.workers[id].executed then w
      else
        var h := w.workers[id];
        w.(workers := w.workers[id := h.(executed := true)], runs := w.runs[h.key := Runs(w, h.key) + 1])
    case DoComplete(id, r) =>
      if id !in w.workers || !w.workers[id].executed then w
      else
        var h := w.workers[id];
        w.(claims := CompleteEffect(w.claims, h.key, h.hash, r), workers := w.workers - {id})
    case DoCrash(id) => w.(workers := w.workers - {id})
  }

  /** No two workers hold one key, and each can still complete the claim it holds. */
  ghost predicate HoldersAreApart(w: World) {
    && (forall a, b :: a in w.workers && b in w.workers && a != b ==> w.workers[a].key != w.workers[b].key)
    && (forall a :: a in w.workers ==> CanComplete(w.claims, w.workers[a].key, w.workers[a].hash))
  }

  /** The handler of a key ran at most once, and exactly once where its worker says so or a response is stored. */
  ghost predicate RunsAreCounted(w: World) {
    && (forall a :: a in w.workers ==> Runs(w, w.workers[a].key) == if w.workers[a].executed then 1 else 0)
    && (forall k :: k in w.runs ==> k in w.claims && w.runs[k] <= 1)
    && (forall k :: k in w.claims && w.claims[k].response.Some? ==> Runs(w, k) == 1)
  }

  ghost predicate Exclusive(w: World) {
    HoldersAreApart(w) && RunsAreCounted(w)
  }

  lemma NewClaimIsApart(w: World, id: nat, k: ActionKey, hash: string)
    requires HoldersAreApart(w) && k !in w.claims
    ensures HoldersAreApart(w.(claims := w.claims[k := Claim(hash, None)], workers := w.workers[id := Held(k, hash, false)]))
  {
    assert forall a :: a in w.workers ==> w.workers[a].key != k;
  }

  lemma NewClaimIsCounted(w: World, id: nat, k: ActionKey, hash: string)
    requires HoldersAreApart(w) && RunsAreCounted(w) && k !in w.claims
    ensures RunsAreCounted(w.(claims := w.claims[k := Claim(hash, None)], workers := w.workers[id := Held(k, hash, false)]))
  {
    assert k !in w.runs;
    assert forall a :: a in w.workers ==> w.workers[a].key != k;
    hide CanComplete;
  }

  lemma ClaimKeepsExclusive(w: World, id: nat, k: ActionKey, hash: string)
    requires Exclusive(w)
    ensures Exclusive(Next(w, DoClaim(id, k, hash)))
  {
    hide HoldersAreApart, RunsAreCounted;
    if k !in w.claims {
      NewClaimIsApart(w, id, k, hash);
      NewClaimIsCounted(w, id, k, hash);
    }
  }

  lemma ExecuteKeepsExclusive(w: World, id: nat)
    requires Exclusive(w)
    ensures Exclusive(Next(w, DoExecute(id)))
  {
    var v := Next(w, DoExecute(id));
    if v != w {
      var k := w.workers[id].key;
      assert Runs(v, k) == 1;
      assert forall j :: j != k ==> Runs(v, j) == Runs(w, j);
    }
  }

  lemma CompleteKeepsExclusive(w: World, id: nat, r: Response)
    requires Exclusive(w)
    ensures Exclusive(Next(w, DoComplete(id, r)))
  {
    var v := Next(w, DoComplete(id, r));
    if v != w {
      var k := w.workers[id].key;
      assert forall a :: a in v.workers ==> w.workers[a].key != k && v.workers[a] == w.workers[a];
      assert forall j :: Runs(v, j) == Runs(w, j);
    }
  }

  /** One worker at most holds a key, its row is still open, and it alone may run the handler. */
  lemma StepKeepsExclusive(w: World, s: Step)
    requires Exclusive(w)
    ensures Exclusive(Next(w, s))
  {
    match s
    case DoClaim(id, k, hash) => ClaimKeepsExclusive(w, id, k, hash);
    case DoExecute(id) => ExecuteKeepsExclusive(w, id);
    case DoComplete(id, r) => CompleteKeepsExclusive(w, id, r);
    case DoCrash(id) =>
      assert forall j :: Runs(Next(w, s), j) == Runs(w, j);
  }

  function After(w: World, steps: seq<Step>): World {
    if steps == [] then w else Next(After(w, steps[..|steps| - 1]), steps[|steps| - 1])
  }

  const IDLE := World(map[], map[], map[])

  /** Over all interleavings and crashes, the handler of a key runs at most once, and exactly once if a response was stored. */
  lemma {:induction false} HandlersRunAtMostOnce(steps: seq<Step>, k: ActionKey)
    ensures Exclusive(After(IDLE, steps))
    ensures Runs(After(IDLE, steps), k) <= 1
    ensures k in After(IDLE, steps).claims && After(IDLE, steps).claims[k].response.Some? ==> Runs(After(IDLE, steps), k) == 1
  {
    if steps != [] {
      HandlersRunAtMostOnce(steps[..|steps| - 1], k);
      StepKeepsExclusive(After(IDLE, steps[..|steps| - 1]), steps[|steps| - 1]);
    }
  }

  /** A claimed row keeps its parameters, and a completed response never changes, through any further steps. */
  lemma {:induction false} ResponsesAreFinal(w: World, steps: seq<Step>, k: ActionKey)
    requires k in w.claims
    ensures k in After(w, steps).claims && After(w, steps).claims[k].hash == w.claims[k].hash
    ensures w.claims[k].response.Some? ==> After(w, steps).claims[k] == w.claims[k]
  {
    if steps != [] {
      ResponsesAreFinal(w, steps[..|steps| - 1], k);
    }
  }

  /** So every later claim with the same parameters replays the stored response, and with others is refused. */
  lemma CompletedKeysReplay(w: World, steps: seq<Step>, k: ActionKey, hash: string)
    requires k in w.claims && w.claims[k].response.Some?
    ensures ClaimAnswer(After(w, steps).claims, k, hash) ==
              if hash == w.claims[k].hash then Replay(AsReplay(w.claims[k].response.value)) else ParametersDiffer
  {
    ResponsesAreFinal(w, steps, k);
  }

  // ------------------------------------------------------------ the service object

  /** What running a handler yields: a payload within its time limit, or an exception. */
  datatype HandlerOutcome = Returned(payload: string, withinTimeout: bool) | Threw(message: string)

  const ACTION_FAILED := "typed action failed verification"

  function ResponseOf(o: HandlerOutcome): Response {
    match o
    case Returned(payload, inTime) => if inTime then Succeeded(payload, false) else Failed(ACTION_FAILED, false)
    case Threw(_) => Failed(ACTION_FAILED, false)
  }

  datatype ActionError = KeyUsedDifferently | KeyIncomplete

  class OperationsService {
    var nonces: Nonces
    var claims: Claims
    var executions: seq<ActionKey>

    constructor ()
      ensures nonces == map[] && claims == map[] && executions == []
    {
      nonces, claims, executions := map[], map[], [];
    }

    method CheckAndStoreNonce(nonce: string, stamp: int, now: int) returns (ok: bool)
      modifies this`nonces
      ensures ok <==> nonce !in PruneNonces(old(nonces), now)
      ensures nonces == if ok then PruneNonces(old(nonces), now)[nonce := stamp] else PruneNonces(old(nonces), now)
    {
      var cutoff := now - MAX_CLOCK_SKEW;
      nonces := map n | n in nonces && !(nonces[n] < cutoff) :: nonces[n];
      assert nonces == PruneNonces(old(nonces), now);
      if nonce in nonces {
        return false;
      }
      nonces := nonces[nonce := stamp];
      ok := true;
    }

    method Authenticate(h: Headers, now: int) returns (r: Result<(), AuthError>)
      modifies this`nonces
      ensures r == AuthOutcome(old(nonces), h, now)
      ensures nonces == AuthEffect(old(nonces), h, now)
      ensures r.Ok? <==> IsSigned(h, now) && !HoldsRecently(old(nonces), h, now)
      ensures r == Err(ReplayedNonce) <==> IsSigned(h, now) && HoldsRecently(old(nonces), h, now)
      ensures r == Err(MissingHeaders) <==> h.actor.None? || h.nonce.None? || h.stampText.None? || h.signature.None?
      ensures !IsSigned(h, now) ==> nonces == old(nonces)
      ensures r.Ok? ==> h.nonce.value in nonces && nonces[h.nonce.value] == h.stamp.value
    {
      AuthenticationInFull(nonces, h, now);
      if h.actor.None? || h.nonce.None? || h.stampText.None? || h.signature.None? {
        return Err(MissingHeaders);
      }
      if h.stamp.None? {
        return Err(InvalidTimestamp);
      }
      if Abs(now - h.stamp.value) > MAX_CLOCK_SKEW {
        return Err(OutsideWindow);
      }
      if !h.signatureMatches {
        return Err(InvalidSignature);
      }
      var unused := CheckAndStoreNonce(h.nonce.value, h.stamp.value, now);
      r := if unused then Ok(()) else Err(ReplayedNonce);
    }

    method ClaimKey(k: ActionKey, hash: string) returns (o: ClaimOutcome)
      modifies this`claims
      ensures o == ClaimAnswer(old(claims), k, hash)
      ensures claims == ClaimEffect(old(claims), k, hash)
    {
      if k in claims {
        if claims[k].hash != hash {
          return ParametersDiffer;
        }
        if claims[k].response.None? {
          return Incomplete;
        }
        return Replay(AsReplay(claims[k].response.value));
      }
      claims := claims[k := Claim(hash, None)];
      o := Fresh;
    }

    method CompleteKey(k: ActionKey, hash: string, r: Response) returns (updated: bool)
      modifies this`claims
      ensures updated == CanComplete(old(claims), k, hash)
      ensures claims == CompleteEffect(old(claims), k, hash, r)
    {
      updated := k in claims && claims[k].hash == hash && claims[k].response.None?;
      if updated {
        claims := claims[k := Claim(hash, Some(r))];
      }
    }

    /** `handler` is what the typed handler would do if it were run now. */
    method RunTypedAction(k: ActionKey, hash: string, handler: HandlerOutcome) returns (r: Result<Response, ActionError>)
      modifies this`claims, this`executions
      ensures executions == old(executions) + (if k in old(claims) then [] else [k])
      ensures k !in old(claims) ==>
        r == Ok(ResponseOf(handler)) && claims == old(claims)[k := Claim(hash, Some(ResponseOf(handler)))]
      ensures k in old(claims) ==> claims == old(claims)
      ensures k in old(claims) ==>
        (r == if old(claims)[k].hash != hash then Err(KeyUsedDifferently)
              else if old(claims)[k].response.None? then Err(KeyIncomplete)
              else Ok(AsReplay(old(claims)[k].response.value)))
      ensures r.Ok? ==> (r.value.replay <==> k in old(claims))
      ensures k !in old(claims) ==> (r.value.Succeeded? <==> handler.Returned? && handler.withinTimeout)
      ensures k !in old(claims) && r.value.Succeeded? ==> r.value.payload == handler.payload
      ensures k in old(claims) && r.Ok? ==>
        var stored := old(claims)[k].response.value;
        match stored
        case Succeeded(payload, _) => r.value == Succeeded(payload, true)
        case Failed(error, _) => r.value == Failed(error, true)
    {
      var outcome := ClaimKey(k, hash);
      match outcome {
        case Replay(response) => return Ok(response);
        case ParametersDiffer => return Err(KeyUsedDifferently);
        case Incomplete => return Err(KeyIncomplete);
        case Fresh =>
      }
      executions := executions + [k];
      var response := ResponseOf(handler);
      var _ := CompleteKey(k, hash, response);
      r := Ok(response);
    }
  }
}
