/**
 The connector gateway: sign-ins by TOTP, authorization codes bound by PKCE, and
 rotating refresh tokens.

 Digests are ideal, so tokens stand for their digests. Each step reads the clock
 once. Random tokens are parameters that have never been seen before. Submissions
 of the sign-in page run in threads of their own: each looks its request up,
 verifies its code and is granted an authorization code in three separate steps.
 */
module Gateway {
  import opened TotpGuard
  import opened Wrappers

  // ------------------------------------------------------------ codes and tokens

  datatype Pending = Pending(clientId: string, redirectUri: string, challenge: string, state: Option<string>, exp: int)

  datatype CodeEntry = CodeEntry(clientId: string, redirectUri: string, challenge: string, exp: int)

  /** A submission on its way: what it looked up, and whether its code was accepted. */
  datatype Flight = Flight(pendingId: string, request: Pending, accepted: bool)

  datatype Session = Session(
    guard: Guard,
    pending: map<string, Pending>,
    codes: map<string, CodeEntry>,
    access: map<string, int>,
    refresh: map<string, int>,
    flights: map<nat, Flight>)

  const NEW_SESSION := Session(NEW_GUARD, map[], map[], map[], map[], map[])

  function LiveTokens(m: map<string, int>, now: int): map<string, int> {
    map t | t in m && m[t] > now :: m[t]
  }

  /** Writing the state file drops the tokens that have expired. */
  function Flushed(s: Session, now: int): Session {
    s.(access := LiveTokens(s.access, now), refresh := LiveTokens(s.refresh, now))
  }

  function Expired(s: Session, now: int): Session {
    s.(pending := map p | p in s.pending && s.pending[p].exp > now :: s.pending[p],
       codes := map c | c in s.codes && s.codes[c].exp > now :: s.codes[c])
  }

  datatype AuthorizeQuery = AuthorizeQuery(
    responseType: string,
    clientId: string,
    redirectUri: string,
    challengeMethod: string,
    challenge: string,
    resource: Option<string>,
    state: Option<string>)

  /** `redirect_uri` and `resource` as the request spells them, the resource without trailing slashes. */
  predicate Admissible(cfg: Config, q: AuthorizeQuery) {
    && q.responseType == "code"
    && q.clientId == cfg.clientId
    && q.redirectUri in cfg.redirectUris
    && q.challengeMethod == "S256" && |q.challenge| >= 43
    && (q.resource.Some? && q.resource.value != "" ==> TrimSlashes(q.resource.value) == cfg.resource)
  }

  function TrimSlashes(s: string): string {
    if s != [] && s[|s| - 1] == '/' then TrimSlashes(s[..|s| - 1]) else s
  }

  /** The parts of a resource before its trailing slashes. */
  ghost predicate IsTrimmed(s: string, t: string) {
    && t <= s
    && (forall i :: |t| <= i < |s| ==> s[i] == '/')
    && (t == [] || t[|t| - 1] != '/')
  }

  lemma {:induction false} TrimmingTrims(s: string)
    ensures IsTrimmed(s, TrimSlashes(s))
    ensures forall t :: IsTrimmed(s, t) ==> t == TrimSlashes(s)
  {
    if s != [] && s[|s| - 1] == '/' {
      TrimmingTrims(s[..|s| - 1]);
      forall t | IsTrimmed(s, t) ensures t == TrimSlashes(s) {
        assert |t| == |s| ==> t == s;
        assert IsTrimmed(s[..|s| - 1], t);
      }
    } else {
      forall t | IsTrimmed(s, t) ensures t == s {
        assert |t| == |s|;
      }
    }
  }

  /** A code request of this client, for a registered address, with a challenge, and for this resource if for any. */
  ghost predicate MeetsTheRules(cfg: Config, q: AuthorizeQuery) {
    && q.responseType == "code"
    && q.clientId == cfg.clientId
    && q.redirectUri in cfg.redirectUris
    && q.challengeMethod == "S256"
    && 43 <= |q.challenge|
    && (q.resource.None? || q.resource == Some("") || IsTrimmed(q.resource.value, cfg.resource))
  }

  lemma AdmissionRules(cfg: Config, q: AuthorizeQuery)
    ensures Admissible(cfg, q) <==> MeetsTheRules(cfg, q)
  {
    if q.resource.Some? {
      TrimmingTrims(q.resource.value);
    }
    hide IsTrimmed, TrimSlashes;
  }

  datatype Op =
    | Start(query: AuthorizeQuery, newId: string, now: int)
    | Lookup(attempt: nat, pendingId: string, now: int)
    | Verify(attempt: nat, input: string, now: int)
    | Grant(attempt: nat, newCode: string, now: int)
    | RedeemCode(code: string, redirectUri: string, clientId: string, verifier: string,
                 access: string, refresh: string, now: int)
    | RedeemRefresh(token: string, access: string, refresh: string, now: int)
    | RevokeAll(now: int)
    | Restart

  predicate CodeIsGood(cfg: Config, s: Session, op: Op)
    requires op.RedeemCode?
  {
    op.code in Expired(s, op.now).codes &&
    var e := s.codes[op.code];
    && e.redirectUri == op.redirectUri && e.clientId == op.clientId
    && op.verifier != "" && cfg.s256(op.verifier) == e.challenge
  }

  predicate RefreshIsGood(s: Session, op: Op)
    requires op.RedeemRefresh?
  {
    op.token in s.refresh && s.refresh[op.token] > op.now
  }

  function Issued(cfg: Config, s: Session, access: string, refresh: string, now: int): Session {
    var a, r := s.access[access := now + cfg.accessTtl], s.refresh[refresh := now + cfg.refreshTtl];
    Flushed(s.(access := a, refresh := r), now)
  }

  function Started(cfg: Config, s: Session, q: AuthorizeQuery, newId: string, now: int): Session {
    if !Admissible(cfg, q) then s
    else
      var t := Expired(s, now);
      t.(pending := t.pending[newId := PendingFor(cfg, q, now)])
  }

  function PendingFor(cfg: Config, q: AuthorizeQuery, now: int): Pending {
    Pending(q.clientId, q.redirectUri, q.challenge, q.state, now + cfg.pendingTtl)
  }

  function CodeFor(cfg: Config, p: Pending, now: int): CodeEntry {
    CodeEntry(p.clientId, p.redirectUri, p.challenge, now + cfg.codeTtl)
  }

  /** The lookup finds the request and opens a submission, under a number that no submission in flight has. */
  predicate Opens(s: Session, op: Op)
    ensures Opens(s, op) ==> op.Lookup?
  {
    op.Lookup? && op.attempt !in s.flights && op.pendingId in Expired(s, op.now).pending
  }

  /** The code of the submission is accepted. */
  predicate IsSignIn(cfg: Config, s: Session, op: Op)
    ensures IsSignIn(cfg, s, op) ==> op.Verify? && op.attempt in s.flights
  {
    op.Verify? && op.attempt in s.flights && !s.flights[op.attempt].accepted && Judge(cfg, s.guard, op.input, op.now).Accepted?
  }

  /** The submission, its code accepted, is granted an authorization code. */
  predicate IsGrant(s: Session, op: Op)
    ensures IsGrant(s, op) ==> op.Grant? && op.attempt in s.flights
  {
    op.Grant? && op.attempt in s.flights && s.flights[op.attempt].accepted
  }

  function LookedUp(s: Session, attempt: nat, pendingId: string, now: int): Session {
    var t := Expired(s, now);
    if attempt in t.flights || pendingId !in t.pending then t
    else t.(flights := t.flights[attempt := Flight(pendingId, t.pending[pendingId], false)])
  }

  function Verified(cfg: Config, s: Session, attempt: nat, input: string, now: int): Session {
    if attempt !in s.flights || s.flights[attempt].accepted then s
    else
      var v := Judge(cfg, s.guard, input, now);
      var t := if v.AlreadyLocked? then s else Flushed(s.(guard := Judged(cfg, s.guard, v, now)), now);
      if v.Accepted? then t.(flights := t.flights[attempt := t.flights[attempt].(accepted := true)])
      else t.(flights := t.flights - {attempt})
  }

  /** Popping the request a second time does nothing, and the code is granted all the same. */
  function Granted(cfg: Config, s: Session, attempt: nat, newCode: string, now: int): Session {
    if attempt !in s.flights || !s.flights[attempt].accepted then s
    else
      var f := s.flights[attempt];
      s.(pending := s.pending - {f.pendingId},
         codes := s.codes[newCode := CodeFor(cfg, f.request, now)],
         flights := s.flights - {attempt})
  }

  function Apply(cfg: Config, s: Session, op: Op): Session {
    match op
    case Start(q, newId, now) => Started(cfg, s, q, newId, now)
    case Lookup(attempt, pendingId, now) => LookedUp(s, attempt, pendingId, now)
    case Verify(attempt, input, now) => Verified(cfg, s, attempt, input, now)
    case Grant(attempt, newCode, now) => Granted(cfg, s, attempt, newCode, now)
    case RedeemCode(code, _, _, _, access, refresh, now) =>
      var t := Expired(s, now);
      var u := t.(codes := t.codes - {code});
      if CodeIsGood(cfg, s, op) then Issued(cfg, u, access, refresh, now) else u
    case RedeemRefresh(token, access, refresh, now) =>
      var t := Flushed(s.(refresh := s.refresh - {token}), now);
      if RefreshIsGood(s, op) then Issued(cfg, t, access, refresh, now) else t
    case RevokeAll(now) => Flushed(s.(access := map[], refresh := map[]), now)
    case Restart => s.(pending := map[], codes := map[], flights := map[])
  }

  function After(cfg: Config, ops: seq<Op>): Session {
    if ops == [] then NEW_SESSION else Apply(cfg, After(cfg, ops[..|ops| - 1]), ops[|ops| - 1])
  }

  // ------------------------------------------------------------ fresh tokens

  function NewTokens(op: Op): set<string> {
    match op
    case Start(_, newId, _) => {newId}
    case Lookup(_, _, _) => {}
    case Verify(_, _, _) => {}
    case Grant(_, newCode, _) => {newCode}
    case RedeemCode(_, _, _, _, access, refresh, _) => {access, refresh}
    case RedeemRefresh(_, access, refresh, _) => {access, refresh}
    case RevokeAll(_) => {}
    case Restart => {}
  }

  function SeenTokens(ops: seq<Op>): set<string> {
    if ops == [] then {} else SeenTokens(ops[..|ops| - 1]) + NewTokens(ops[|ops| - 1])
  }

  /** Every random token drawn in a run is new. */
  ghost predicate FreshRun(ops: seq<Op>) {
    ops == [] || (FreshRun(ops[..|ops| - 1]) && SeenTokens(ops[..|ops| - 1]) !! NewTokens(ops[|ops| - 1]))
  }

  lemma StepDrawsTokens(cfg: Config, s: Session, op: Op)
    ensures Apply(cfg, s, op).pending.Keys <= s.pending.Keys + NewTokens(op)
    ensures Apply(cfg, s, op).codes.Keys <= s.codes.Keys + NewTokens(op)
  {
    hide Judge, Judged, Admissible, CodeIsGood, RefreshIsGood;
  }

  lemma StepDrawsRefreshTokens(cfg: Config, s: Session, op: Op)
    ensures Apply(cfg, s, op).refresh.Keys <= s.refresh.Keys + NewTokens(op)
  {
    hide Judge, Judged, Admissible, CodeIsGood, RefreshIsGood;
  }

  lemma StepKeepsFlights(cfg: Config, s: Session, op: Op, a: nat)
    requires a in Apply(cfg, s, op).flights
    ensures (|| (a in s.flights && Apply(cfg, s, op).flights[a] == s.flights[a])
             || (Opens(s, op) && op.attempt == a && op.pendingId in s.pending && op.now < s.pending[op.pendingId].exp
                 && Apply(cfg, s, op).flights[a] == Flight(op.pendingId, s.pending[op.pendingId], false))
             || (IsSignIn(cfg, s, op) && op.attempt == a
                 && Apply(cfg, s, op).flights[a] == s.flights[a].(accepted := true)))
  {
    hide Judge, Judged, Admissible, CodeIsGood, RefreshIsGood;
  }

  lemma {:induction false} HeldTokensWereSeen(cfg: Config, ops: seq<Op>)
    ensures After(cfg, ops).pending.Keys <= SeenTokens(ops)
    ensures After(cfg, ops).codes.Keys <= SeenTokens(ops)
    ensures After(cfg, ops).refresh.Keys <= SeenTokens(ops)
    ensures forall a :: a in After(cfg, ops).flights ==> After(cfg, ops).flights[a].pendingId in SeenTokens(ops)
  {
    hide Apply, NewTokens, Opens, IsSignIn;
    if ops != [] {
      var n := |ops| - 1;
      HeldTokensWereSeen(cfg, ops[..n]);
      StepDrawsTokens(cfg, After(cfg, ops[..n]), ops[n]);
      StepDrawsRefreshTokens(cfg, After(cfg, ops[..n]), ops[n]);
      forall a | a in After(cfg, ops).flights {
        StepKeepsFlights(cfg, After(cfg, ops[..n]), ops[n], a);
      }
    }
  }

  // ------------------------------------------------------------ every code and refresh token is redeemed at most once

  /** How often a code was exchanged for tokens. */
  function CodeRedemptions(cfg: Config, ops: seq<Op>, code: string): nat {
    if ops == [] then 0
    else
      var n := |ops| - 1;
      CodeRedemptions(cfg, ops[..n], code) +
      (if ops[n].RedeemCode? && ops[n].code == code && CodeIsGood(cfg, After(cfg, ops[..n]), ops[n]) then 1 else 0)
  }

  function RefreshRedemptions(cfg: Config, ops: seq<Op>, token: string): nat {
    if ops == [] then 0
    else
      var n := |ops| - 1;
      RefreshRedemptions(cfg, ops[..n], token) +
      (if ops[n].RedeemRefresh? && ops[n].token == token && RefreshIsGood(After(cfg, ops[..n]), ops[n]) then 1 else 0)
  }

  lemma RedeemedCodeIsGone(cfg: Config, s: Session, op: Op)
    requires op.RedeemCode? && CodeIsGood(cfg, s, op)
    ensures op.code in s.codes && op.code !in Apply(cfg, s, op).codes
  {}

  lemma RedeemedRefreshIsGone(cfg: Config, s: Session, op: Op)
    requires op.RedeemRefresh? && RefreshIsGood(s, op)
    ensures op.token in s.refresh
    ensures op.refresh != op.token ==> op.token !in Apply(cfg, s, op).refresh
  {}

  /** An authorization code is redeemed at most once, and a redeemed code is gone for good. */
  lemma {:induction false} CodesAreSingleUse(cfg: Config, ops: seq<Op>, code: string)
    requires FreshRun(ops)
    ensures CodeRedemptions(cfg, ops, code) <= 1
    ensures CodeRedemptions(cfg, ops, code) == 1 ==> code in SeenTokens(ops) && code !in After(cfg, ops).codes
  {
    hide Apply, CodeIsGood;
    if ops != [] {
      var n := |ops| - 1;
      var before := After(cfg, ops[..n]);
      CodesAreSingleUse(cfg, ops[..n], code);
      HeldTokensWereSeen(cfg, ops[..n]);
      StepDrawsTokens(cfg, before, ops[n]);
      if ops[n].RedeemCode? && ops[n].code == code && CodeIsGood(cfg, before, ops[n]) {
        RedeemedCodeIsGone(cfg, before, ops[n]);
      }
    }
  }

  /** A refresh token is redeemed at most once: each redemption rotates it. */
  lemma {:induction false} RefreshTokensAreSingleUse(cfg: Config, ops: seq<Op>, token: string)
    requires FreshRun(ops)
    ensures RefreshRedemptions(cfg, ops, token) <= 1
    ensures RefreshRedemptions(cfg, ops, token) == 1 ==> token in SeenTokens(ops) && token !in After(cfg, ops).refresh
  {
    hide Apply, RefreshIsGood;
    if ops != [] {
      var n := |ops| - 1;
      var before := After(cfg, ops[..n]);
      RefreshTokensAreSingleUse(cfg, ops[..n], token);
      HeldTokensWereSeen(cfg, ops[..n]);
      StepDrawsRefreshTokens(cfg, before, ops[n]);
      if ops[n].RedeemRefresh? && ops[n].token == token && RefreshIsGood(before, ops[n]) {
        RedeemedRefreshIsGone(cfg, before, ops[n]);
      }
    }
  }

  // ------------------------------------------------------------ one request, several submissions

  predicate GrantsTo(s: Session, op: Op, id: string) {
    IsGrant(s, op) && s.flights[op.attempt].pendingId == id
  }

  predicate SignsInTo(cfg: Config, s: Session, op: Op, id: string) {
    IsSignIn(cfg, s, op) && s.flights[op.attempt].pendingId == id
  }

  /** How many authorization codes came out of one request. */
  function GrantsOf(cfg: Config, ops: seq<Op>, id: string): nat {
    if ops == [] then 0
    else
      var n := |ops| - 1;
      GrantsOf(cfg, ops[..n], id) + (if GrantsTo(After(cfg, ops[..n]), ops[n], id) then 1 else 0)
  }

  /** How many TOTP codes were accepted for one request. */
  function SignInsOf(cfg: Config, ops: seq<Op>, id: string): nat {
    if ops == [] then 0
    else
      var n := |ops| - 1;
      SignInsOf(cfg, ops[..n], id) + (if SignsInTo(cfg, After(cfg, ops[..n]), ops[n], id) then 1 else 0)
  }

  /** The submissions of a request whose code was accepted and that wait for their grant. */
  function Waiting(s: Session, id: string): set<nat> {
    set a | a in s.flights && s.flights[a].accepted && s.flights[a].pendingId == id
  }

  lemma GrantEndsTheFlight(cfg: Config, s: Session, op: Op)
    requires IsGrant(s, op)
    ensures Apply(cfg, s, op).flights == s.flights - {op.attempt}
  {}

  lemma AcceptedStays(cfg: Config, s: Session, op: Op, a: nat)
    requires a in s.flights && s.flights[a].accepted && !op.Restart? && !(IsGrant(s, op) && op.attempt == a)
    ensures a in Apply(cfg, s, op).flights && Apply(cfg, s, op).flights[a] == s.flights[a]
  {
    hide Judge, Judged, Admissible, CodeIsGood, RefreshIsGood;
  }

  lemma SignInIsAccepted(cfg: Config, s: Session, op: Op)
    requires IsSignIn(cfg, s, op)
    ensures Apply(cfg, s, op).flights == s.flights[op.attempt := s.flights[op.attempt].(accepted := true)]
  {
    hide Judge, Judged;
  }

  /** How many waiting submissions of a request an operation drops: a restart loses them. */
  function LostBy(s: Session, op: Op, id: string): nat {
    if op.Restart? then |Waiting(s, id)| else 0
  }

  /** A submission joins the waiting ones when its code is accepted, and leaves them with its grant or a restart. */
  lemma WaitingAfter(cfg: Config, s: Session, op: Op, id: string)
    ensures Waiting(Apply(cfg, s, op), id) ==
              if op.Restart? then {}
              else if GrantsTo(s, op, id) then Waiting(s, id) - {op.attempt}
              else if SignsInTo(cfg, s, op, id) then Waiting(s, id) + {op.attempt}
              else Waiting(s, id)
  {
    var before, after := Waiting(s, id), Waiting(Apply(cfg, s, op), id);
    if op.Restart? {
      assert after == {};
    } else {
      hide Apply, Judge;
      if IsGrant(s, op) {
        GrantEndsTheFlight(cfg, s, op);
      }
      if IsSignIn(cfg, s, op) {
        SignInIsAccepted(cfg, s, op);
      }
      forall a | a in after
        ensures a in before || (SignsInTo(cfg, s, op, id) && a == op.attempt)
      {
        StepKeepsFlights(cfg, s, op, a);
      }
      forall a | a in before && !(IsGrant(s, op) && op.attempt == a)
        ensures a in after
      {
        AcceptedStays(cfg, s, op, a);
      }
    }
  }

  lemma StepConservesGrants(cfg: Config, s: Session, op: Op, id: string)
    ensures (if GrantsTo(s, op, id) then 1 else 0) + |Waiting(Apply(cfg, s, op), id)| + LostBy(s, op, id)
              == (if SignsInTo(cfg, s, op, id) then 1 else 0) + |Waiting(s, id)|
  {
    hide Apply, Judge;
    WaitingAfter(cfg, s, op, id);
    assert GrantsTo(s, op, id) ==> op.attempt in Waiting(s, id) && !op.Restart?;
    assert SignsInTo(cfg, s, op, id) ==> op.attempt !in Waiting(s, id) && !op.Restart? && !GrantsTo(s, op, id);
    hide Waiting, GrantsTo, SignsInTo;
  }

  lemma SmallerSet<T>(a: set<T>, b: set<T>)
    requires a <= b
    ensures |a| <= |b|
  {
    assert b == a + (b - a);
  }

  /** How many submissions of a request lost their grant to a restart. */
  function Lost(cfg: Config, ops: seq<Op>, id: string): nat {
    if ops == [] then 0
    else
      var n := |ops| - 1;
      Lost(cfg, ops[..n], id) + LostBy(After(cfg, ops[..n]), ops[n], id)
  }

  /** Every TOTP code accepted for a request has become an authorization code, waits for it, or was lost in a restart. */
  lemma {:induction false} EveryGrantCostsACode(cfg: Config, ops: seq<Op>, id: string)
    ensures GrantsOf(cfg, ops, id) + |Waiting(After(cfg, ops), id)| + Lost(cfg, ops, id) == SignInsOf(cfg, ops, id)
  {
    hide Apply, GrantsTo, SignsInTo, Waiting, LostBy;
    if ops == [] {
      assert Waiting(NEW_SESSION, id) == {} by { NothingWaits(id); }
    } else {
      var n := |ops| - 1;
      EveryGrantCostsACode(cfg, ops[..n], id);
      StepConservesGrants(cfg, After(cfg, ops[..n]), ops[n], id);
    }
  }

  lemma NothingWaits(id: string)
    ensures Waiting(NEW_SESSION, id) == {}
  {}

  /** A submission in flight was opened by a lookup of its request, and has been in flight ever since. */
  lemma {:induction false} FlightWasLookedUp(cfg: Config, ops: seq<Op>, a: nat) returns (l: nat)
    requires a in After(cfg, ops).flights
    ensures l < |ops| && Opens(After(cfg, ops[..l]), ops[l]) && ops[l].attempt == a
    ensures var f, p := After(cfg, ops).flights[a], After(cfg, ops[..l]).pending;
            f.pendingId == ops[l].pendingId && f.pendingId in p && p[f.pendingId] == f.request && ops[l].now < f.request.exp
    ensures forall x :: l < x <= |ops| ==>
              a in After(cfg, ops[..x]).flights && After(cfg, ops[..x]).flights[a].pendingId == ops[l].pendingId
  {
    hide Apply, Opens, IsSignIn;
    var n := |ops| - 1;
    var before := After(cfg, ops[..n]);
    assert ops[..|ops|] == ops;
    StepKeepsFlights(cfg, before, ops[n], a);
    if a in before.flights && After(cfg, ops).flights[a].pendingId == before.flights[a].pendingId
       && After(cfg, ops).flights[a].request == before.flights[a].request
    {
      l := FlightWasLookedUp(cfg, ops[..n], a);
      assert forall x :: l <= x <= n ==> ops[..n][..x] == ops[..x];
    } else {
      l := n;
    }
  }

  lemma StepTakesRequests(cfg: Config, s: Session, op: Op, id: string)
    ensures id !in s.pending && id !in NewTokens(op) ==> id !in Apply(cfg, s, op).pending
    ensures GrantsTo(s, op, id) ==> id !in Apply(cfg, s, op).pending
  {
    hide Judge, Judged, Admissible, CodeIsGood, RefreshIsGood;
  }

  lemma {:induction false} FreshPrefix(ops: seq<Op>, n: nat)
    requires FreshRun(ops) && n <= |ops|
    ensures FreshRun(ops[..n]) && SeenTokens(ops[..n]) <= SeenTokens(ops)
    ensures n < |ops| ==> SeenTokens(ops[..n]) !! NewTokens(ops[n])
  {
    if n == |ops| {
      assert ops[..n] == ops;
    } else {
      assert ops[..|ops| - 1][..n] == ops[..n];
      FreshPrefix(ops[..|ops| - 1], n);
    }
  }

  /** After its first code a request is gone for good: it can no longer be looked up. */
  lemma {:induction false} GrantedRequestIsGone(cfg: Config, ops: seq<Op>, id: string, m: nat, x: nat)
    requires FreshRun(ops) && m < x <= |ops| && GrantsTo(After(cfg, ops[..m]), ops[m], id)
    ensures id !in After(cfg, ops[..x]).pending && id in SeenTokens(ops[..x])
    decreases x
  {
    hide Apply, GrantsTo, NewTokens;
    assert ops[..x][..x - 1] == ops[..x - 1] && ops[..x][x - 1] == ops[x - 1];
    FreshPrefix(ops, x - 1);
    StepTakesRequests(cfg, After(cfg, ops[..x - 1]), ops[x - 1], id);
    if x == m + 1 {
      GrantedRequestWasSeen(cfg, ops[..m], ops[m], id);
    } else {
      GrantedRequestIsGone(cfg, ops, id, m, x - 1);
    }
  }

  lemma GrantedRequestWasSeen(cfg: Config, ops: seq<Op>, op: Op, id: string)
    requires GrantsTo(After(cfg, ops), op, id)
    ensures id in SeenTokens(ops)
  {
    HeldTokensWereSeen(cfg, ops);
    hide After, SeenTokens;
  }

  /** An accepted submission in flight had its code accepted at some step, and has waited ever since. */
  lemma {:induction false} FlightWasVerified(cfg: Config, ops: seq<Op>, a: nat) returns (j: nat)
    requires a in After(cfg, ops).flights && After(cfg, ops).flights[a].accepted
    ensures j < |ops| && IsSignIn(cfg, After(cfg, ops[..j]), ops[j]) && ops[j].attempt == a
    ensures After(cfg, ops).flights[a] == After(cfg, ops[..j]).flights[a].(accepted := true)
    ensures forall x :: j < x <= |ops| ==> a in After(cfg, ops[..x]).flights
  {
    hide Apply, Opens, IsSignIn;
    j := |ops| - 1;
    var n := j;
    var before := After(cfg, ops[..n]);
    assert ops[..|ops|] == ops;
    StepKeepsFlights(cfg, before, ops[n], a);
    if a in before.flights && After(cfg, ops).flights[a] == before.flights[a] {
      j := FlightWasVerified(cfg, ops[..n], a);
      assert forall x :: j <= x <= n ==> ops[..n][..x] == ops[..x];
    }
  }

  /** The lookup at step l opens a submission of the request, and its code is accepted at step j. */
  ghost predicate IsSubmission(cfg: Config, ops: seq<Op>, id: string, l: nat, j: nat) {
    && l < j < |ops|
    && Opens(After(cfg, ops[..l]), ops[l]) && ops[l].pendingId == id
    && IsSignIn(cfg, After(cfg, ops[..j]), ops[j]) && ops[j].attempt == ops[l].attempt
    && InFlight(cfg, ops, ops[l].attempt, l, j)
  }

  /** The submission opened at step l is in flight up to step x. */
  ghost predicate InFlight(cfg: Config, ops: seq<Op>, a: nat, l: nat, x: nat) {
    forall y :: l < y <= x && y <= |ops| ==> a in After(cfg, ops[..y]).flights
  }

  /** Of two submissions of the request whose codes are accepted, the second is looked up while the first is in flight. */
  ghost predicate Overlap(cfg: Config, ops: seq<Op>, id: string, l: nat, j: nat, m: nat, k: nat) {
    && IsSubmission(cfg, ops, id, l, j) && IsSubmission(cfg, ops, id, m, k)
    && l < m && InFlight(cfg, ops, ops[l].attempt, l, m)
  }

  lemma {:induction false} SomeGrant(cfg: Config, ops: seq<Op>, id: string) returns (m: nat)
    requires GrantsOf(cfg, ops, id) >= 1
    ensures m < |ops| && GrantsTo(After(cfg, ops[..m]), ops[m], id)
    ensures GrantsOf(cfg, ops, id) <= 1 + GrantsOf(cfg, ops[..m], id)
  {
    hide GrantsTo, After;
    m := |ops| - 1;
    if !GrantsTo(After(cfg, ops[..m]), ops[m], id) {
      var n := m;
      m := SomeGrant(cfg, ops[..n], id);
      assert ops[..n][..m] == ops[..m];
    }
  }

  lemma {:induction false} SignInsAddUp(cfg: Config, ops: seq<Op>, id: string, m: nat)
    requires m < |ops|
    ensures SignInsOf(cfg, ops, id) >= SignInsOf(cfg, ops[..m], id) + (if SignsInTo(cfg, After(cfg, ops[..m]), ops[m], id) then 1 else 0)
    decreases |ops|
  {
    hide SignsInTo, After;
    var n := |ops| - 1;
    if m < n {
      assert ops[..n][..m] == ops[..m];
      SignInsAddUp(cfg, ops[..n], id, m);
    }
  }

  /** What was granted a code is a submission that was looked up and accepted. */
  lemma GrantedSubmission(cfg: Config, ops: seq<Op>, id: string, k: nat) returns (l: nat, j: nat)
    requires k < |ops| && GrantsTo(After(cfg, ops[..k]), ops[k], id)
    ensures l < j < k && IsSubmission(cfg, ops, id, l, j) && ops[l].attempt == ops[k].attempt
    ensures InFlight(cfg, ops, ops[l].attempt, l, k)
  {
    hide Apply, After, IsSignIn;
    var a := ops[k].attempt;
    j := FlightWasVerified(cfg, ops[..k], a);
    l := FlightWasLookedUp(cfg, ops[..k], a);
    assert forall x :: 0 <= x <= k ==> ops[..k][..x] == ops[..x];
    assert ops[..k][l] == ops[l] && ops[..k][j] == ops[j];
    if j < l {
      assert false;
    }
    assert IsSignIn(cfg, After(cfg, ops[..j]), ops[j]) ==> ops[j].Verify?;
  }

  /** A submission belongs to the request it looked up for as long as it is in flight. */
  lemma FlightIsOfItsRequest(cfg: Config, ops: seq<Op>, id: string, l: nat, x: nat)
    requires l < x <= |ops| && Opens(After(cfg, ops[..l]), ops[l]) && ops[l].pendingId == id
    requires InFlight(cfg, ops, ops[l].attempt, l, x)
    ensures ops[l].attempt in After(cfg, ops[..x]).flights && After(cfg, ops[..x]).flights[ops[l].attempt].pendingId == id
  {
    hide Apply, After;
    var a := ops[l].attempt;
    var r := FlightWasLookedUp(cfg, ops[..x], a);
    assert forall y :: 0 <= y <= x ==> ops[..x][..y] == ops[..y];
    assert ops[..x][r] == ops[r];
    if r < l {
      assert false;
    } else if l < r {
      assert false;
    }
  }

  lemma LookupBeforeGrant(cfg: Config, ops: seq<Op>, id: string, m: nat, l: nat)
    requires FreshRun(ops) && m < |ops| && GrantsTo(After(cfg, ops[..m]), ops[m], id)
    requires l < |ops| && Opens(After(cfg, ops[..l]), ops[l]) && ops[l].pendingId == id
    ensures l < m
  {
    if m < l {
      GrantedRequestIsGone(cfg, ops, id, m, l);
    }
    hide After, FreshRun;
  }

  /** Two codes for one request come from two overlapping submissions. */
  lemma TwoGrantsOverlap(cfg: Config, ops: seq<Op>, id: string)
    requires FreshRun(ops) && GrantsOf(cfg, ops, id) >= 2
    ensures exists l: nat, j: nat, m: nat, k: nat :: Overlap(cfg, ops, id, l, j, m, k)
  {
    var y := SomeGrant(cfg, ops, id);
    var x := SomeGrant(cfg, ops[..y], id);
    assert ops[..y][..x] == ops[..x];
    hide After, FreshRun, Apply, GrantsOf, IsSubmission, InFlight;
    var l, j := GrantedSubmission(cfg, ops, id, x);
    var m, k := GrantedSubmission(cfg, ops, id, y);
    SubmissionsOverlap(cfg, ops, id, x, l, j, y, m, k);
  }

  lemma SubmissionsOverlap(cfg: Config, ops: seq<Op>, id: string, x: nat, l: nat, j: nat, y: nat, m: nat, k: nat)
    requires FreshRun(ops) && x < y < |ops|
    requires GrantsTo(After(cfg, ops[..x]), ops[x], id) && GrantsTo(After(cfg, ops[..y]), ops[y], id)
    requires l < x && IsSubmission(cfg, ops, id, l, j) && InFlight(cfg, ops, ops[l].attempt, l, x) && ops[l].attempt == ops[x].attempt
    requires m < y && IsSubmission(cfg, ops, id, m, k) && InFlight(cfg, ops, ops[m].attempt, m, y) && ops[m].attempt == ops[y].attempt
    ensures Overlap(cfg, ops, id, l, j, m, k) || Overlap(cfg, ops, id, m, k, l, j)
  {
    LookupBeforeGrant(cfg, ops, id, x, m);
    AfterOneMore(cfg, ops, x);
    GrantEndsTheFlight(cfg, After(cfg, ops[..x]), ops[x]);
    hide After, FreshRun, Apply, GrantsTo, Opens, IsSignIn;
    assert ops[m].attempt in After(cfg, ops[..x + 1]).flights;
    assert l != m;
  }

  /** Overlapping submissions mean two accepted TOTP codes. */
  lemma OverlapsSignInTwice(cfg: Config, ops: seq<Op>, id: string, l: nat, j: nat, m: nat, k: nat)
    requires Overlap(cfg, ops, id, l, j, m, k)
    ensures SignInsOf(cfg, ops, id) >= 2
  {
    FlightIsOfItsRequest(cfg, ops, id, l, j);
    FlightIsOfItsRequest(cfg, ops, id, m, k);
    assert j != k by {
      assert ops[l].attempt in After(cfg, ops[..m]).flights;
      hide After;
    }
    var first, second := if j < k then j else k, if j < k then k else j;
    assert ops[..second][..first] == ops[..first];
    hide After, IsSubmission, InFlight;
    SignInsAddUp(cfg, ops, id, second);
    SignInsAddUp(cfg, ops[..second], id, first);
  }

  /**
   Two codes come out of one request only if two of its submissions overlap and both their TOTP codes are
   accepted; and if no accepted submission still waits or was lost to a restart, exactly then.
   */
  lemma RequestsYieldOneCodeUnlessOverlapped(cfg: Config, ops: seq<Op>, id: string)
    requires FreshRun(ops)
    ensures GrantsOf(cfg, ops, id) <= 1 || exists l: nat, j: nat, m: nat, k: nat :: Overlap(cfg, ops, id, l, j, m, k)
    ensures Waiting(After(cfg, ops), id) == {} && Lost(cfg, ops, id) == 0 ==>
              (GrantsOf(cfg, ops, id) <= 1 <==> !exists l: nat, j: nat, m: nat, k: nat :: Overlap(cfg, ops, id, l, j, m, k))
  {
    hide After, FreshRun, GrantsOf, SignInsOf, Overlap, Lost, Waiting;
    if GrantsOf(cfg, ops, id) >= 2 {
      TwoGrantsOverlap(cfg, ops, id);
    }
    EveryGrantCostsACode(cfg, ops, id);
    forall l: nat, j: nat, m: nat, k: nat | Overlap(cfg, ops, id, l, j, m, k)
      ensures SignInsOf(cfg, ops, id) >= 2
    {
      OverlapsSignInTwice(cfg, ops, id, l, j, m, k);
    }
  }

  /** No lookup of the request succeeds while another submission of it is in flight. */
  ghost predicate OneAtATime(cfg: Config, ops: seq<Op>, id: string) {
    forall l: nat, a: nat | l < |ops| && Opens(After(cfg, ops[..l]), ops[l]) && ops[l].pendingId == id ::
      a in After(cfg, ops[..l]).flights ==> After(cfg, ops[..l]).flights[a].pendingId != id
  }

  /** Submissions of a request that do not overlap yield at most one code. */
  lemma RequestsAreSingleUse(cfg: Config, ops: seq<Op>, id: string)
    requires FreshRun(ops) && OneAtATime(cfg, ops, id)
    ensures GrantsOf(cfg, ops, id) <= 1
  {
    if GrantsOf(cfg, ops, id) >= 2 {
      TwoGrantsOverlap(cfg, ops, id);
      hide After, FreshRun, GrantsOf;
      var l, j, m, k :| Overlap(cfg, ops, id, l, j, m, k);
      FlightIsOfItsRequest(cfg, ops, id, l, m);
      assert false;
    }
  }

  lemma AfterOneMore(cfg: Config, ops: seq<Op>, m: nat)
    requires m < |ops|
    ensures After(cfg, ops[..m + 1]) == Apply(cfg, After(cfg, ops[..m]), ops[m])
  {
    assert ops[..m + 1][..m] == ops[..m];
    hide Apply;
  }

  lemma OneMoreStep(cfg: Config, ops: seq<Op>, op: Op, id: string)
    ensures After(cfg, ops + [op]) == Apply(cfg, After(cfg, ops), op)
    ensures GrantsOf(cfg, ops + [op], id) == GrantsOf(cfg, ops, id) + (if GrantsTo(After(cfg, ops), op, id) then 1 else 0)
  {
    assert (ops + [op])[..|ops|] == ops;
    hide Apply, GrantsTo;
  }

  /** The codes of the current counter and of the next one are accepted one after the other. */
  lemma TwoCodesAreAccepted(cfg: Config, now: int)
    requires now >= 0 && IsCode(cfg.totp(now / 30)) && IsCode(cfg.totp(now / 30 + 1))
    ensures var v := Judge(cfg, NEW_GUARD, cfg.totp(now / 30), now);
            v.Accepted? && Judge(cfg, Judged(cfg, NEW_GUARD, v, now), cfg.totp(now / 30 + 1), now).Accepted?
  {}

  predicate IsCode(s: string) {
    |s| == 6 && Digits(s) == s
  }

  lemma LookupOpens(cfg: Config, s: Session, a: nat, id: string, now: int)
    requires a !in s.flights && id in s.pending && s.pending[id].exp > now
    ensures var t := Apply(cfg, s, Lookup(a, id, now));
            && t.guard == s.guard && id in t.pending && t.pending[id] == s.pending[id]
            && t.flights == s.flights[a := Flight(id, s.pending[id], false)]
  {}

  lemma VerifyAccepts(cfg: Config, s: Session, a: nat, input: string, now: int)
    requires a in s.flights && !s.flights[a].accepted && Judge(cfg, s.guard, input, now).Accepted?
    ensures var t := Apply(cfg, s, Verify(a, input, now));
            && t.guard == Judged(cfg, s.guard, Judge(cfg, s.guard, input, now), now)
            && t.flights == s.flights[a := s.flights[a].(accepted := true)]
  {
    hide Judge, Judged;
  }

  /** Both submissions are granted a code, when both looked the request up first. */
  lemma BothAreGranted(cfg: Config, s: Session, id: string, input: string, input': string, f: Op, now: int)
    requires s.guard == NEW_GUARD && s.flights == map[] && id in s.pending && s.pending[id].exp > now
    requires var v := Judge(cfg, NEW_GUARD, input, now);
             v.Accepted? && Judge(cfg, Judged(cfg, NEW_GUARD, v, now), input', now).Accepted?
    requires f.Grant? && f.attempt == 1
    ensures var t := Apply(cfg, Apply(cfg, s, Lookup(1, id, now)), Lookup(2, id, now));
            var u := Apply(cfg, Apply(cfg, t, Verify(1, input, now)), Verify(2, input', now));
            && GrantsTo(u, f, id)
            && forall g: Op :: g.Grant? && g.attempt == 2 ==> GrantsTo(Apply(cfg, u, f), g, id)
  {
    hide Apply, Judge, Judged;
    LookupOpens(cfg, s, 1, id, now);
    var s1 := Apply(cfg, s, Lookup(1, id, now));
    LookupOpens(cfg, s1, 2, id, now);
    var s2 := Apply(cfg, s1, Lookup(2, id, now));
    VerifyAccepts(cfg, s2, 1, input, now);
    var s3 := Apply(cfg, s2, Verify(1, input, now));
    VerifyAccepts(cfg, s3, 2, input', now);
    GrantEndsTheFlight(cfg, Apply(cfg, s3, Verify(2, input', now)), f);
  }

  lemma SevenSteps(cfg: Config, a: Op, b: Op, c: Op, d: Op, e: Op, f: Op, g: Op, id: string)
    requires !a.Grant? && !b.Grant? && !c.Grant? && !d.Grant? && !e.Grant?
    ensures var s := Apply(cfg, Apply(cfg, Apply(cfg, NEW_SESSION, a), b), c);
            var t := Apply(cfg, Apply(cfg, s, d), e);
            GrantsOf(cfg, [a, b, c, d, e, f, g], id) ==
              (if GrantsTo(t, f, id) then 1 else 0) + (if GrantsTo(Apply(cfg, t, f), g, id) then 1 else 0)
  {
    assert After(cfg, []) == NEW_SESSION && GrantsOf(cfg, [], id) == 0;
    hide Apply, GrantsOf, After;
    InARow(a, b, c, d, e, f, g);
    var two := [] + [a] + [b];
    OneMoreStep(cfg, [], a, id);
    OneMoreStep(cfg, [] + [a], b, id);
    OneMoreStep(cfg, two, c, id);
    OneMoreStep(cfg, two + [c], d, id);
    OneMoreStep(cfg, two + [c] + [d], e, id);
    OneMoreStep(cfg, two + [c] + [d] + [e], f, id);
    OneMoreStep(cfg, two + [c] + [d] + [e] + [f], g, id);
  }

  lemma InARow<T>(a: T, b: T, c: T, d: T, e: T, f: T, g: T)
    ensures [] + [a] + [b] + [c] + [d] + [e] + [f] + [g] == [a, b, c, d, e, f, g]
  {}

  /**
   Two submissions of one request that both look it up before either is granted, with the codes of the
   current counter and of the next one, end in two authorization codes.
   */
  lemma OverlappingSubmissionsGetTwoCodes(cfg: Config, q: AuthorizeQuery, id: string, code: string, code': string, now: int)
    requires Admissible(cfg, q) && cfg.pendingTtl > 0
    requires now >= 0 && IsCode(cfg.totp(now / 30)) && IsCode(cfg.totp(now / 30 + 1))
    ensures GrantsOf(cfg, [Start(q, id, now), Lookup(1, id, now), Lookup(2, id, now),
                           Verify(1, cfg.totp(now / 30), now), Verify(2, cfg.totp(now / 30 + 1), now),
                           Grant(1, code, now), Grant(2, code', now)], id) == 2
  {
    TwoCodesAreAccepted(cfg, now);
    var a, d, e, f := Start(q, id, now), Verify(1, cfg.totp(now / 30), now), Verify(2, cfg.totp(now / 30 + 1), now), Grant(1, code, now);
    BothAreGranted(cfg, Apply(cfg, NEW_SESSION, a), id, d.input, e.input, f, now);
    hide *;
    SevenSteps(cfg, a, Lookup(1, id, now), Lookup(2, id, now), d, e, f, Grant(2, code', now), id);
  }

  // ------------------------------------------------------------ where a bearer token comes from

  /** The operation exchanges a code or a refresh token for this access token. */
  predicate Issues(cfg: Config, s: Session, op: Op, token: string) {
    || (op.RedeemCode? && CodeIsGood(cfg, s, op) && op.access == token)
    || (op.RedeemRefresh? && RefreshIsGood(s, op) && op.access == token)
  }

  lemma StepMakesAccess(cfg: Config, s: Session, op: Op, token: string)
    requires token in Apply(cfg, s, op).access
    ensures (|| (token in s.access && Apply(cfg, s, op).access[token] == s.access[token] && !op.RevokeAll?)
             || (Issues(cfg, s, op, token) && Apply(cfg, s, op).access[token] == op.now + cfg.accessTtl))
  {
    hide Judge, Judged, Admissible, CodeIsGood, RefreshIsGood;
  }

  /** A bearer token that is still valid was issued by a redemption within its lifetime, and nothing was revoked since. */
  lemma {:induction false} BearersWereIssued(cfg: Config, ops: seq<Op>, token: string) returns (i: nat)
    requires token in After(cfg, ops).access
    ensures i < |ops| && Issues(cfg, After(cfg, ops[..i]), ops[i], token)
    ensures ops[i].RedeemCode? || ops[i].RedeemRefresh?
    ensures After(cfg, ops).access[token] == ops[i].now + cfg.accessTtl
    ensures forall k :: i < k < |ops| ==> !ops[k].RevokeAll?
  {
    hide Apply, CodeIsGood, RefreshIsGood;
    var n := |ops| - 1;
    i := n;
    var before := After(cfg, ops[..n]);
    StepMakesAccess(cfg, before, ops[n], token);
    if token in before.access && After(cfg, ops).access[token] == before.access[token] && !ops[n].RevokeAll? {
      i := BearersWereIssued(cfg, ops[..n], token);
      assert ops[..n][..i] == ops[..i];
    }
  }

  /** The operation exchanges a code or a refresh token for this refresh token. */
  predicate Renews(cfg: Config, s: Session, op: Op, token: string) {
    || (op.RedeemCode? && CodeIsGood(cfg, s, op) && op.refresh == token)
    || (op.RedeemRefresh? && RefreshIsGood(s, op) && op.refresh == token)
  }

  lemma StepMakesRefresh(cfg: Config, s: Session, op: Op, token: string)
    requires token in Apply(cfg, s, op).refresh
    ensures (|| (token in s.refresh && Apply(cfg, s, op).refresh[token] == s.refresh[token] && !op.RevokeAll?)
             || (Renews(cfg, s, op, token) && Apply(cfg, s, op).refresh[token] == op.now + cfg.refreshTtl))
  {
    hide Judge, Judged, Admissible, CodeIsGood, RefreshIsGood;
  }

  /** A refresh token on file was issued by a redemption, for its lifetime from then, and nothing was revoked since. */
  lemma {:induction false} RefreshTokensWereIssued(cfg: Config, ops: seq<Op>, token: string) returns (i: nat)
    requires token in After(cfg, ops).refresh
    ensures i < |ops| && Renews(cfg, After(cfg, ops[..i]), ops[i], token)
    ensures ops[i].RedeemCode? || ops[i].RedeemRefresh?
    ensures After(cfg, ops).refresh[token] == ops[i].now + cfg.refreshTtl
    ensures forall k :: i < k < |ops| ==> !ops[k].RevokeAll?
  {
    hide Apply, CodeIsGood, RefreshIsGood;
    var n := |ops| - 1;
    i := n;
    var before := After(cfg, ops[..n]);
    StepMakesRefresh(cfg, before, ops[n], token);
    if token in before.refresh && After(cfg, ops).refresh[token] == before.refresh[token] && !ops[n].RevokeAll? {
      i := RefreshTokensWereIssued(cfg, ops[..n], token);
      assert ops[..n][..i] == ops[..i];
    }
  }

  /** What may be exchanged for tokens, and when. */
  lemma RedemptionsInFull(cfg: Config, s: Session, op: Op)
    ensures op.RedeemCode? ==>
      (CodeIsGood(cfg, s, op) <==>
        && op.code in s.codes && op.now < s.codes[op.code].exp
        && op.redirectUri == s.codes[op.code].redirectUri && op.clientId == s.codes[op.code].clientId
        && op.verifier != "" && cfg.s256(op.verifier) == s.codes[op.code].challenge)
    ensures op.RedeemRefresh? ==> (RefreshIsGood(s, op) <==> op.token in s.refresh && op.now < s.refresh[op.token])
  {}

  // ------------------------------------------------------------ where a code comes from

  lemma StepMakesPending(cfg: Config, s: Session, op: Op, id: string)
    requires id in Apply(cfg, s, op).pending
    ensures (|| (id in s.pending && Apply(cfg, s, op).pending[id] == s.pending[id])
             || (op.Start? && Admissible(cfg, op.query) && op.newId == id
                 && Apply(cfg, s, op).pending[id] == PendingFor(cfg, op.query, op.now)))
  {
    hide Judge, Judged, Admissible, CodeIsGood, RefreshIsGood;
  }

  lemma StepMakesCode(cfg: Config, s: Session, op: Op, code: string)
    requires code in Apply(cfg, s, op).codes
    ensures (|| (code in s.codes && Apply(cfg, s, op).codes[code] == s.codes[code])
             || (IsGrant(s, op) && op.newCode == code
                 && Apply(cfg, s, op).codes[code] == CodeFor(cfg, s.flights[op.attempt].request, op.now)))
  {
    hide Judge, Judged, Admissible, CodeIsGood, RefreshIsGood;
  }

  lemma {:induction false} PendingWasStarted(cfg: Config, ops: seq<Op>, id: string) returns (i: nat)
    requires id in After(cfg, ops).pending
    ensures i < |ops| && ops[i].Start? && Admissible(cfg, ops[i].query) && ops[i].newId == id
    ensures After(cfg, ops).pending[id] == PendingFor(cfg, ops[i].query, ops[i].now)
  {
    hide Apply, Admissible;
    i := |ops| - 1;
    var before := After(cfg, ops[..i]);
    StepMakesPending(cfg, before, ops[i], id);
    if id in before.pending && After(cfg, ops).pending[id] == before.pending[id] {
      i := PendingWasStarted(cfg, ops[..i], id);
    }
  }

  lemma {:induction false} CodeWasGranted(cfg: Config, ops: seq<Op>, code: string) returns (k: nat)
    requires code in After(cfg, ops).codes
    ensures k < |ops| && IsGrant(After(cfg, ops[..k]), ops[k]) && ops[k].newCode == code
    ensures After(cfg, ops).codes[code] == CodeFor(cfg, After(cfg, ops[..k]).flights[ops[k].attempt].request, ops[k].now)
  {
    hide Apply, IsGrant;
    k := |ops| - 1;
    var n := k;
    var before := After(cfg, ops[..n]);
    StepMakesCode(cfg, before, ops[n], code);
    if code in before.codes && After(cfg, ops).codes[code] == before.codes[code] {
      k := CodeWasGranted(cfg, ops[..n], code);
      assert ops[..n][..k] == ops[..k];
    }
  }

  /**
   The code was granted at step k to a submission whose TOTP code was accepted at step j, which looked up at
   step l, within its time, the request that step i admitted.
   */
  ghost predicate Authorizes(cfg: Config, ops: seq<Op>, i: nat, l: nat, j: nat, k: nat, code: string) {
    && i < l < j < k < |ops|
    && ops[i].Start? && Admissible(cfg, ops[i].query)
    && Opens(After(cfg, ops[..l]), ops[l]) && ops[l].pendingId == ops[i].newId && ops[l].now < ops[i].now + cfg.pendingTtl
    && IsSignIn(cfg, After(cfg, ops[..j]), ops[j]) && ops[j].attempt == ops[l].attempt
    && IsGrant(After(cfg, ops[..k]), ops[k]) && ops[k].attempt == ops[l].attempt && ops[k].newCode == code
  }

  lemma CodeWasAuthorized(cfg: Config, ops: seq<Op>, code: string) returns (i: nat, l: nat, j: nat, k: nat)
    requires code in After(cfg, ops).codes
    ensures Authorizes(cfg, ops, i, l, j, k, code)
    ensures After(cfg, ops).codes[code] == CodeFor(cfg, PendingFor(cfg, ops[i].query, ops[i].now), ops[k].now)
  {
    hide After, Apply, Admissible, Judge;
    k := CodeWasGranted(cfg, ops, code);
    j := FlightWasVerified(cfg, ops[..k], ops[k].attempt);
    assert ops[..k][..j] == ops[..j];
    l := FlightWasLookedUp(cfg, ops[..j], ops[k].attempt);
    assert ops[..j][..l] == ops[..l];
    i := PendingWasStarted(cfg, ops[..l], ops[l].pendingId);
  }

  /** The sign-in at step j typed the code of counter c, unused and in its window, while no lockout lasted. */
  ghost predicate SignsInWith(cfg: Config, ops: seq<Op>, j: nat, c: int)
    requires j < |ops|
  {
    var before, after := After(cfg, ops[..j]), After(cfg, ops[..j + 1]);
    && ops[j].Verify?
    && before.guard.lockedUntil <= ops[j].now
    && TypesCodeOf(cfg, before.guard, ops[j].input, ops[j].now, c)
    && after.guard.lastCounter == c && after.guard.failures == 0
  }

  lemma SignInTypesACode(cfg: Config, s: Session, op: Op)
    requires IsSignIn(cfg, s, op)
    ensures s.guard.lockedUntil <= op.now
    ensures var after := Apply(cfg, s, op).guard;
            TypesCodeOf(cfg, s.guard, op.input, op.now, after.lastCounter) && after.failures == 0
  {
    VerdictsInFull(cfg, s.guard, op.input, op.now);
    VerifyAccepts(cfg, s, op.attempt, op.input, op.now);
    hide Judge, Judged, Apply, TypesCodeOf;
  }

  lemma SignInsTypeTheirCodes(cfg: Config, ops: seq<Op>, j: nat)
    requires j < |ops| && IsSignIn(cfg, After(cfg, ops[..j]), ops[j])
    ensures SignsInWith(cfg, ops, j, After(cfg, ops[..j + 1]).guard.lastCounter)
  {
    AfterOneMore(cfg, ops, j);
    hide After, Apply, TypesCodeOf;
    SignInTypesACode(cfg, After(cfg, ops[..j]), ops[j]);
  }

  lemma StepKeepsCounters(cfg: Config, s: Session, op: Op)
    ensures s.guard.lastCounter <= Apply(cfg, s, op).guard.lastCounter
  {
    if op.Verify? {
      VerdictsInFull(cfg, s.guard, op.input, op.now);
    }
    hide Judge, Judged, Admissible, CodeIsGood, RefreshIsGood;
  }

  lemma {:induction false} CountersNeverFall(cfg: Config, ops: seq<Op>, j: nat, k: nat)
    requires j <= k <= |ops|
    ensures After(cfg, ops[..j]).guard.lastCounter <= After(cfg, ops[..k]).guard.lastCounter
    decreases k
  {
    hide After, Apply;
    if j < k {
      CountersNeverFall(cfg, ops, j, k - 1);
      AfterOneMore(cfg, ops, k - 1);
      StepKeepsCounters(cfg, After(cfg, ops[..k - 1]), ops[k - 1]);
    }
  }

  /** In every run, restarts included, each sign-in uses up a later counter than the sign-ins before it. */
  lemma SignInsUseUpTheirCounters(cfg: Config, ops: seq<Op>, j: nat, k: nat, c: int, d: int)
    requires j < k < |ops| && SignsInWith(cfg, ops, j, c) && SignsInWith(cfg, ops, k, d)
    ensures c < d
  {
    hide After;
    CountersNeverFall(cfg, ops, j + 1, k);
  }

  /**
   A redeemed code answers a request of the same client, with a registered redirect URI and a challenge that
   the verifier hashes to, for which a TOTP code was accepted; each step within its time.
   */
  lemma RedeemedCodesWereAuthorized(cfg: Config, ops: seq<Op>, op: Op) returns (i: nat, l: nat, j: nat, k: nat)
    requires op.RedeemCode? && CodeIsGood(cfg, After(cfg, ops), op)
    ensures Authorizes(cfg, ops, i, l, j, k, op.code) && op.now < ops[k].now + cfg.codeTtl
    ensures op.clientId == ops[i].query.clientId == cfg.clientId
    ensures op.redirectUri == ops[i].query.redirectUri && op.redirectUri in cfg.redirectUris
    ensures cfg.s256(op.verifier) == ops[i].query.challenge
    ensures exists c :: SignsInWith(cfg, ops, j, c)
  {
    hide After, Apply, Opens, IsSignIn, IsGrant, SignsInWith;
    i, l, j, k := CodeWasAuthorized(cfg, ops, op.code);
    SignInsTypeTheirCodes(cfg, ops, j);
  }

  // ------------------------------------------------------------ tokens are bounded by sign-ins

  function SignIns(cfg: Config, ops: seq<Op>): nat {
    if ops == [] then 0
    else
      var n := |ops| - 1;
      SignIns(cfg, ops[..n]) + (if IsSignIn(cfg, After(cfg, ops[..n]), ops[n]) then 1 else 0)
  }

  /** The submissions whose code was accepted and that wait for their grant. */
  function Admitted(s: Session): set<nat> {
    set a | a in s.flights && s.flights[a].accepted
  }

  /** Everything that can still become tokens, or already is a token that renews itself. */
  function Held(s: Session): nat {
    |Admitted(s)| + |s.codes| + |s.refresh|
  }

  lemma SmallerMap<V>(a: map<string, V>, b: map<string, V>)
    requires a.Keys <= b.Keys
    ensures |a| <= |b|
  {
    assert |a.Keys| == |a| && |b.Keys| == |b|;
    assert b.Keys == a.Keys + (b.Keys - a.Keys);
  }

  lemma RemovedKey<V>(m: map<string, V>, k: string)
    ensures |m - {k}| == |m| - (if k in m then 1 else 0)
  {
    assert |(m - {k}).Keys| == |m - {k}| && |m.Keys| == |m|;
    assert (m - {k}).Keys == m.Keys - {k};
  }

  lemma IssuedCounts(cfg: Config, s: Session, access: string, refresh: string, now: int)
    ensures |Issued(cfg, s, access, refresh, now).refresh| <= |s.refresh| + 1
    ensures Issued(cfg, s, access, refresh, now).codes == s.codes
  {
    SmallerMap(Issued(cfg, s, access, refresh, now).refresh, s.refresh[refresh := now + cfg.refreshTtl]);
  }

  lemma LookupConservesTokens(cfg: Config, s: Session, op: Op)
    requires op.Lookup?
    ensures Held(Apply(cfg, s, op)) <= Held(s)
  {
    SmallerMap(Expired(s, op.now).codes, s.codes);
    assert Admitted(Apply(cfg, s, op)) == Admitted(s);
  }

  lemma VerificationKeepsCodes(cfg: Config, s: Session, op: Op)
    requires op.Verify?
    ensures Apply(cfg, s, op).codes == s.codes && Apply(cfg, s, op).refresh.Keys <= s.refresh.Keys
  {
    hide Judge, Judged;
  }

  lemma VerificationConservesTokens(cfg: Config, s: Session, op: Op)
    requires op.Verify?
    ensures Held(Apply(cfg, s, op)) <= Held(s) + (if IsSignIn(cfg, s, op) then 1 else 0)
  {
    hide Apply, Judge;
    var t := Apply(cfg, s, op);
    VerificationKeepsCodes(cfg, s, op);
    SmallerMap(t.refresh, s.refresh);
    forall a | a in Admitted(t)
      ensures a in Admitted(s) || (IsSignIn(cfg, s, op) && a == op.attempt)
    {
      StepKeepsFlights(cfg, s, op, a);
    }
    SmallerSet(Admitted(t), Admitted(s) + (if IsSignIn(cfg, s, op) then {op.attempt} else {}));
  }

  lemma GrantAddsACode(cfg: Config, s: Session, op: Op)
    requires op.Grant?
    ensures !IsGrant(s, op) ==> Apply(cfg, s, op) == s
    ensures IsGrant(s, op) ==> Apply(cfg, s, op).refresh == s.refresh
    ensures IsGrant(s, op) ==> Apply(cfg, s, op).codes == s.codes[op.newCode := CodeFor(cfg, s.flights[op.attempt].request, op.now)]
  {}

  lemma AddedKey<V>(m: map<string, V>, k: string, v: V)
    ensures |m[k := v]| <= |m| + 1
  {}

  lemma GrantConservesTokens(cfg: Config, s: Session, op: Op)
    requires op.Grant?
    ensures Held(Apply(cfg, s, op)) <= Held(s)
  {
    hide Apply;
    var t := Apply(cfg, s, op);
    GrantAddsACode(cfg, s, op);
    if IsGrant(s, op) {
      AddedKey(s.codes, op.newCode, CodeFor(cfg, s.flights[op.attempt].request, op.now));
      GrantEndsTheFlight(cfg, s, op);
      assert Admitted(t) == Admitted(s) - {op.attempt};
    }
  }

  lemma CodeRedemptionConservesTokens(cfg: Config, s: Session, op: Op)
    requires op.RedeemCode?
    ensures Held(Apply(cfg, s, op)) <= Held(s)
  {
    var e := Expired(s, op.now);
    var u := e.(codes := e.codes - {op.code});
    SmallerMap(e.codes, s.codes);
    RemovedKey(e.codes, op.code);
    IssuedCounts(cfg, u, op.access, op.refresh, op.now);
    assert CodeIsGood(cfg, s, op) ==> op.code in e.codes;
    hide CodeIsGood, Issued, Expired;
  }

  /** What is left of a session that redeems a refresh token, before it is given new ones. */
  lemma RefreshIsTaken(s: Session, op: Op)
    requires op.RedeemRefresh?
    ensures var t := Flushed(s.(refresh := s.refresh - {op.token}), op.now);
            && t.codes == s.codes && t.flights == s.flights
            && |t.refresh| <= |s.refresh| - (if op.token in s.refresh then 1 else 0)
    ensures RefreshIsGood(s, op) ==> op.token in s.refresh
  {
    var r := s.(refresh := s.refresh - {op.token});
    RemovedKey(s.refresh, op.token);
    SmallerMap(Flushed(r, op.now).refresh, r.refresh);
  }

  lemma IssuedKeepsFlights(cfg: Config, s: Session, access: string, refresh: string, now: int)
    ensures Issued(cfg, s, access, refresh, now).flights == s.flights
  {}

  lemma RefreshRedemptionConservesTokens(cfg: Config, s: Session, op: Op)
    requires op.RedeemRefresh?
    ensures Held(Apply(cfg, s, op)) <= Held(s)
  {
    hide RefreshIsGood, Issued, Flushed, Admitted;
    var t := Flushed(s.(refresh := s.refresh - {op.token}), op.now);
    RefreshIsTaken(s, op);
    IssuedCounts(cfg, t, op.access, op.refresh, op.now);
    IssuedKeepsFlights(cfg, t, op.access, op.refresh, op.now);
    assert Admitted(Issued(cfg, t, op.access, op.refresh, op.now)) == Admitted(s) == Admitted(t) by {
      SameFlightsSameAdmitted(s, t);
      SameFlightsSameAdmitted(s, Issued(cfg, t, op.access, op.refresh, op.now));
    }
  }

  lemma SameFlightsSameAdmitted(s: Session, t: Session)
    requires s.flights == t.flights
    ensures Admitted(s) == Admitted(t)
  {}

  /** One operation raises the number of grants, codes and refresh tokens only by accepting a TOTP code, and then by one. */
  lemma StepConservesTokens(cfg: Config, s: Session, op: Op)
    ensures Held(Apply(cfg, s, op)) <= Held(s) + (if IsSignIn(cfg, s, op) then 1 else 0)
  {
    hide Judge, Judged, CodeIsGood, RefreshIsGood, Issued, Admissible;
    match op
    case Start(_, _, now) => SmallerMap(Expired(s, now).codes, s.codes);
    case Lookup(_, _, _) => LookupConservesTokens(cfg, s, op);
    case Verify(_, _, _) => VerificationConservesTokens(cfg, s, op);
    case Grant(_, _, _) => GrantConservesTokens(cfg, s, op);
    case RedeemCode(_, _, _, _, _, _, _) => CodeRedemptionConservesTokens(cfg, s, op);
    case RedeemRefresh(_, _, _, _) => RefreshRedemptionConservesTokens(cfg, s, op);
    case RevokeAll(_) =>
    case Restart =>
  }

  /** Outstanding codes and live refresh tokens together never outnumber the accepted TOTP codes. */
  lemma {:induction false} TokensNeedSignIns(cfg: Config, ops: seq<Op>)
    ensures |After(cfg, ops).codes| + |After(cfg, ops).refresh| <= Held(After(cfg, ops)) <= SignIns(cfg, ops)
  {
    hide Apply, IsSignIn;
    if ops != [] {
      var n := |ops| - 1;
      TokensNeedSignIns(cfg, ops[..n]);
      StepConservesTokens(cfg, After(cfg, ops[..n]), ops[n]);
    }
  }

  // ------------------------------------------------------------ the gateway object

  datatype Denial =
    | BadRequest | SignInExpired | LockedOut | CodeRefused | InvalidGrant | PkceFailed

  /** Where a completed sign-in sends the browser: an empty state is not echoed. */
  datatype Redirect = Redirect(uri: string, code: string, state: Option<string>)

  class ClaudeGateway {
    const cfg: Config
    var guard: Guard
    var pending: map<string, Pending>
    var codes: map<string, CodeEntry>
    var access: map<string, int>
    var refresh: map<string, int>
    // what the threads of the submissions in flight hold in their local variables
    var flights: map<nat, Flight>

    function View(): Session
      reads this
    {
      Session(guard, pending, codes, access, refresh, flights)
    }

    constructor (cfg: Config)
      ensures this.cfg == cfg && View() == NEW_SESSION
    {
      this.cfg := cfg;
      guard := NEW_GUARD;
      pending, codes, access, refresh, flights := map[], map[], map[], map[], map[];
    }

    /** A new process finds the state file; sign-ins in progress and unredeemed codes are lost. */
    method Reload()
      modifies this
      ensures View() == Apply(cfg, old(View()), Restart)
    {
      pending, codes, flights := map[], map[], map[];
    }

    method Flush(now: int)
      modifies this
      ensures View() == Flushed(old(View()), now)
    {
      access := map t | t in access && access[t] > now :: access[t];
      refresh := map t | t in refresh && refresh[t] > now :: refresh[t];
    }

    method Expire(now: int)
      modifies this
      ensures View() == Expired(old(View()), now)
    {
      pending := map p | p in pending && pending[p].exp > now :: pending[p];
      codes := map c | c in codes && codes[c].exp > now :: codes[c];
    }

    method StartAuthorization(q: AuthorizeQuery, newId: string, now: int) returns (r: Result<string, Denial>)
      modifies this
      ensures View() == Apply(cfg, old(View()), Start(q, newId, now))
      ensures r == if Admissible(cfg, q) then Ok(newId) else Err(BadRequest)
      ensures r.Ok? <==> MeetsTheRules(cfg, q)
    {
      AdmissionRules(cfg, q);
      hide MeetsTheRules, TrimSlashes;
      if q.responseType != "code" || q.clientId != cfg.clientId || q.redirectUri !in cfg.redirectUris {
        return Err(BadRequest);
      }
      if q.challengeMethod != "S256" || |q.challenge| < 43 {
        return Err(BadRequest);
      }
      if q.resource.Some? && q.resource.value != "" && TrimSlashes(q.resource.value) != cfg.resource {
        return Err(BadRequest);
      }
      Expire(now);
      pending := pending[newId := PendingFor(cfg, q, now)];
      r := Ok(newId);
    }

    /** The loop over the three counters of the window. */
    method VerifyTotp(input: string, now: int) returns (v: Verdict)
      modifies this
      ensures v == Judge(cfg, old(guard), input, now)
      ensures IsVerdict(cfg, old(guard), input, now, v) && IsAftermath(cfg, old(guard), now, v, guard)
      ensures View() == if v.AlreadyLocked? then old(View())
                        else Flushed(old(View()).(guard := Judged(cfg, old(guard), v, now)), now)
    {
      VerdictsInFull(cfg, guard, input, now);
      hide IsVerdict, IsAftermath, Digits;
      var code := Digits(input);
      if guard.lockedUntil > now {
        return AlreadyLocked;
      }
      if |code| == 6 {
        var current := now / 30;
        var counter := current - 1;
        while counter <= current + 1
          invariant current - 1 <= counter <= current + 2
          invariant View() == old(View())
          invariant forall c :: current - 1 <= c < counter ==> !Matches(cfg, guard, code, c)
          decreases current + 2 - counter
        {
          if counter > guard.lastCounter && cfg.totp(counter) == code {
            assert MatchingCounter(cfg, guard, code, now) == Some(counter);
            guard := guard.(lastCounter := counter, failures := 0);
            Flush(now);
            return Accepted(counter);
          }
          counter := counter + 1;
        }
        assert MatchingCounter(cfg, guard, code, now) == None;
      }
      if guard.failures + 1 >= cfg.lockoutFailures {
        guard := guard.(failures := 0, lockedUntil := now + cfg.lockoutSeconds);
        Flush(now);
        return LockedNow;
      }
      guard := guard.(failures := guard.failures + 1);
      Flush(now);
      v := Invalid;
    }

    method LookupPending(attempt: nat, pendingId: string, now: int) returns (found: bool)
      requires attempt !in flights
      modifies this
      ensures View() == Apply(cfg, old(View()), Lookup(attempt, pendingId, now))
      ensures found == (attempt in flights) == (pendingId in old(pending) && now < old(pending)[pendingId].exp)
    {
      Expire(now);
      if pendingId !in pending {
        return false;
      }
      flights := flights[attempt := Flight(pendingId, pending[pendingId], false)];
      found := true;
    }

    method SubmitCode(attempt: nat, input: string, now: int) returns (v: Verdict)
      requires attempt in flights && !flights[attempt].accepted
      modifies this
      ensures View() == Apply(cfg, old(View()), Verify(attempt, input, now))
      ensures v == Judge(cfg, old(guard), input, now)
      ensures IsVerdict(cfg, old(guard), input, now, v) && IsAftermath(cfg, old(guard), now, v, guard)
      ensures v.Accepted? <==> attempt in flights
      ensures v.Accepted? ==> flights[attempt] == old(flights)[attempt].(accepted := true)
    {
      hide Judge, Judged, IsVerdict, IsAftermath;
      v := VerifyTotp(input, now);
      if v.Accepted? {
        flights := flights[attempt := flights[attempt].(accepted := true)];
      } else {
        flights := flights - {attempt};
      }
    }

    method GrantCode(attempt: nat, newCode: string, now: int) returns (r: Redirect)
      requires attempt in flights && flights[attempt].accepted
      modifies this
      ensures View() == Apply(cfg, old(View()), Grant(attempt, newCode, now))
      ensures var p := old(flights)[attempt].request;
              r == Redirect(p.redirectUri, newCode, if p.state == Some("") then None else p.state)
    {
      var f := flights[attempt];
      pending := pending - {f.pendingId};
      codes := codes[newCode := CodeFor(cfg, f.request, now)];
      flights := flights - {attempt};
      r := Redirect(f.request.redirectUri, newCode, if f.request.state == Some("") then None else f.request.state);
    }

    /** One submission that no other step comes between; each of its steps reads the clock. */
    method CompleteAuthorization(attempt: nat, pendingId: string, input: string, newCode: string,
                                 lookedUp: int, submitted: int, granted: int) returns (r: Result<Redirect, Denial>)
      requires attempt !in flights
      modifies this
      ensures View() == Apply(cfg, Apply(cfg, Apply(cfg, old(View()),
                          Lookup(attempt, pendingId, lookedUp)), Verify(attempt, input, submitted)),
                          Grant(attempt, newCode, granted))
      ensures flights == old(flights)
      ensures r ==
        (if pendingId !in old(pending) || old(pending)[pendingId].exp <= lookedUp then Err(SignInExpired)
         else match Judge(cfg, old(guard), input, submitted)
           case Accepted(_) =>
             var p := old(pending)[pendingId];
             Ok(Redirect(p.redirectUri, newCode, if p.state == Some("") then None else p.state))
           case Invalid => Err(CodeRefused)
           case LockedNow => Err(LockedOut)
           case AlreadyLocked => Err(LockedOut))
      ensures r.Ok? <==>
        && pendingId in old(pending) && lookedUp < old(pending)[pendingId].exp
        && old(guard).lockedUntil <= submitted
        && exists c :: TypesCodeOf(cfg, old(guard), input, submitted, c)
      ensures r.Ok? ==> TypesCodeOf(cfg, old(guard), input, submitted, guard.lastCounter)
      ensures !r.Ok? ==> guard.lastCounter == old(guard).lastCounter && codes.Keys <= old(codes).Keys
    {
      hide Judge, Judged, TypesCodeOf;
      var found := LookupPending(attempt, pendingId, lookedUp);
      if !found {
        return Err(SignInExpired);
      }
      var v := SubmitCode(attempt, input, submitted);
      match v {
        case Invalid => return Err(CodeRefused);
        case LockedNow => return Err(LockedOut);
        case AlreadyLocked => return Err(LockedOut);
        case Accepted(_) =>
      }
      var redirect := GrantCode(attempt, newCode, granted);
      r := Ok(redirect);
    }

    method IssueTokens(newAccess: string, newRefresh: string, now: int)
      modifies this
      ensures View() == Issued(cfg, old(View()), newAccess, newRefresh, now)
    {
      access := access[newAccess := now + cfg.accessTtl];
      refresh := refresh[newRefresh := now + cfg.refreshTtl];
      Flush(now);
    }

    method ExchangeCode(code: string, redirectUri: string, clientId: string, verifier: string,
                        newAccess: string, newRefresh: string, now: int) returns (r: Result<(string, string), Denial>)
      modifies this
      ensures var op := RedeemCode(code, redirectUri, clientId, verifier, newAccess, newRefresh, now);
              && View() == Apply(cfg, old(View()), op)
              && (r.Ok? <==> CodeIsGood(cfg, old(View()), op))
              && (r.Ok? ==> r.value == (newAccess, newRefresh))
      ensures code !in codes
      ensures var live := code in old(codes) && now < old(codes)[code].exp;
              var asked := live && old(codes)[code].redirectUri == redirectUri && old(codes)[code].clientId == clientId;
              r == if !asked then Err(InvalidGrant)
                   else if verifier == "" || cfg.s256(verifier) != old(codes)[code].challenge then Err(PkceFailed)
                   else Ok((newAccess, newRefresh))
      ensures r.Ok? && now < now + cfg.accessTtl && now < now + cfg.refreshTtl ==>
        && newAccess in access && access[newAccess] == now + cfg.accessTtl
        && newRefresh in refresh && refresh[newRefresh] == now + cfg.refreshTtl
    {
      Expire(now);
      if code !in codes {
        assert codes - {code} == codes;
        return Err(InvalidGrant);
      }
      var e := codes[code];
      codes := codes - {code};
      if e.redirectUri != redirectUri || e.clientId != clientId {
        return Err(InvalidGrant);
      }
      if verifier == "" || cfg.s256(verifier) != e.challenge {
        return Err(PkceFailed);
      }
      IssueTokens(newAccess, newRefresh, now);
      r := Ok((newAccess, newRefresh));
    }

    method ExchangeRefresh(token: string, newAccess: string, newRefresh: string, now: int)
        returns (r: Result<(string, string), Denial>)
      modifies this
      ensures var op := RedeemRefresh(token, newAccess, newRefresh, now);
              && View() == Apply(cfg, old(View()), op)
              && (r.Ok? <==> RefreshIsGood(old(View()), op))
              && (r.Ok? ==> r.value == (newAccess, newRefresh))
      ensures r.Ok? <==> token in old(refresh) && now < old(refresh)[token]
      ensures token != newRefresh ==> token !in refresh
      ensures r.Ok? && now < now + cfg.accessTtl && now < now + cfg.refreshTtl ==>
        && newAccess in access && access[newAccess] == now + cfg.accessTtl
        && newRefresh in refresh && refresh[newRefresh] == now + cfg.refreshTtl
    {
      var found := if token in refresh then Some(refresh[token]) else None;
      refresh := refresh - {token};
      Flush(now);
      if found.None? || found.value <= now {
        return Err(InvalidGrant);
      }
      IssueTokens(newAccess, newRefresh, now);
      r := Ok((newAccess, newRefresh));
    }

    method BearerValid(token: string, now: int) returns (ok: bool)
      ensures ok <==> token in LiveTokens(access, now)
      ensures ok <==> token in access && now < access[token]
    {
      ok := token in access && access[token] > now;
    }

    method RevokeEverything(now: int)
      modifies this
      ensures View() == Apply(cfg, old(View()), RevokeAll(now))
      ensures access == map[] && refresh == map[]
    {
      access, refresh := map[], map[];
      Flush(now);
    }
  }
}
