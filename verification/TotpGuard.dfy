/**
 The TOTP guard of the connector gateway: a window of three counters, no counter
 twice, and a lockout after too many failures.
 */
module TotpGuard {
  import opened Wrappers

  datatype ConfigRecord = Config(
    clientId: string,
    resource: string,
    redirectUris: set<string>,
    totp: int -> string,
    s256: string -> string,
    lockoutFailures: int,
    lockoutSeconds: int,
    pendingTtl: int,
    codeTtl: int,
    accessTtl: int,
    refreshTtl: int)

  type Config = c: ConfigRecord | c.lockoutFailures >= 1 && c.lockoutSeconds >= 0
    witness Config("", "", {}, n => "", s => s, 5, 900, 600, 120, 3600, 2592000)

  // ------------------------------------------------------------ the TOTP guard

  datatype Guard = Guard(lastCounter: int, failures: nat, lockedUntil: int)

  const NEW_GUARD := Guard(-1, 0, 0)

  datatype Verdict = Accepted(counter: int) | Invalid | LockedNow | AlreadyLocked

  predicate IsDigit(c: char) {
    '0' <= c <= '9'
  }

  function Digits(s: string): string {
    if s == [] then [] else (if IsDigit(s[0]) then [s[0]] else []) + Digits(s[1..])
  }

  /** A counter admits a code when it has not been used up and yields the code. */
  predicate Matches(cfg: Config, g: Guard, code: string, counter: int) {
    counter > g.lastCounter && cfg.totp(counter) == code
  }

  /** The first admissible counter of the window of three. */
  function MatchingCounter(cfg: Config, g: Guard, code: string, now: int): Option<int> {
    var current := now / 30;
    if Matches(cfg, g, code, current - 1) then Some(current - 1)
    else if Matches(cfg, g, code, current) then Some(current)
    else if Matches(cfg, g, code, current + 1) then Some(current + 1)
    else None
  }

  function Judge(cfg: Config, g: Guard, input: string, now: int): Verdict {
    var code := Digits(input);
    if g.lockedUntil > now then AlreadyLocked
    else if |code| == 6 && MatchingCounter(cfg, g, code, now).Some? then
      Accepted(MatchingCounter(cfg, g, code, now).value)
    else if g.failures + 1 >= cfg.lockoutFailures then LockedNow
    else Invalid
  }

  function Judged(cfg: Config, g: Guard, v: Verdict, now: int): Guard {
    match v
    case Accepted(counter) => g.(lastCounter := counter, failures := 0)
    case Invalid => g.(failures := g.failures + 1)
    case LockedNow => g.(failures := 0, lockedUntil := now + cfg.lockoutSeconds)
    case AlreadyLocked => g
  }

  // ------------------------------------------------------------ verdicts in full

  lemma {:induction false} DigitsOfBoth(a: string, b: string)
    ensures Digits(a + b) == Digits(a) + Digits(b)
  {
    if a == [] {
      assert a + b == b;
    } else {
      DigitsOfBoth(a[1..], b);
      assert (a + b)[1..] == a[1..] + b;
    }
  }

  /** What is compared with a code are the digits of the input, each kept and in its place, and nothing else. */
  lemma DigitsAreKept(before: string, c: char, after: string)
    ensures Digits(before + [c] + after) == Digits(before) + (if '0' <= c <= '9' then [c] else []) + Digits(after)
  {
    assert Digits([c]) == if '0' <= c <= '9' then [c] else [] by {
      assert [c][1..] == [];
    }
    hide Digits;
    DigitsOfBoth(before, [c]);
    DigitsOfBoth(before + [c], after);
  }

  /** The input is the six-digit code of a counter in the window of three, and the counter has not been used up. */
  predicate TypesCodeOf(cfg: Config, g: Guard, input: string, now: int, c: int) {
    && now / 30 - 1 <= c <= now / 30 + 1
    && c > g.lastCounter
    && |Digits(input)| == 6
    && cfg.totp(c) == Digits(input)
  }

  /** What an attempt is answered, and when. */
  ghost predicate IsVerdict(cfg: Config, g: Guard, input: string, now: int, v: Verdict) {
    && (v.AlreadyLocked? <==> now < g.lockedUntil)
    && (g.lockedUntil <= now ==> (v.Accepted? <==> exists c :: TypesCodeOf(cfg, g, input, now, c)))
    && (v.Accepted? ==> TypesCodeOf(cfg, g, input, now, v.counter))
    && (v.Accepted? ==> forall c :: TypesCodeOf(cfg, g, input, now, c) ==> v.counter <= c)
    && (v.LockedNow? ==> g.failures + 1 >= cfg.lockoutFailures)
    && (v.Invalid? ==> g.failures + 1 < cfg.lockoutFailures)
  }

  /** What an attempt leaves behind: a used-up counter, one more failure, or a lockout that starts now. */
  predicate IsAftermath(cfg: Config, g: Guard, now: int, v: Verdict, after: Guard) {
    match v
    case Accepted(c) => after.lastCounter == c && after.failures == 0 && after.lockedUntil == g.lockedUntil
    case Invalid =>
      after.lastCounter == g.lastCounter && after.failures == g.failures + 1 && after.lockedUntil == g.lockedUntil
    case LockedNow =>
      after.lastCounter == g.lastCounter && after.failures == 0 && after.lockedUntil == now + cfg.lockoutSeconds
    case AlreadyLocked => after == g
  }

  /** An unlocked guard accepts exactly the unused codes of its window, the oldest first. */
  lemma VerdictsInFull(cfg: Config, g: Guard, input: string, now: int)
    ensures IsVerdict(cfg, g, input, now, Judge(cfg, g, input, now))
    ensures IsAftermath(cfg, g, now, Judge(cfg, g, input, now), Judged(cfg, g, Judge(cfg, g, input, now), now))
  {
    hide Digits;
    var v := Judge(cfg, g, input, now);
    forall c | TypesCodeOf(cfg, g, input, now, c) && g.lockedUntil <= now ensures v.Accepted? && v.counter <= c {
      assert c == now / 30 - 1 || c == now / 30 || c == now / 30 + 1;
    }
    if v.Accepted? {
      assert TypesCodeOf(cfg, g, input, now, v.counter);
    }
  }

  datatype Attempt = Attempt(input: string, now: int)

  function GuardAfter(cfg: Config, g: Guard, attempts: seq<Attempt>): Guard {
    if attempts == [] then g
    else
      var before := GuardAfter(cfg, g, attempts[..|attempts| - 1]);
      var a := attempts[|attempts| - 1];
      Judged(cfg, before, Judge(cfg, before, a.input, a.now), a.now)
  }

  function VerdictAt(cfg: Config, g: Guard, attempts: seq<Attempt>, i: nat): Verdict
    requires i < |attempts|
  {
    Judge(cfg, GuardAfter(cfg, g, attempts[..i]), attempts[i].input, attempts[i].now)
  }

  lemma {:induction false} CounterNeverFalls(cfg: Config, g: Guard, attempts: seq<Attempt>, i: nat)
    requires i <= |attempts|
    ensures GuardAfter(cfg, g, attempts[..i]).lastCounter <= GuardAfter(cfg, g, attempts).lastCounter
    decreases |attempts|
  {
    if i < |attempts| {
      var n := |attempts| - 1;
      assert attempts[..n][..i] == attempts[..i];
      CounterNeverFalls(cfg, g, attempts[..n], i);
    } else {
      assert attempts[..i] == attempts;
    }
  }

  /** Over every run of attempts the accepted counters strictly increase, so no counter is used twice. */
  lemma AcceptedCountersIncrease(cfg: Config, g: Guard, attempts: seq<Attempt>, i: nat, j: nat)
    requires i < j < |attempts|
    requires VerdictAt(cfg, g, attempts, i).Accepted? && VerdictAt(cfg, g, attempts, j).Accepted?
    ensures VerdictAt(cfg, g, attempts, i).counter < VerdictAt(cfg, g, attempts, j).counter
  {
    assert attempts[..i + 1][..i] == attempts[..i];
    assert attempts[..j][..i + 1] == attempts[..i + 1];
    CounterNeverFalls(cfg, g, attempts[..j], i + 1);
  }

  function Failures(cfg: Config, g: Guard, attempts: seq<Attempt>): nat {
    if attempts == [] then 0
    else
      var n := |attempts| - 1;
      var v := Judge(cfg, GuardAfter(cfg, g, attempts[..n]), attempts[n].input, attempts[n].now);
      Failures(cfg, g, attempts[..n]) + (if v.Invalid? || v.LockedNow? then 1 else 0)
  }

  function Lockouts(cfg: Config, g: Guard, attempts: seq<Attempt>): nat {
    if attempts == [] then 0
    else
      var n := |attempts| - 1;
      var v := Judge(cfg, GuardAfter(cfg, g, attempts[..n]), attempts[n].input, attempts[n].now);
      Lockouts(cfg, g, attempts[..n]) + (if v.LockedNow? then 1 else 0)
  }

  ghost predicate NoneAccepted(cfg: Config, g: Guard, attempts: seq<Attempt>) {
    forall i :: 0 <= i < |attempts| ==> !VerdictAt(cfg, g, attempts, i).Accepted?
  }

  lemma AttemptIsAccountedFor(cfg: Config, g: Guard, a: Attempt)
    requires g.failures < cfg.lockoutFailures
    ensures var v := Judge(cfg, g, a.input, a.now);
            var after := Judged(cfg, g, v, a.now);
            !v.Accepted? ==>
              && after.failures < cfg.lockoutFailures
              && after.failures == g.failures + (if v.Invalid? || v.LockedNow? then 1 else 0)
                                   - (if v.LockedNow? then cfg.lockoutFailures else 0)
  {}

  /** While nothing is accepted, failures are spent on lockouts at a fixed price and the rest are on the counter. */
  lemma {:induction false} FailuresAreAccountedFor(cfg: Config, g: Guard, attempts: seq<Attempt>)
    requires NoneAccepted(cfg, g, attempts) && g.failures < cfg.lockoutFailures
    ensures GuardAfter(cfg, g, attempts).failures < cfg.lockoutFailures
    ensures Failures(cfg, g, attempts) + g.failures ==
              cfg.lockoutFailures * Lockouts(cfg, g, attempts) + GuardAfter(cfg, g, attempts).failures
  {
    hide Judge, Judged, Digits;
    if attempts != [] {
      var n := |attempts| - 1;
      assert forall i :: 0 <= i < n ==> attempts[..n][..i] == attempts[..i];
      assert forall i :: 0 <= i < n ==> VerdictAt(cfg, g, attempts[..n], i) == VerdictAt(cfg, g, attempts, i);
      FailuresAreAccountedFor(cfg, g, attempts[..n]);
      AttemptIsAccountedFor(cfg, GuardAfter(cfg, g, attempts[..n]), attempts[n]);
      assert !VerdictAt(cfg, g, attempts, n).Accepted?;
      var l := Lockouts(cfg, g, attempts[..n]);
      assert cfg.lockoutFailures * (l + 1) == cfg.lockoutFailures * l + cfg.lockoutFailures;
    }
  }

  lemma {:induction false} LockedUntilIsTheLastLockout(cfg: Config, g: Guard, attempts: seq<Attempt>, i: nat)
    requires i < |attempts| && VerdictAt(cfg, g, attempts, i).LockedNow?
    requires forall k :: i < k < |attempts| ==> !VerdictAt(cfg, g, attempts, k).LockedNow?
    ensures GuardAfter(cfg, g, attempts).lockedUntil == attempts[i].now + cfg.lockoutSeconds
  {
    var n := |attempts| - 1;
    if i < n {
      assert forall k :: 0 <= k < n ==> attempts[..n][..k] == attempts[..k];
      assert forall k :: 0 <= k < n ==> VerdictAt(cfg, g, attempts[..n], k) == VerdictAt(cfg, g, attempts, k);
      LockedUntilIsTheLastLockout(cfg, g, attempts[..n], i);
      assert !VerdictAt(cfg, g, attempts, n).LockedNow?;
    } else {
      assert VerdictAt(cfg, g, attempts, n).LockedNow?;
    }
  }

  /** After a lockout, no attempt is judged before its time is up: consecutive lockouts lie that far apart. */
  lemma LockoutsAreApart(cfg: Config, g: Guard, attempts: seq<Attempt>, i: nat, j: nat)
    requires i < j < |attempts| && VerdictAt(cfg, g, attempts, i).LockedNow?
    requires forall k :: i < k < j ==> !VerdictAt(cfg, g, attempts, k).LockedNow?
    ensures !VerdictAt(cfg, g, attempts, j).AlreadyLocked? ==> attempts[j].now >= attempts[i].now + cfg.lockoutSeconds
  {
    assert forall k :: 0 <= k < j ==> attempts[..j][..k] == attempts[..k];
    assert forall k :: 0 <= k < j ==> VerdictAt(cfg, g, attempts[..j], k) == VerdictAt(cfg, g, attempts, k);
    LockedUntilIsTheLastLockout(cfg, g, attempts[..j], i);
  }
}
