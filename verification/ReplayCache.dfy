/**
 The office's in-memory replay cache and its SQLite form: one behaviour, two
 representations, and what they promise about repeated nonces.
 */
module ReplayCache {

  type Seen = map<string, real>

  /** The nonces whose age is within the window. */
  function Pruned(s: Seen, now: real, window: real): Seen {
    map n | n in s && now - s[n] <= window :: s[n]
  }

  /** The rows first seen no earlier than the cutoff. */
  function Deleted(s: Seen, cutoff: real): Seen {
    map n | n in s && !(s[n] < cutoff) :: s[n]
  }

  class Cache {
    var seen: Seen

    constructor ()
      ensures seen == map[]
    {
      seen := map[];
    }

    method Accept(nonce: string, now: real, window: real) returns (ok: bool)
      modifies this
      ensures ok == Answer(old(seen), nonce, now, window)
      ensures seen == After(old(seen), nonce, now, window)
    {
      seen := Pruned(seen, now, window);
      if nonce in seen {
        return false;
      }
      seen := seen[nonce := now];
      ok := true;
    }
  }

  class NonceTable {
    var rows: Seen

    constructor ()
      ensures rows == map[]
    {
      rows := map[];
    }

    /** The deletion is kept even when the insertion violates the primary key. */
    method AcceptNonce(nonce: string, now: real, window: real) returns (ok: bool)
      modifies this
      ensures ok == Answer(old(rows), nonce, now, window)
      ensures rows == After(old(rows), nonce, now, window)
    {
      DeletingIsPruning(rows, now, window);
      rows := Deleted(rows, now - window);
      if nonce in rows {
        return false;
      }
      rows := rows[nonce := now];
      ok := true;
    }
  }

  /** The two ways of dropping old nonces keep the same ones, at every real time. */
  lemma DeletingIsPruning(s: Seen, now: real, window: real)
    ensures Deleted(s, now - window) == Pruned(s, now, window)
  {}

  predicate Answer(s: Seen, nonce: string, now: real, window: real) {
    nonce !in Pruned(s, now, window)
  }

  function After(s: Seen, nonce: string, now: real, window: real): Seen {
    var live := Pruned(s, now, window);
    if nonce in live then live else live[nonce := now]
  }

  // ------------------------------------------------------------ runs

  datatype Request = Request(nonce: string, now: real)

  function Live(rs: seq<Request>, window: real): Seen {
    if rs == [] then map[]
    else
      var last := rs[|rs| - 1];
      After(Live(rs[..|rs| - 1], window), last.nonce, last.now, window)
  }

  /** Whether the i-th request of a run is accepted. */
  predicate Accepted(rs: seq<Request>, window: real, i: nat)
    requires i < |rs|
  {
    Answer(Live(rs[..i], window), rs[i].nonce, rs[i].now, window)
  }

  ghost predicate Nondecreasing(rs: seq<Request>) {
    forall i, j :: 0 <= i < j < |rs| ==> rs[i].now <= rs[j].now
  }

  /** The last time a nonce was accepted. */
  function LastAccepted(rs: seq<Request>, window: real, n: string): (r: int)
    ensures -1 <= r < |rs|
    ensures r >= 0 ==> rs[r].nonce == n && Accepted(rs, window, r)
    ensures forall i :: r < i < |rs| && rs[i].nonce == n ==> !Accepted(rs, window, i)
  {
    if rs == [] then -1
    else
      var k := |rs| - 1;
      if rs[k].nonce == n && Accepted(rs, window, k) then k
      else
        var r := LastAccepted(rs[..k], window, n);
        assert forall i :: 0 <= i < k ==> rs[..k][..i] == rs[..i];
        assert forall i :: 0 <= i < k ==> Accepted(rs[..k], window, i) == Accepted(rs, window, i);
        r
  }

  lemma LastOfPrefix(rs: seq<Request>, window: real, n: string)
    requires rs != []
    ensures var k := |rs| - 1;
            LastAccepted(rs, window, n) ==
              if rs[k].nonce == n && Accepted(rs, window, k) then k else LastAccepted(rs[..k], window, n)
  {}

  /** With a clock that never goes back, a nonce is live exactly while its last acceptance is within the window. */
  lemma {:induction false} LiveMeansRecentlyAccepted(rs: seq<Request>, window: real, n: string)
    requires Nondecreasing(rs) && rs != [] && window >= 0.0
    ensures var r := LastAccepted(rs, window, n);
            && (n in Live(rs, window) <==> r >= 0 && rs[|rs| - 1].now - rs[r].now <= window)
            && (n in Live(rs, window) ==> Live(rs, window)[n] == rs[r].now)
  {
    var k := |rs| - 1;
    LastOfPrefix(rs, window, n);
    if k > 0 {
      LiveMeansRecentlyAccepted(rs[..k], window, n);
      assert rs[..k][k - 1] == rs[k - 1];
    }
  }

  /** The last acceptance is the one that decides whether any lies within the window. */
  lemma LastDecides(rs: seq<Request>, window: real, n: string, t: real)
    requires Nondecreasing(rs)
    ensures var r := LastAccepted(rs, window, n);
            (forall i :: 0 <= i < |rs| && rs[i].nonce == n && Accepted(rs, window, i) ==> t - rs[i].now > window)
              <==> (r >= 0 ==> t - rs[r].now > window)
  {
    hide Accepted;
    var r := LastAccepted(rs, window, n);
    assert forall i :: 0 <= i < |rs| && rs[i].nonce == n && Accepted(rs, window, i) ==> i <= r && rs[i].now <= rs[r].now;
  }

  lemma PrefixAccepts(rs: seq<Request>, window: real, j: nat, i: nat)
    requires i < j <= |rs|
    ensures Accepted(rs[..j], window, i) == Accepted(rs, window, i)
  {
    assert rs[..j][..i] == rs[..i];
  }

  /** A request is refused exactly when the same nonce was accepted no more than a window before. */
  lemma RefusedExactlyWithinWindow(rs: seq<Request>, window: real, j: nat)
    requires Nondecreasing(rs) && j < |rs| && window >= 0.0
    ensures Accepted(rs, window, j) <==>
              forall i :: 0 <= i < j && rs[i].nonce == rs[j].nonce && Accepted(rs, window, i) ==>
                rs[j].now - rs[i].now > window
  {
    var n, front := rs[j].nonce, rs[..j];
    if j > 0 {
      LiveMeansRecentlyAccepted(front, window, n);
      LastDecides(front, window, n, rs[j].now);
      assert front[j - 1].now <= rs[j].now;
    }
    hide Live, LastAccepted;
    assert Accepted(rs, window, j) <==> !(n in Live(front, window) && rs[j].now - Live(front, window)[n] <= window);
    hide Accepted;
    forall i | 0 <= i < j {
      PrefixAccepts(rs, window, j, i);
    }
  }
}
