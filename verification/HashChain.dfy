/**
 Append-only hash chains: the knowledge ledger, the review log and the office
 audit all link each row to the digest of the row before it and are audited
 by one and the same walk.

 A digest is ideal: it stands for the content and the link it was taken of.
 */
module HashChain {
  import opened Wrappers

  datatype Digest<+C> = DigestOf(content: C, previous: Option<Digest<C>>)

  /** A stored row; its hash field may be missing or wrong. */
  datatype Link<+C> = Link(content: C, previous: Option<Digest<C>>, hash: Option<Digest<C>>)

  datatype Gap = PreviousMismatch(row: nat) | HashMismatch(row: nat)

  /** What a writer takes as the previous hash: the last hash that is present. */
  function LatestHash<C>(rows: seq<Link<C>>): Option<Digest<C>> {
    if rows == [] then None
    else
      var n := |rows| - 1;
      if rows[n].hash.Some? then rows[n].hash else LatestHash(rows[..n])
  }

  /** What a verifier takes as the previous hash: whatever the last row carries. */
  function LastHash<C>(rows: seq<Link<C>>): Option<Digest<C>> {
    if rows == [] then None else rows[|rows| - 1].hash
  }

  function NextLink<C>(rows: seq<Link<C>>, content: C): Link<C> {
    Link(content, LatestHash(rows), Some(DigestOf(content, LatestHash(rows))))
  }

  function Appended<C>(rows: seq<Link<C>>, content: C): seq<Link<C>> {
    rows + [NextLink(rows, content)]
  }

  function GapsAt<C(==)>(rows: seq<Link<C>>, i: nat): seq<Gap>
    requires i < |rows|
  {
    (if rows[i].previous != LastHash(rows[..i]) then [PreviousMismatch(i)] else [])
    + (if rows[i].hash != Some(DigestOf(rows[i].content, rows[i].previous)) then [HashMismatch(i)] else [])
  }

  function Gaps<C(==)>(rows: seq<Link<C>>): seq<Gap> {
    if rows == [] then [] else Gaps(rows[..|rows| - 1]) + GapsAt(rows, |rows| - 1)
  }

  /** The verifiers' loop: one pass with the previous hash in a variable and a growing list of gaps. */
  method VerifyChain<C(==)>(rows: seq<Link<C>>) returns (gaps: seq<Gap>)
    ensures gaps == Gaps(rows)
  {
    gaps := [];
    var previous: Option<Digest<C>> := None;
    for i := 0 to |rows|
      invariant gaps == Gaps(rows[..i]) && previous == LastHash(rows[..i])
    {
      assert rows[..i + 1][..i] == rows[..i];
      if rows[i].previous != previous {
        gaps := gaps + [PreviousMismatch(i)];
      }
      if rows[i].hash != Some(DigestOf(rows[i].content, rows[i].previous)) {
        gaps := gaps + [HashMismatch(i)];
      }
      assert gaps == Gaps(rows[..i]) + GapsAt(rows[..i + 1], i);
      previous := rows[i].hash;
    }
    assert rows[..|rows|] == rows;
  }

  // ------------------------------------------------------------ what writers keep

  /** The writer's previous hash and the verifier's agree. */
  predicate InStep<C(==)>(rows: seq<Link<C>>) {
    rows == [] || rows[|rows| - 1].hash.Some? || forall i :: 0 <= i < |rows| ==> rows[i].hash == None
  }

  lemma {:induction false} NoHashesNoLatest<C>(rows: seq<Link<C>>)
    ensures LatestHash(rows) == None <==> forall i :: 0 <= i < |rows| ==> rows[i].hash == None
  {
    if rows != [] {
      NoHashesNoLatest(rows[..|rows| - 1]);
    }
  }

  /** An appended row is free of gaps exactly when the last row has a hash or no row has one. */
  lemma AppendingAddsNoGap<C>(rows: seq<Link<C>>, content: C)
    ensures Gaps(Appended(rows, content)) == Gaps(rows) <==> InStep(rows)
    ensures InStep(Appended(rows, content))
  {
    var all := Appended(rows, content);
    assert all[..|rows|] == rows;
    NoHashesNoLatest(rows);
    assert InStep(rows) <==> LatestHash(rows) == LastHash(rows);
    assert Gaps(all) == Gaps(rows) + GapsAt(all, |rows|);
  }

  // ------------------------------------------------------------ what the verifier's answer is worth

  lemma {:induction false} PrefixesHaveFewerGaps<C>(rows: seq<Link<C>>, k: nat)
    requires k <= |rows|
    ensures Gaps(rows[..k]) <= Gaps(rows)
    decreases |rows| - k
  {
    if k < |rows| {
      assert rows[..k + 1][..k] == rows[..k];
      PrefixesHaveFewerGaps(rows, k + 1);
    } else {
      assert rows[..k] == rows;
    }
  }

  /** Tamper evidence: two chains without gaps that end in the same hash are the same chain, row for row. */
  lemma {:induction false} LastHashFixesTheChain<C>(a: seq<Link<C>>, b: seq<Link<C>>)
    requires Gaps(a) == [] && Gaps(b) == [] && LastHash(a) == LastHash(b)
    ensures a == b
    decreases |a|
  {
    if a != [] && b != [] {
      var m, n := |a| - 1, |b| - 1;
      assert GapsAt(a, m) == [] && GapsAt(b, n) == [];
      assert a[m] == b[n];
      LastHashFixesTheChain(a[..m], b[..n]);
      assert a == a[..m] + [a[m]] && b == b[..n] + [b[n]];
    }
  }

  /** Any change inside a chain without gaps is reported, unless the final hash changes with it. */
  lemma TamperingIsReported<C>(original: seq<Link<C>>, changed: seq<Link<C>>)
    requires Gaps(original) == [] && changed != original && LastHash(changed) == LastHash(original)
    ensures Gaps(changed) != []
  {
    if Gaps(changed) == [] {
      LastHashFixesTheChain(original, changed);
    }
  }
}
