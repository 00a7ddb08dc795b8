/**
 The runs of the search loop: in which order entries are popped, and which
 routes are found before the limit stops it. The heap orders by cost and then by
 path; among entries that agree in both, any may be popped.

 A branch of the search tree is named by the positions of its links in the lists
 of their offices, so that two copies of one link make two branches.
 */
module RouteRuns {
  import opened Wrappers
  import opened Sorting
  import opened RouteSpace
  import opened RouteSearch

  // ------------------------------------------------------------ the order of the heap

  /** A heap pops an entry that is minimal by `(priority, path)`. */
  predicate EntryLeq(a: Entry, b: Entry) {
    if a.priority != b.priority then a.priority < b.priority else PathLeq(a.path, b.path)
  }

  predicate Sooner(a: Entry, b: Entry) {
    !EntryLeq(b, a)
  }

  lemma EntryOrderIsTotal()
    ensures TotalPreorder(EntryLeq)
  {
    PathLeqIsTotalPreorder();
    hide PathLeq;
  }

  lemma EntryLeqTransitive(a: Entry, b: Entry, c: Entry)
    ensures EntryLeq(a, a)
    ensures EntryLeq(a, b) && EntryLeq(b, c) ==> EntryLeq(a, c)
    ensures EntryLeq(a, b) && Sooner(b, c) ==> Sooner(a, c)
    ensures Sooner(a, b) && EntryLeq(b, c) ==> Sooner(a, c)
    ensures Sooner(a, b) ==> EntryLeq(a, b)
  {
    EntryOrderIsTotal();
    hide EntryLeq;
  }

  lemma EqualKeys(a: Entry, b: Entry)
    requires EntryLeq(a, b) && EntryLeq(b, a)
    ensures a.path == b.path
  {
    StrLeqIsTotalOrder();
    LexAntisymmetric(StrLeq, a.path, b.path);
  }

  // ------------------------------------------------------------ branches

  type Branch = seq<nat>

  /** The links at the given positions; a position that does not exist is passed over. */
  function LinksOn(g: Graph, q: Query, o: Branch): (links: seq<Link>)
    ensures |links| <= |o|
  {
    if o == [] then []
    else
      var before := LinksOn(g, q, Front(o));
      var out := Outgoing(g, Last(Offices(q.origin, before)));
      if Last(o) < |out| then before + [out[Last(o)]] else before
  }

  function EntryOn(g: Graph, q: Query, o: Branch): Entry {
    EntryAt(q, LinksOn(g, q, o))
  }

  /** All positions exist, and the search admits their links one after another. */
  ghost predicate OnTree(g: Graph, q: Query, o: Branch) {
    |LinksOn(g, q, o)| == |o| && Followed(g, q, LinksOn(g, q, o))
  }

  lemma {:induction false} LinksOnPrefix(g: Graph, q: Query, o: Branch, k: nat)
    requires |LinksOn(g, q, o)| == |o| && k <= |o|
    ensures LinksOn(g, q, o[..k]) == LinksOn(g, q, o)[..k]
  {
    if k == |o| {
      assert o[..k] == o;
    } else {
      assert Front(o)[..k] == o[..k];
      LinksOnPrefix(g, q, Front(o), k);
    }
  }

  lemma PrefixIsOnTree(g: Graph, q: Query, o: Branch, k: nat)
    requires OnTree(g, q, o) && k <= |o|
    ensures OnTree(g, q, o[..k]) && LinksOn(g, q, o[..k]) == LinksOn(g, q, o)[..k]
  {
    LinksOnPrefix(g, q, o, k);
    PrefixIsFollowed(g, q, LinksOn(g, q, o), k);
  }

  lemma LinksOnOneMore(g: Graph, q: Query, o: Branch, i: nat)
    ensures var out := Outgoing(g, Last(Offices(q.origin, LinksOn(g, q, o))));
            LinksOn(g, q, o + [i]) == LinksOn(g, q, o) + (if i < |out| then [out[i]] else [])
  {
    assert Front(o + [i]) == o && Last(o + [i]) == i;
  }

  lemma LastIsOutgoing(g: Graph, q: Query, links: seq<Link>)
    requires links != [] && Followed(g, q, links)
    ensures Followed(g, q, Front(links)) && Last(links) in Outgoing(g, Last(Offices(q.origin, Front(links))))
  {
    EntryAtMeaning(q, Front(links));
    hide Admits, EntryAt, Offices;
  }

  /** Followed links are the links of some branch, which may be chosen to share any start with a given one. */
  lemma {:induction false} BranchFor(g: Graph, q: Query, links: seq<Link>, o: Branch, n: nat) returns (b: Branch)
    requires Followed(g, q, links) && OnTree(g, q, o) && n <= |o| && n <= |links|
    requires LinksOn(g, q, o)[..n] == links[..n]
    ensures OnTree(g, q, b) && LinksOn(g, q, b) == links && b[..n] == o[..n]
    decreases |links|
  {
    hide LinksOn, Followed, Outgoing;
    if |links| == n {
      b := o[..n];
      PrefixIsOnTree(g, q, o, n);
      assert links[..n] == links;
    } else {
      var front := Front(links);
      assert front[..n] == links[..n];
      LastIsOutgoing(g, q, links);
      b := BranchFor(g, q, front, o, n);
      var out := Outgoing(g, Last(Offices(q.origin, front)));
      var i :| 0 <= i < |out| && out[i] == Last(links);
      LinksOnOneMore(g, q, b, i);
      assert front + [Last(links)] == links;
      assert (b + [i])[..n] == b[..n];
      b := b + [i];
    }
  }

  lemma SomeBranch(g: Graph, q: Query, links: seq<Link>) returns (b: Branch)
    requires Followed(g, q, links)
    ensures OnTree(g, q, b) && LinksOn(g, q, b) == links
  {
    assert OnTree(g, q, []);
    b := BranchFor(g, q, links, [], 0);
  }

  lemma BranchIsReached(g: Graph, q: Query, o: Branch)
    requires ValidGraph(g) && Eligible(g, q) && OnTree(g, q, o)
    ensures Reached(g, q, EntryOn(g, q, o)) && OnGraph(g, q, EntryOn(g, q, o))
  {
    ReachedIsOnGraph(g, q, EntryOn(g, q, o));
  }

  /** What the search accepts on its tree are the compliant routes. */
  lemma AcceptsTheCompliant(g: Graph, q: Query, e: Entry)
    requires ValidGraph(g) && Eligible(g, q) && Reached(g, q, e) && OnGraph(g, q, e)
    ensures Accepts(g, q, e) <==> Compliant(g, q, e.links)
  {
    TreeIsOnGraph(g, q);
    SubtreeIsComplete(g, q, e.links, 0);
    assert e.links[..0] == [];
    hide Subtree, Accepts, Compliant, Eligible, ValidGraph, OnGraph, Followed;
    SearchFindsExactlyTheCompliantRoutes(g, q, e.links);
  }

  lemma CompliantIsFollowed(g: Graph, q: Query, links: seq<Link>)
    requires ValidGraph(g) && Compliant(g, q, links)
    ensures Followed(g, q, links)
  {
    SearchFindsExactlyTheCompliantRoutes(g, q, links);
    TreeIsOnGraph(g, q);
    SubtreeIsSound(g, q, Root(q), EntryAt(q, links));
  }

  // ------------------------------------------------------------ runs

  /** What the heap holds: the branches that were pushed when they could be continued, and not yet popped. */
  ghost predicate Queued(g: Graph, q: Query, pops: seq<Branch>, o: Branch) {
    OnTree(g, q, o) && o !in pops && (o == [] || Front(o) in pops)
  }

  /** The routes found among the popped branches. */
  ghost function Found(g: Graph, q: Query, pops: seq<Branch>): seq<Entry> {
    if pops == [] then []
    else
      Found(g, q, Front(pops)) +
      (if Compliant(g, q, LinksOn(g, q, Last(pops))) then [EntryOn(g, q, Last(pops))] else [])
  }

  ghost predicate IsLeast(g: Graph, q: Query, pops: seq<Branch>, o: Branch) {
    && Queued(g, q, pops, o)
    && forall x :: Queued(g, q, pops, x) ==> EntryLeq(EntryOn(g, q, o), EntryOn(g, q, x))
  }

  /** The loop goes on below the limit, and each time pops an entry that the heap holds minimal. */
  ghost predicate IsRun(g: Graph, q: Query, limit: nat, pops: seq<Branch>) {
    pops == [] ||
    (&& IsRun(g, q, limit, Front(pops))
     && |Found(g, q, Front(pops))| < limit
     && IsLeast(g, q, Front(pops), Last(pops)))
  }

  ghost predicate Ended(g: Graph, q: Query, limit: nat, pops: seq<Branch>) {
    |Found(g, q, pops)| == limit || forall o :: !Queued(g, q, pops, o)
  }

  /** Some run of the search finds these routes in this order. */
  ghost predicate Finds(g: Graph, q: Query, limit: nat, found: seq<Entry>) {
    if Eligible(g, q) then
      exists pops :: IsRun(g, q, limit, pops) && Ended(g, q, limit, pops) && found == Found(g, q, pops)
    else found == []
  }

  lemma {:induction false} RunSoFar(g: Graph, q: Query, limit: nat, pops: seq<Branch>, k: nat)
    requires IsRun(g, q, limit, pops) && k <= |pops|
    ensures IsRun(g, q, limit, pops[..k])
    ensures k < |pops| ==> |Found(g, q, pops[..k])| < limit && IsLeast(g, q, pops[..k], pops[k])
  {
    hide IsLeast, Found;
    if k == |pops| {
      assert pops[..k] == pops;
    } else {
      assert Front(pops)[..k] == pops[..k];
      RunSoFar(g, q, limit, Front(pops), k);
    }
  }

  lemma PopIsNew(g: Graph, q: Query, limit: nat, pops: seq<Branch>, i: nat)
    requires IsRun(g, q, limit, pops) && i < |pops|
    ensures OnTree(g, q, pops[i]) && pops[i] !in pops[..i]
  {
    RunSoFar(g, q, limit, pops, i);
  }

  lemma PoppedOnce(g: Graph, q: Query, limit: nat, pops: seq<Branch>, i: nat, j: nat)
    requires IsRun(g, q, limit, pops) && i < j < |pops|
    ensures pops[i] != pops[j]
  {
    PopIsNew(g, q, limit, pops, j);
    assert pops[i] == pops[..j][i];
  }

  /** What leads to a popped branch was popped before it. */
  lemma {:induction false} LeadWasPopped(g: Graph, q: Query, limit: nat, pops: seq<Branch>, i: nat, k: nat)
    requires IsRun(g, q, limit, pops) && i < |pops| && k < |pops[i]|
    ensures pops[i][..k] in pops[..i]
    decreases i
  {
    hide IsRun, OnTree;
    RunSoFar(g, q, limit, pops, i);
    var o := pops[i];
    assert Front(o) in pops[..i];
    var j :| 0 <= j < i && pops[j] == Front(o);
    if k == |o| - 1 {
      assert o[..k] == Front(o);
    } else {
      LeadWasPopped(g, q, limit, pops, j, k);
      assert Front(o)[..k] == o[..k];
      assert pops[..j] <= pops[..i];
    }
  }

  /** On the way from a popped branch to one that is not, something is queued. */
  lemma {:induction false} SomethingIsQueued(g: Graph, q: Query, pops: seq<Branch>, o: Branch, n: nat) returns (j: nat)
    requires OnTree(g, q, o) && n < |o| && o[..n] in pops && o !in pops
    ensures n < j <= |o| && Queued(g, q, pops, o[..j])
    decreases |o| - n
  {
    hide OnTree;
    if o[..n + 1] in pops {
      assert o[..|o|] == o;
      j := SomethingIsQueued(g, q, pops, o, n + 1);
    } else {
      j := n + 1;
      assert Front(o[..j]) == o[..n];
      PrefixIsOnTree(g, q, o, j);
    }
  }

  lemma EverythingWasPopped(g: Graph, q: Query, pops: seq<Branch>, o: Branch)
    requires OnTree(g, q, o) && forall x :: !Queued(g, q, pops, x)
    ensures o in pops
  {
    assert OnTree(g, q, []);
    assert !Queued(g, q, pops, []);
    assert o[..0] == [];
    if o !in pops {
      var j := SomethingIsQueued(g, q, pops, o, 0);
    }
  }

  // ------------------------------------------------------------ what has to be climbed

  /** How far two lists agree. */
  function Parting<T(==)>(a: seq<T>, b: seq<T>): (n: nat)
    ensures n <= |a| && n <= |b| && a[..n] == b[..n]
    ensures n < |a| && n < |b| ==> a[n] != b[n]
  {
    if a == [] || b == [] || a[0] != b[0] then 0
    else
      var n := Parting(a[1..], b[1..]);
      assert a == [a[0]] + a[1..] && b == [b[0]] + b[1..];
      assert a[..n + 1] == [a[0]] + a[1..][..n] && b[..n + 1] == [b[0]] + b[1..][..n];
      n + 1
  }

  lemma PartingIs<T>(a: seq<T>, b: seq<T>, n: nat)
    requires n < |a| && n < |b| && a[..n] == b[..n] && a[n] != b[n]
    ensures Parting(a, b) == n
  {}

  lemma PartingIsSymmetric<T>(a: seq<T>, b: seq<T>)
    requires Parting(a, b) < |a| && Parting(a, b) < |b|
    ensures Parting(b, a) == Parting(a, b)
  {
    PartingIs(b, a, Parting(a, b));
  }

  /** Where a route is at its highest, by the order of the heap, after its first `n` links. */
  function SummitAt(q: Query, links: seq<Link>, n: nat): (m: nat)
    ensures m <= |links| && (n < |links| ==> n < m)
  {
    if |links| <= n + 1 then |links|
    else
      var m := SummitAt(q, Front(links), n);
      if EntryLeq(EntryAt(q, links), EntryAt(q, links[..m])) then m else |links|
  }

  function Summit(q: Query, links: seq<Link>, n: nat): Entry {
    EntryAt(q, links[..SummitAt(q, links, n)])
  }

  lemma DifferentLengthsDiffer(q: Query, a: seq<Link>, b: seq<Link>)
    requires |a| != |b|
    ensures Sooner(EntryAt(q, a), EntryAt(q, b)) || Sooner(EntryAt(q, b), EntryAt(q, a))
  {
    EntryAtMeaning(q, a);
    EntryAtMeaning(q, b);
    hide EntryAt, EntryLeq;
    if EntryLeq(EntryAt(q, a), EntryAt(q, b)) && EntryLeq(EntryAt(q, b), EntryAt(q, a)) {
      EqualKeys(EntryAt(q, a), EntryAt(q, b));
    }
  }

  /** Everything else on the way is lower, and strictly so, since paths on one way have different lengths. */
  lemma {:induction false} SummitIsHighest(q: Query, links: seq<Link>, n: nat, k: nat)
    requires n < k <= |links|
    ensures EntryLeq(EntryAt(q, links[..k]), Summit(q, links, n))
    ensures k != SummitAt(q, links, n) ==> Sooner(EntryAt(q, links[..k]), Summit(q, links, n))
  {
    hide EntryLeq, EntryAt;
    var last := EntryAt(q, links);
    assert links[..|links|] == links;
    EntryLeqTransitive(last, last, last);
    if |links| > n + 1 {
      var front := Front(links);
      var m := SummitAt(q, front, n);
      assert links[..m] == front[..m];
      var before := EntryAt(q, links[..m]);
      EntryLeqTransitive(before, before, before);
      DifferentLengthsDiffer(q, links, links[..m]);
      EntryLeqTransitive(last, before, last);
      EntryLeqTransitive(before, last, before);
      if k < |links| {
        assert links[..k] == front[..k];
        SummitIsHighest(q, front, n, k);
        EntryLeqTransitive(EntryAt(q, links[..k]), before, last);
      }
    }
  }

  /** A common stretch does not change which of two routes climbs higher. */
  lemma {:induction false} SummitFromEarlier(q: Query, a: seq<Link>, b: seq<Link>, p: nat, n: nat)
    requires p <= n < |a| && n < |b| && a[..n] == b[..n]
    requires EntryLeq(Summit(q, a, n), Summit(q, b, n))
    ensures EntryLeq(Summit(q, a, p), Summit(q, b, p))
  {
    hide EntryLeq, EntryAt;
    var k := SummitAt(q, a, p);
    var m := SummitAt(q, b, n);
    SummitIsHighest(q, b, p, m);
    if k <= n {
      assert a[..k] == a[..n][..k] == b[..n][..k] == b[..k];
      SummitIsHighest(q, b, p, k);
    } else {
      SummitIsHighest(q, a, n, k);
      EntryLeqTransitive(Summit(q, a, p), Summit(q, a, n), Summit(q, b, n));
      EntryLeqTransitive(Summit(q, a, p), Summit(q, b, n), Summit(q, b, p));
    }
  }

  /** The first route always comes first: beyond the point where they part, it does not climb as high. */
  predicate ComesFirst(q: Query, a: seq<Link>, b: seq<Link>) {
    var n := Parting(a, b);
    Sooner(Summit(q, a, n), Summit(q, b, n))
  }

  // ------------------------------------------------------------ the order of pops

  function Top(g: Graph, q: Query, o: Branch, n: nat): Branch {
    o[..SummitAt(q, LinksOn(g, q, o), n)]
  }

  /** Which of two branches is complete first, if ties of the heap go to the lower rank. */
  predicate Before(g: Graph, q: Query, rank: Branch -> nat, a: Branch, b: Branch) {
    var n := Parting(a, b);
    var x, y := Top(g, q, a, n), Top(g, q, b, n);
    || Sooner(EntryOn(g, q, x), EntryOn(g, q, y))
    || (EntryLeq(EntryOn(g, q, x), EntryOn(g, q, y)) && rank(x) < rank(y))
  }

  /** Ties of the heap go to the lower rank. */
  ghost predicate Ranked(g: Graph, q: Query, rank: Branch -> nat, pops: seq<Branch>) {
    forall i, o :: 0 <= i < |pops| && Queued(g, q, pops[..i], o) && EntryLeq(EntryOn(g, q, o), EntryOn(g, q, pops[i])) ==>
      rank(pops[i]) <= rank(o)
  }

  /** Where a branch was popped, or the length of the run if it was not. */
  function PositionIn(pops: seq<Branch>, o: Branch): (i: nat)
    ensures i <= |pops|
    ensures i < |pops| ==> pops[i] == o
    ensures o !in pops[..i]
    ensures i == |pops| ==> o !in pops
  {
    if pops == [] then 0
    else
      var i := PositionIn(Front(pops), o);
      assert pops == Front(pops) + [Last(pops)];
      assert pops[..i] == Front(pops)[..i];
      if i < |pops| - 1 || Last(pops) == o then i
      else assert pops[..i + 1] == pops; i + 1
  }

  function Position(pops: seq<Branch>): Branch -> nat {
    o => PositionIn(pops, o)
  }

  lemma TopMeaning(g: Graph, q: Query, o: Branch, n: nat, k: nat)
    requires OnTree(g, q, o) && n < k <= |o|
    ensures var x := Top(g, q, o, n);
            && n < |x| <= |o| && x == o[..|x|] && OnTree(g, q, x) && EntryOn(g, q, x) == Summit(q, LinksOn(g, q, o), n)
            && EntryLeq(EntryOn(g, q, o[..k]), EntryOn(g, q, x))
            && (k != |x| ==> Sooner(EntryOn(g, q, o[..k]), EntryOn(g, q, x)))
  {
    var links := LinksOn(g, q, o);
    PrefixIsOnTree(g, q, o, k);
    PrefixIsOnTree(g, q, o, SummitAt(q, links, n));
    SummitIsHighest(q, links, n, k);
    hide EntryLeq, EntryAt, SummitAt, LinksOn, Followed;
  }

  /** If the summit of the other branch was popped first, all the rest of that branch would have followed. */
  lemma OvertakenAtTheTop(g: Graph, q: Query, limit: nat, pops: seq<Branch>, k: nat, b: Branch, n: nat)
    requires IsRun(g, q, limit, pops) && k < |pops| && OnTree(g, q, b) && n < |b|
    requires Top(g, q, b, n) in pops[..k] && b !in pops[..k]
    ensures Sooner(EntryOn(g, q, pops[k]), EntryOn(g, q, Top(g, q, b, n)))
  {
    hide EntryLeq, EntryOn, OnTree, IsRun, LinksOn;
    var y := Top(g, q, b, n);
    RunSoFar(g, q, limit, pops, k);
    TopMeaning(g, q, b, n, |b|);
    assert b[..|b|] == b && y == b[..|y|];
    var j := SomethingIsQueued(g, q, pops[..k], b, |y|);
    TopMeaning(g, q, b, n, j);
    EntryLeqTransitive(EntryOn(g, q, pops[k]), EntryOn(g, q, b[..j]), EntryOn(g, q, y));
  }

  /** If the summit of the other branch is still to come, it is no lower. */
  lemma AheadOfTheTop(g: Graph, q: Query, limit: nat, pops: seq<Branch>, k: nat, b: Branch, n: nat)
    requires IsRun(g, q, limit, pops) && k < |pops| && OnTree(g, q, b) && n < |b|
    requires n < |pops[k]| && pops[k][..n] == b[..n] && Top(g, q, b, n) !in pops[..k]
    ensures EntryLeq(EntryOn(g, q, pops[k]), EntryOn(g, q, Top(g, q, b, n)))
  {
    hide EntryLeq, EntryOn, OnTree, IsRun, LinksOn;
    var y := Top(g, q, b, n);
    RunSoFar(g, q, limit, pops, k);
    TopMeaning(g, q, b, n, |b|);
    LeadWasPopped(g, q, limit, pops, k, n);
    assert y[..n] == b[..n];
    var j := SomethingIsQueued(g, q, pops[..k], y, n);
    assert y[..j] == b[..j];
    TopMeaning(g, q, b, n, j);
    EntryLeqTransitive(EntryOn(g, q, pops[k]), EntryOn(g, q, b[..j]), EntryOn(g, q, y));
  }

  lemma TopsDiffer(g: Graph, q: Query, a: Branch, b: Branch)
    requires OnTree(g, q, a) && OnTree(g, q, b) && Parting(a, b) < |a| && Parting(a, b) < |b|
    ensures var n := Parting(a, b);
            var x, y := Top(g, q, a, n), Top(g, q, b, n);
            && n < |x| && n < |y| && x[..n] == a[..n] == b[..n] == y[..n] && x != y
  {
    hide EntryLeq, EntryOn, OnTree, LinksOn;
    var n := Parting(a, b);
    TopMeaning(g, q, a, n, |a|);
    TopMeaning(g, q, b, n, |b|);
    assert Top(g, q, a, n)[n] == a[n] && Top(g, q, b, n)[n] == b[n];
  }

  /** If one branch is popped and another is not, the first comes before it under the order of the run. */
  lemma PoppedBefore(g: Graph, q: Query, limit: nat, pops: seq<Branch>, a: Branch, b: Branch)
    requires IsRun(g, q, limit, pops) && a in pops && OnTree(g, q, b) && b !in pops
    requires Parting(a, b) < |a| && Parting(a, b) < |b|
    ensures Before(g, q, Position(pops), a, b)
  {
    hide EntryLeq, EntryOn, OnTree, IsRun, LinksOn, Sooner, Top, Parting;
    var n := Parting(a, b);
    var x, y := Top(g, q, a, n), Top(g, q, b, n);
    var k := TopWasPopped(g, q, limit, pops, a, n);
    NotPoppedSoFar(pops, k, b);
    if y in pops[..k] {
      OvertakenAtTheTop(g, q, limit, pops, k, b, n);
    } else {
      TopsDiffer(g, q, a, b);
      AheadOfTheTop(g, q, limit, pops, k, b, n);
      PositionOf(g, q, limit, pops, k);
      PositionAfter(pops, k, y);
      hide PositionIn;
    }
  }

  lemma NotPoppedSoFar(pops: seq<Branch>, k: nat, b: Branch)
    requires k <= |pops| && b !in pops
    ensures b !in pops[..k]
  {}

  lemma TopWasPopped(g: Graph, q: Query, limit: nat, pops: seq<Branch>, a: Branch, n: nat) returns (k: nat)
    requires IsRun(g, q, limit, pops) && a in pops && n < |a|
    ensures OnTree(g, q, a) && k < |pops| && pops[k] == Top(g, q, a, n)
  {
    hide IsRun, OnTree, EntryOn, EntryLeq;
    var i :| 0 <= i < |pops| && pops[i] == a;
    PopIsNew(g, q, limit, pops, i);
    TopMeaning(g, q, a, n, |a|);
    var x := Top(g, q, a, n);
    if |x| < |a| {
      LeadWasPopped(g, q, limit, pops, i, |x|);
      k :| 0 <= k < i && pops[k] == x;
    } else {
      assert x == a;
      k := i;
    }
  }

  lemma PositionOf(g: Graph, q: Query, limit: nat, pops: seq<Branch>, k: nat)
    requires IsRun(g, q, limit, pops) && k < |pops|
    ensures PositionIn(pops, pops[k]) == k
  {
    var i := PositionIn(pops, pops[k]);
    if i < k {
      PoppedOnce(g, q, limit, pops, i, k);
    }
  }

  lemma PositionAfter(pops: seq<Branch>, k: nat, y: Branch)
    requires k < |pops| && y !in pops[..k] && y != pops[k]
    ensures PositionIn(pops, y) > k
  {}

  /** Two orders can disagree only on ties. */
  lemma OrdersDisagreeOnTies(g: Graph, q: Query, rank: Branch -> nat, other: Branch -> nat, a: Branch, b: Branch)
    requires Parting(a, b) < |a| && Parting(a, b) < |b|
    requires Before(g, q, rank, a, b) && Before(g, q, other, b, a)
    ensures var n := Parting(a, b);
            var x, y := Top(g, q, a, n), Top(g, q, b, n);
            EntryLeq(EntryOn(g, q, x), EntryOn(g, q, y)) && rank(x) < rank(y) && other(y) < other(x)
  {
    PartingIsSymmetric(a, b);
    var n := Parting(a, b);
    hide Parting, Top;
    var d, e := EntryOn(g, q, Top(g, q, a, n)), EntryOn(g, q, Top(g, q, b, n));
    EntryLeqTransitive(d, e, d);
    EntryLeqTransitive(e, d, e);
    hide EntryLeq, EntryOn;
  }

  /** In a run that breaks ties by rank, no branch is popped ahead of one that comes before it. */
  lemma RankedRunsKeepTheOrder(g: Graph, q: Query, limit: nat, rank: Branch -> nat, pops: seq<Branch>, a: Branch, b: Branch)
    requires IsRun(g, q, limit, pops) && Ranked(g, q, rank, pops)
    requires OnTree(g, q, a) && b in pops && Before(g, q, rank, a, b)
    requires Parting(a, b) < |a| && Parting(a, b) < |b|
    ensures a in pops
  {
    hide EntryLeq, EntryOn, OnTree, IsRun, LinksOn, Top, Parting, PositionIn, Before;
    if a !in pops {
      var n := Parting(a, b);
      PartingIsSymmetric(a, b);
      PoppedBefore(g, q, limit, pops, b, a);
      OrdersDisagreeOnTies(g, q, rank, Position(pops), a, b);
      var x, y := Top(g, q, a, n), Top(g, q, b, n);
      var k := TopWasPopped(g, q, limit, pops, b, n);
      PositionOf(g, q, limit, pops, k);
      NotYetPopped(pops, k, x);
      TopIsQueued(g, q, limit, pops, k, a, b, n);
      assert false;
    }
  }

  lemma NotYetPopped(pops: seq<Branch>, k: nat, x: Branch)
    requires k < |pops| && PositionIn(pops, x) > k
    ensures x !in pops[..k]
  {
    var i := PositionIn(pops, x);
    assert pops[..i][..k] == pops[..k];
  }

  /** When the other branch is at its summit, which is no higher than the one of `a`, that one is in the queue. */
  lemma TopIsQueued(g: Graph, q: Query, limit: nat, pops: seq<Branch>, k: nat, a: Branch, b: Branch, n: nat)
    requires IsRun(g, q, limit, pops) && k < |pops| && pops[k] == Top(g, q, b, n) && OnTree(g, q, a) && OnTree(g, q, b)
    requires n < |a| && n < |b| && a[..n] == b[..n] && Top(g, q, a, n) !in pops[..k]
    requires EntryLeq(EntryOn(g, q, Top(g, q, a, n)), EntryOn(g, q, pops[k]))
    ensures Queued(g, q, pops[..k], Top(g, q, a, n))
  {
    hide EntryLeq, EntryOn, OnTree, IsRun, LinksOn;
    var x, y := Top(g, q, a, n), pops[k];
    TopMeaning(g, q, a, n, |a|);
    TopMeaning(g, q, b, n, |b|);
    RunSoFar(g, q, limit, pops, k);
    LeadWasPopped(g, q, limit, pops, k, n);
    assert x[..n] == a[..n] && y[..n] == b[..n];
    var j := SomethingIsQueued(g, q, pops[..k], x, n);
    assert x[..j] == a[..j];
    TopMeaning(g, q, a, n, j);
    EntryLeqTransitive(EntryOn(g, q, x), EntryOn(g, q, y), EntryOn(g, q, x[..j]));
    assert x[..|x|] == x;
  }
}
