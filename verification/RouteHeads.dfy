/**
 Ranking against searching: candidates are ranked by score, but the search stops
 at a limit and finds them by what they cost. When it finds the cheapest routes,
 and when the head of its answer is sure to be the best route, exactly.
 */
module RouteHeads {
  import opened Wrappers
  import opened Sorting
  import opened RouteSpace
  import opened RouteSearch
  import opened RouteRuns
  import opened RouteLoop

  // ------------------------------------------------------------ routes as branches

  /** No compliant route continues another: each ends where it first arrives. */
  lemma CompliantRoutesPart(g: Graph, q: Query, a: seq<Link>, b: seq<Link>)
    requires Compliant(g, q, a) && Compliant(g, q, b) && a != b
    ensures Parting(a, b) < |a| && Parting(a, b) < |b|
  {
    hide Eligible, TrustedWalk, CapableWalk, WithinLatency;
    var n := Parting(a, b);
    assert a[..|a|] == a && b[..|b|] == b;
    if n == |a| {
      ArrivesOnce(q, a, b);
    } else if n == |b| {
      ArrivesOnce(q, b, a);
    }
  }

  lemma ArrivesOnce(q: Query, a: seq<Link>, b: seq<Link>)
    requires a <= b && Distinct(Offices(q.origin, b))
    requires Last(Offices(q.origin, a)) == q.destination == Last(Offices(q.origin, b))
    ensures a == b
  {
    var p, r := Offices(q.origin, a), Offices(q.origin, b);
    assert p[|a|] == r[|a|];
    assert r[|b|] == q.destination;
  }

  lemma PartsLater<T>(a: seq<T>, b: seq<T>, p: nat)
    requires p <= |a| && p <= |b| && a[..p] == b[..p]
    ensures Parting(a, b) >= p
  {}

  lemma BranchesOfRoutesPart(g: Graph, q: Query, a: Branch, b: Branch)
    requires OnTree(g, q, a) && OnTree(g, q, b) && LinksOn(g, q, a) != LinksOn(g, q, b)
    requires Compliant(g, q, LinksOn(g, q, a)) && Compliant(g, q, LinksOn(g, q, b))
    ensures Parting(a, b) <= Parting(LinksOn(g, q, a), LinksOn(g, q, b))
    ensures Parting(a, b) < |a| && Parting(a, b) < |b|
  {
    CompliantRoutesPart(g, q, LinksOn(g, q, a), LinksOn(g, q, b));
    var p := Parting(a, b);
    LinksOnPrefix(g, q, a, p);
    LinksOnPrefix(g, q, b, p);
    hide Compliant, LinksOn, Followed;
    PartsLater(LinksOn(g, q, a), LinksOn(g, q, b), p);
  }

  lemma SameLength(g: Graph, q: Query, a: Branch)
    requires OnTree(g, q, a)
    ensures |LinksOn(g, q, a)| == |a|
  {}

  /** A branch of one route that leaves a branch of another only where the routes part. */
  lemma BranchBeside(g: Graph, q: Query, a: Branch, links: seq<Link>) returns (b: Branch)
    requires ValidGraph(g) && OnTree(g, q, a) && Compliant(g, q, LinksOn(g, q, a)) && Compliant(g, q, links)
    requires LinksOn(g, q, a) != links
    ensures OnTree(g, q, b) && LinksOn(g, q, b) == links
    ensures Parting(a, b) == Parting(LinksOn(g, q, a), links)
    ensures Parting(a, b) < |a| && Parting(a, b) < |b|
  {
    CompliantIsFollowed(g, q, links);
    CompliantRoutesPart(g, q, LinksOn(g, q, a), links);
    hide Compliant, Followed, ValidGraph, LinksOn, OnTree;
    var n := Parting(LinksOn(g, q, a), links);
    assert n < |a| && |LinksOn(g, q, a)| == |a| by { SameLength(g, q, a); }
    b := BranchFor(g, q, links, a, n);
    SameLength(g, q, b);
    assert a[n] != b[n] by {
      SamePositionSameLink(g, q, a, b, n);
      hide Parting;
    }
    PartingIs(a, b, n);
  }

  lemma SamePositionSameLink(g: Graph, q: Query, a: Branch, b: Branch, n: nat)
    requires OnTree(g, q, a) && OnTree(g, q, b) && n < |a| && n < |b| && a[..n] == b[..n]
    ensures a[n] == b[n] ==> LinksOn(g, q, a)[n] == LinksOn(g, q, b)[n]
  {
    SameLength(g, q, a);
    SameLength(g, q, b);
    hide LinksOn, OnTree;
    LinksOnPrefix(g, q, a, n + 1);
    LinksOnPrefix(g, q, b, n + 1);
    if a[n] == b[n] {
      SamePrefix(a, b, n);
      assert LinksOn(g, q, a)[..n + 1][n] == LinksOn(g, q, b)[..n + 1][n];
    }
  }

  lemma SamePrefix<T>(a: seq<T>, b: seq<T>, n: nat)
    requires n < |a| && n < |b| && a[..n] == b[..n] && a[n] == b[n]
    ensures a[..n + 1] == b[..n + 1]
  {
    assert a[..n + 1] == a[..n] + [a[n]] && b[..n + 1] == b[..n] + [b[n]];
  }

  lemma {:induction false} FoundOnBranch(g: Graph, q: Query, pops: seq<Branch>, e: Entry) returns (o: Branch)
    requires e in Found(g, q, pops)
    ensures o in pops && Compliant(g, q, LinksOn(g, q, o)) && e == EntryOn(g, q, o)
  {
    hide Compliant, LinksOn, EntryOn;
    o := Last(pops);
    if !(Compliant(g, q, LinksOn(g, q, o)) && e == EntryOn(g, q, o)) {
      o := FoundOnBranch(g, q, Front(pops), e);
    }
  }

  lemma {:induction false} BranchIsFound(g: Graph, q: Query, pops: seq<Branch>, o: Branch)
    requires o in pops && Compliant(g, q, LinksOn(g, q, o))
    ensures EntryOn(g, q, o) in Found(g, q, pops)
  {
    hide Compliant, LinksOn, EntryOn;
    if o != Last(pops) {
      assert pops == Front(pops) + [Last(pops)];
      BranchIsFound(g, q, Front(pops), o);
    }
  }

  /** A found route beyond the point where it parts from a route that was not found climbs no higher. */
  lemma FoundClimbsNoHigher(g: Graph, q: Query, limit: nat, pops: seq<Branch>, a: Branch, links: seq<Link>)
    requires ValidGraph(g) && IsRun(g, q, limit, pops) && a in pops && Compliant(g, q, LinksOn(g, q, a))
    requires Compliant(g, q, links) && EntryAt(q, links) !in Found(g, q, pops)
    ensures !ComesFirst(q, links, LinksOn(g, q, a))
  {
    hide Compliant, IsRun, LinksOn, Found, ValidGraph, EntryAt, EntryLeq, Summit, Followed;
    var k :| 0 <= k < |pops| && pops[k] == a;
    PopIsNew(g, q, limit, pops, k);
    BranchIsFound(g, q, pops, a);
    assert LinksOn(g, q, a) != links;
    var b := BranchBeside(g, q, a, links);
    if b in pops {
      BranchIsFound(g, q, pops, b);
    }
    PoppedBefore(g, q, limit, pops, a, b);
    var n := Parting(a, b);
    TopMeaning(g, q, a, n, |a|);
    TopMeaning(g, q, b, n, |b|);
    PartingIsSymmetric(LinksOn(g, q, a), links);
    EntryLeqTransitive(Summit(q, LinksOn(g, q, a), n), Summit(q, links, n), Summit(q, links, n));
  }

  /** Breaks ties in favour of everything that leads to one branch. */
  function Favouring(o: Branch): Branch -> nat {
    (x: Branch) => if x <= o then 0 else 1
  }

  /** If a route climbs no higher than another beyond the point where they part, a favoured branch of it comes first. */
  lemma FavouredComesBefore(g: Graph, q: Query, a: Branch, b: Branch)
    requires OnTree(g, q, a) && OnTree(g, q, b) && LinksOn(g, q, a) != LinksOn(g, q, b)
    requires Compliant(g, q, LinksOn(g, q, a)) && Compliant(g, q, LinksOn(g, q, b))
    requires !ComesFirst(q, LinksOn(g, q, b), LinksOn(g, q, a))
    ensures Before(g, q, Favouring(a), a, b)
  {
    var l, m := LinksOn(g, q, a), LinksOn(g, q, b);
    CompliantRoutesPart(g, q, l, m);
    BranchesOfRoutesPart(g, q, a, b);
    hide Compliant, LinksOn, Followed, EntryAt, EntryLeq, Summit, Parting;
    PartingIsSymmetric(l, m);
    var p := Parting(a, b);
    SummitFromEarlier(q, l, m, p, Parting(l, m));
    TopMeaning(g, q, a, p, |a|);
    TopMeaning(g, q, b, p, |b|);
    TopsDiffer(g, q, a, b);
    NotOnTheWay(g, q, a, b);
  }

  lemma NotOnTheWay(g: Graph, q: Query, a: Branch, b: Branch)
    requires OnTree(g, q, a) && OnTree(g, q, b) && Parting(a, b) < |a| && Parting(a, b) < |b|
    ensures Top(g, q, a, Parting(a, b)) <= a && !(Top(g, q, b, Parting(a, b)) <= a)
  {
    hide OnTree, EntryOn, EntryLeq, LinksOn;
    var n := Parting(a, b);
    TopMeaning(g, q, a, n, |a|);
    TopMeaning(g, q, b, n, |b|);
    assert Top(g, q, b, n)[n] == b[n] != a[n];
  }

  lemma {:induction false} RunToLimit(g: Graph, q: Query, limit: nat, pops: seq<Branch>, less: nat)
    requires IsRun(g, q, limit, pops) && (pops == [] || |Found(g, q, Front(pops))| < less)
    ensures IsRun(g, q, less, pops)
  {
    hide IsLeast, Compliant;
    if pops != [] && Front(pops) != [] {
      assert |Found(g, q, Front(Front(pops)))| <= |Found(g, q, Front(pops))|;
    }
    if pops != [] {
      RunToLimit(g, q, limit, Front(pops), less);
    }
  }

  lemma RankedSoFar(g: Graph, q: Query, rank: Branch -> nat, pops: seq<Branch>, k: nat)
    requires Ranked(g, q, rank, pops) && k <= |pops|
    ensures Ranked(g, q, rank, pops[..k])
  {
    hide Queued, EntryOn, EntryLeq;
    assert forall i :: 0 <= i < k ==> pops[..k][..i] == pops[..i];
  }

  // ------------------------------------------------------------ when the search is cheapest-first

  /** In every run at every limit, no compliant route that is not found is cheaper than a found one. */
  ghost predicate AlwaysCheapest(g: Graph, q: Query) {
    forall limit: nat, found: seq<Entry>, f: Entry, links: seq<Link> ::
      limit >= 1 && Finds(g, q, limit, found) && f in found && Compliant(g, q, links) && EntryAt(q, links) !in found ==>
        RouteCost(f.links) <= RouteCost(links)
  }

  /** A cheaper compliant route climbs lower, beyond the point where the routes part. */
  ghost predicate CheaperComesFirst(g: Graph, q: Query) {
    forall a, b :: Compliant(g, q, a) && Compliant(g, q, b) && RouteCost(b) < RouteCost(a) ==> ComesFirst(q, b, a)
  }

  /** The search is cheapest-first exactly when of any two compliant routes the cheaper one climbs lower. */
  lemma CheapestFirstExactly(g: Graph, q: Query)
    requires ValidGraph(g)
    ensures AlwaysCheapest(g, q) <==> CheaperComesFirst(g, q)
  {
    hide Compliant, RouteCost, ValidGraph, EntryAt, IsRun, Found, Ended, ComesFirst, Eligible;
    if CheaperComesFirst(g, q) {
      forall limit: nat, found: seq<Entry>, f: Entry, links: seq<Link>
        | limit >= 1 && Finds(g, q, limit, found) && f in found && Compliant(g, q, links) && EntryAt(q, links) !in found
        ensures RouteCost(f.links) <= RouteCost(links)
      {
        var pops :| IsRun(g, q, limit, pops) && Ended(g, q, limit, pops) && found == Found(g, q, pops);
        var a := FoundOnBranch(g, q, pops, f);
        FoundClimbsNoHigher(g, q, limit, pops, a, links);
      }
    }
    if AlwaysCheapest(g, q) {
      forall a, b | Compliant(g, q, a) && Compliant(g, q, b) && RouteCost(b) < RouteCost(a)
        ensures ComesFirst(q, b, a)
      {
        assert EntryAt(q, a).links == a;
        if !ComesFirst(q, b, a) {
          var limit, found := DearerIsFoundAlone(g, q, a, b);
        }
      }
    }
  }

  /** Unless one route comes first, some run finds the other and not yet it. */
  lemma DearerIsFoundAlone(g: Graph, q: Query, a: seq<Link>, b: seq<Link>) returns (limit: nat, found: seq<Entry>)
    requires ValidGraph(g) && Compliant(g, q, a) && Compliant(g, q, b) && a != b && !ComesFirst(q, b, a)
    ensures limit >= 1 && Finds(g, q, limit, found) && EntryAt(q, a) in found && EntryAt(q, b) !in found
  {
    CompliantIsFollowed(g, q, a);
    assert Eligible(g, q);
    hide Compliant, ValidGraph, EntryAt, IsRun, Found, Eligible, Followed, LinksOn, ComesFirst, Ended, Ranked, OnTree, PositionIn;
    var o := SomeBranch(g, q, a);
    var enough := |AllRoutes(g, q)| + 1;
    hide AllRoutes;
    var pops := RankedRun(g, q, enough, Favouring(o));
    RunEndsEmpty(g, q, pops, o);
    var k :| 0 <= k < |pops| && pops[k] == o;
    limit, found := StoppedAt(g, q, enough, pops, k);
    assert EntryOn(g, q, o) == EntryAt(q, a);
    FavouredIsFirst(g, q, enough, o, pops, k, b);
  }

  /** A run may have been stopped by the limit wherever it found a route. */
  lemma StoppedAt(g: Graph, q: Query, limit: nat, pops: seq<Branch>, k: nat) returns (less: nat, found: seq<Entry>)
    requires IsRun(g, q, limit, pops) && k < |pops| && Compliant(g, q, LinksOn(g, q, pops[k]))
    ensures less >= 1 && Finds(g, q, less, found) && found == Found(g, q, pops[..k + 1])
    ensures EntryOn(g, q, pops[k]) in found
  {
    assert Eligible(g, q);
    hide Compliant, IsRun, Found, Eligible, LinksOn, EntryOn, Finds, IsLeast;
    var upTo := pops[..k + 1];
    RunSoFar(g, q, limit, pops, k + 1);
    assert Last(upTo) == pops[k] && pops[k] in upTo;
    FoundGrows(g, q, upTo);
    found := Found(g, q, upTo);
    less := |found|;
    RunToLimit(g, q, limit, upTo, less);
    BranchIsFound(g, q, upTo, pops[k]);
    FindsUpTo(g, q, less, upTo);
  }

  lemma FindsUpTo(g: Graph, q: Query, limit: nat, pops: seq<Branch>)
    requires Eligible(g, q) && IsRun(g, q, limit, pops) && |Found(g, q, pops)| == limit
    ensures Finds(g, q, limit, Found(g, q, pops))
  {
    hide Eligible, IsRun, Found;
    assert Ended(g, q, limit, pops);
  }

  lemma FoundGrows(g: Graph, q: Query, pops: seq<Branch>)
    requires pops != [] && Compliant(g, q, LinksOn(g, q, Last(pops)))
    ensures |Found(g, q, Front(pops))| < |Found(g, q, pops)|
  {}

  /** With a limit above the number of routes, a run ends with an empty queue. */
  lemma RunEndsEmpty(g: Graph, q: Query, pops: seq<Branch>, o: Branch)
    requires ValidGraph(g) && Eligible(g, q) && OnTree(g, q, o)
    requires IsRun(g, q, |AllRoutes(g, q)| + 1, pops) && Ended(g, q, |AllRoutes(g, q)| + 1, pops)
    ensures o in pops
  {
    hide ValidGraph, Eligible, IsRun, Found, OnTree, AllRoutes, Queued;
    var found := Found(g, q, pops);
    assert Finds(g, q, |AllRoutes(g, q)| + 1, found);
    RunsFindLowestPeaks(g, q, |AllRoutes(g, q)| + 1, found);
    SmallerMultiset(multiset(found), multiset(AllRoutes(g, q)));
    EverythingWasPopped(g, q, pops, o);
  }

  /** No branch of a route that does not come first is popped ahead of the favoured branch. */
  lemma FavouredIsFirst(g: Graph, q: Query, limit: nat, o: Branch, pops: seq<Branch>, k: nat, b: seq<Link>)
    requires ValidGraph(g) && IsRun(g, q, limit, pops) && Ranked(g, q, Favouring(o), pops)
    requires k < |pops| && pops[k] == o && Compliant(g, q, LinksOn(g, q, o)) && Compliant(g, q, b)
    requires LinksOn(g, q, o) != b && !ComesFirst(q, b, LinksOn(g, q, o))
    ensures EntryAt(q, b) !in Found(g, q, pops[..k + 1])
  {
    hide ValidGraph, IsRun, Ranked, Compliant, Found, LinksOn, ComesFirst, Before, Parting, Followed;
    if EntryAt(q, b) in Found(g, q, pops[..k + 1]) {
      var x := FoundOnBranch(g, q, pops[..k + 1], EntryAt(q, b));
      assert LinksOn(g, q, x) == b;
      var i :| 0 <= i <= k && pops[i] == x;
      PopIsNew(g, q, limit, pops, i);
      PopIsNew(g, q, limit, pops, k);
      FavouredComesBefore(g, q, o, x);
      BranchesOfRoutesPart(g, q, o, x);
      RunSoFar(g, q, limit, pops, k);
      RankedSoFar(g, q, Favouring(o), pops, k);
      assert x in pops[..k];
      RankedRunsKeepTheOrder(g, q, limit, Favouring(o), pops[..k], o, x);
    }
  }

  // ------------------------------------------------------------ the head of an answer

  ghost function EntryScore(g: Graph, q: Query, e: Entry): int {
    if OnGraph(g, q, e) then CandidateOf(g, q, e).score else 0
  }

  lemma HeadScoresHighest(g: Graph, q: Query, limit: nat, found: seq<Entry>, answer: seq<Candidate>, e: Entry)
    requires ValidGraph(g) && Answers(g, q, limit, found, answer) && e in found
    ensures answer != [] && answer[0].score >= EntryScore(g, q, e)
  {
    FoundIsAnswered(g, q, limit, found, answer, e);
    var i :| 0 <= i < |answer| && answer[i] == CandidateOf(g, q, e);
    assert i == 0 || CandidateLeq(answer[0], answer[i]);
  }

  lemma HeadIsSomeFound(g: Graph, q: Query, limit: nat, found: seq<Entry>, answer: seq<Candidate>) returns (e: Entry)
    requires ValidGraph(g) && Answers(g, q, limit, found, answer) && answer != []
    ensures e in found && answer[0].score == EntryScore(g, q, e)
  {
    e := AnswerEntries(g, q, limit, found, answer, answer[0]);
  }

  lemma EntryOfRoute(g: Graph, q: Query, e: Entry)
    requires ValidGraph(g) && e in AllRoutes(g, q)
    ensures Compliant(g, q, e.links) && EntryAt(q, e.links) == e && EntryScore(g, q, e) == ScoreOf(g, q, e.links)
  {
    RoutesAreDeterminedByTheirLinks(g, q, e);
    ScoreIsStandingMinusCost(g, q, e);
  }

  lemma ScoreOfEntry(g: Graph, q: Query, links: seq<Link>)
    requires ValidGraph(g) && Compliant(g, q, links)
    ensures EntryAt(q, links) in AllRoutes(g, q) && EntryScore(g, q, EntryAt(q, links)) == ScoreOf(g, q, links)
  {
    SearchFindsExactlyTheCompliantRoutes(g, q, links);
    ScoreIsStandingMinusCost(g, q, EntryAt(q, links));
  }

  /** A best route that is not found is not the head, and the head scores less. */
  lemma MissedBestIsNotTheHead(g: Graph, q: Query, limit: nat, found: seq<Entry>, answer: seq<Candidate>, best: seq<Link>)
    requires ValidGraph(g) && limit >= 1 && Answers(g, q, limit, found, answer) && Compliant(g, q, best)
    requires EntryAt(q, best) !in found
    requires forall links :: Compliant(g, q, links) && links != best ==> ScoreOf(g, q, links) < ScoreOf(g, q, best)
    ensures answer != [] && answer[0].score < ScoreOf(g, q, best)
  {
    hide AllRoutes, Compliant, ScoreOf, EntryAt, ValidGraph, Answers;
    EmptyAnswerMeansNoRoute(g, q, limit, found, answer);
    var e := AnswerEntries(g, q, limit, found, answer, answer[0]);
    AnsweredIsRoute(g, q, limit, found, answer, e);
    RoutesAreDeterminedByTheirLinks(g, q, e);
    ScoreIsStandingMinusCost(g, q, e);
  }

  lemma AnsweredIsRoute(g: Graph, q: Query, limit: nat, found: seq<Entry>, answer: seq<Candidate>, e: Entry)
    requires ValidGraph(g) && Answers(g, q, limit, found, answer) && e in found
    ensures e in AllRoutes(g, q)
  {
    FoundRoutesAreRoutes(g, q, limit, found, e);
  }

  lemma OneFound(g: Graph, q: Query, found: seq<Entry>, e: Entry)
    requires ValidGraph(g) && LowestPeaks(g, q, 1, found) && e in AllRoutes(g, q)
    ensures |found| == 1 && found[0] in AllRoutes(g, q)
    ensures found[0] == e || Peak(found[0].links) <= Peak(e.links)
  {
    hide AllRoutes, Peak, ValidGraph;
    assert e in multiset(AllRoutes(g, q));
    assert found == [] ==> multiset(found) == multiset{};
    var f := found[0];
    assert found == [f] && f in multiset(found) && f in multiset(AllRoutes(g, q));
    assert f == e || e in Omitted(g, q, found);
  }

  /** If one route peaks lower than every other, a search for one route finds that one. */
  lemma LowestIsFoundAlone(g: Graph, q: Query, found: seq<Entry>, low: seq<Link>)
    requires ValidGraph(g) && LowestPeaks(g, q, 1, found) && Compliant(g, q, low)
    requires forall links :: Compliant(g, q, links) && links != low ==> Peak(low) < Peak(links)
    ensures found == [EntryAt(q, low)]
  {
    hide AllRoutes, Compliant, Peak, ValidGraph, LowestPeaks, EntryAt;
    SearchFindsExactlyTheCompliantRoutes(g, q, low);
    OneFound(g, q, found, EntryAt(q, low));
    RoutesAreDeterminedByTheirLinks(g, q, found[0]);
  }

  // ------------------------------------------------------------ the head at one limit

  /** No compliant route scores higher. */
  ghost predicate IsBest(g: Graph, q: Query, links: seq<Link>) {
    Compliant(g, q, links) && forall d :: Compliant(g, q, d) ==> ScoreOf(g, q, d) <= ScoreOf(g, q, links)
  }

  /** In every run at this limit, the head scores at least as high as every compliant route. */
  ghost predicate HeadIsBest(g: Graph, q: Query, limit: nat)
    requires ValidGraph(g)
  {
    forall found: seq<Entry>, answer: seq<Candidate>, links: seq<Link> ::
      Answered(g, q, limit, found, answer) && Compliant(g, q, links) ==>
        answer != [] && ScoreOf(g, q, links) <= answer[0].score
  }

  /** A compliant route that is not a best one, on a branch that comes before all branches of best ones. */
  ghost predicate IsRival(g: Graph, q: Query, rank: Branch -> nat, w: Branch) {
    && OnTree(g, q, w) && Compliant(g, q, LinksOn(g, q, w)) && !IsBest(g, q, LinksOn(g, q, w))
    && forall b: Branch :: OnTree(g, q, b) && IsBest(g, q, LinksOn(g, q, b)) ==> Before(g, q, rank, w, b)
  }

  ghost predicate AreRivals(g: Graph, q: Query, rank: Branch -> nat, ws: set<Branch>) {
    forall w :: w in ws ==> IsRival(g, q, rank, w)
  }

  /** However ties are broken, fewer branches than the limit come before all best ones. */
  ghost predicate FewRivals(g: Graph, q: Query, limit: nat) {
    forall rank: Branch -> nat, ws: set<Branch> :: AreRivals(g, q, rank, ws) ==> |ws| < limit
  }

  /** If there is a compliant route, there is a best one. */
  lemma SomeBest(g: Graph, q: Query, links: seq<Link>) returns (b: seq<Link>)
    requires ValidGraph(g) && Compliant(g, q, links)
    ensures IsBest(g, q, b)
  {
    hide AllRoutes, Compliant, ScoreOf, EntryAt, ValidGraph, EntryScore;
    ScoreOfEntry(g, q, links);
    var higher := (x: Entry, y: Entry) => EntryScore(g, q, x) >= EntryScore(g, q, y);
    var e := LeastOf(higher, AllRoutes(g, q));
    EntryOfRoute(g, q, e);
    b := e.links;
    forall d | Compliant(g, q, d) ensures ScoreOf(g, q, d) <= ScoreOf(g, q, b) {
      ScoreOfEntry(g, q, d);
      assert higher(e, EntryAt(q, d));
    }
  }

  /** The popped branches of compliant routes. */
  ghost function FoundBranches(g: Graph, q: Query, pops: seq<Branch>): set<Branch> {
    set o | o in pops && Compliant(g, q, LinksOn(g, q, o))
  }

  lemma {:induction false} FoundBranchesCount(g: Graph, q: Query, limit: nat, pops: seq<Branch>)
    requires IsRun(g, q, limit, pops)
    ensures |FoundBranches(g, q, pops)| == |Found(g, q, pops)|
  {
    hide Compliant, LinksOn, EntryOn, OnTree, EntryLeq;
    if pops == [] {
      assert FoundBranches(g, q, pops) == {};
    } else {
      var before, o := Front(pops), Last(pops);
      FoundBranchesCount(g, q, limit, before);
      assert pops == before + [o];
      assert FoundBranches(g, q, pops) ==
          FoundBranches(g, q, before) + (if Compliant(g, q, LinksOn(g, q, o)) then {o} else {});
    }
  }

  lemma SmallerSet<T>(a: set<T>, b: set<T>)
    requires a <= b
    ensures |a| <= |b|
  {
    assert b == a + (b - a);
  }

  /** A run that misses every best route has as many rivals as it finds routes. */
  lemma MissingBestTakesRivals(g: Graph, q: Query, limit: nat, pops: seq<Branch>)
    requires ValidGraph(g) && IsRun(g, q, limit, pops)
    requires forall b: Branch :: b in pops ==> !IsBest(g, q, LinksOn(g, q, b))
    ensures AreRivals(g, q, Position(pops), FoundBranches(g, q, pops))
    ensures |FoundBranches(g, q, pops)| == |Found(g, q, pops)|
  {
    FoundBranchesCount(g, q, limit, pops);
    hide IsRun, LinksOn, OnTree, Before, Parting, Found, ValidGraph, EntryOn, Position, ScoreOf, Compliant;
    forall w | w in FoundBranches(g, q, pops)
      ensures IsRival(g, q, Position(pops), w)
    {
      var i :| 0 <= i < |pops| && pops[i] == w;
      PopIsNew(g, q, limit, pops, i);
      forall b: Branch | OnTree(g, q, b) && IsBest(g, q, LinksOn(g, q, b))
        ensures Before(g, q, Position(pops), w, b)
      {
        BranchesOfRoutesPart(g, q, w, b);
        PoppedBefore(g, q, limit, pops, w, b);
      }
    }
  }

  /** In a run that breaks ties by rank, all rivals are found before any best route. */
  lemma RivalsAreFoundFirst(g: Graph, q: Query, limit: nat, rank: Branch -> nat, ws: set<Branch>, pops: seq<Branch>, k: nat)
    requires IsRun(g, q, limit, pops) && Ranked(g, q, rank, pops) && AreRivals(g, q, rank, ws)
    requires k < |pops| && IsBest(g, q, LinksOn(g, q, pops[k]))
    ensures |ws| < limit
  {
    hide IsRun, LinksOn, OnTree, Before, Parting, Found, EntryOn, ScoreOf, Compliant, Ranked;
    var b, upTo := pops[k], pops[..k + 1];
    PopIsNew(g, q, limit, pops, k);
    RunSoFar(g, q, limit, pops, k);
    RunSoFar(g, q, limit, pops, k + 1);
    RankedSoFar(g, q, rank, pops, k + 1);
    assert b == upTo[k];
    forall w | w in ws
      ensures w in FoundBranches(g, q, pops[..k])
    {
      assert IsRival(g, q, rank, w);
      BranchesOfRoutesPart(g, q, w, b);
      RankedRunsKeepTheOrder(g, q, limit, rank, upTo, w, b);
      assert upTo == pops[..k] + [b];
    }
    SmallerSet(ws, FoundBranches(g, q, pops[..k]));
    FoundBranchesCount(g, q, limit, pops[..k]);
  }

  /** At a limit the head is sure to be a best route exactly when, however ties are broken, fewer
      worse branches than the limit come before all best ones. */
  lemma HeadIsBestExactly(g: Graph, q: Query, limit: nat)
    requires ValidGraph(g) && limit >= 1
    ensures HeadIsBest(g, q, limit) <==> FewRivals(g, q, limit)
  {
    hide ValidGraph, AreRivals, Answered, Compliant, ScoreOf;
    if FewRivals(g, q, limit) {
      forall found: seq<Entry>, answer: seq<Candidate>, links: seq<Link>
        | Answered(g, q, limit, found, answer) && Compliant(g, q, links)
        ensures answer != [] && ScoreOf(g, q, links) <= answer[0].score
      {
        FewRivalsMeanBest(g, q, limit, found, answer, links);
      }
    }
    if HeadIsBest(g, q, limit) {
      forall rank: Branch -> nat, ws: set<Branch> | AreRivals(g, q, rank, ws)
        ensures |ws| < limit
      {
        BestHeadMeansFew(g, q, limit, rank, ws);
      }
    }
  }

  lemma FewRivalsMeanBest(g: Graph, q: Query, limit: nat, found: seq<Entry>, answer: seq<Candidate>, links: seq<Link>)
    requires ValidGraph(g) && FewRivals(g, q, limit) && Answered(g, q, limit, found, answer) && Compliant(g, q, links)
    ensures answer != [] && ScoreOf(g, q, links) <= answer[0].score
  {
    assert Eligible(g, q);
    var best := SomeBest(g, q, links);
    hide ValidGraph, Compliant, ScoreOf, AreRivals, IsRun, Found, Ended, Answers, Eligible, FoundBranches, LinksOn;
    var pops :| IsRun(g, q, limit, pops) && Ended(g, q, limit, pops) && found == Found(g, q, pops);
    if b: Branch :| b in pops && IsBest(g, q, LinksOn(g, q, b)) {
      BestIsAtTheHead(g, q, limit, pops, b, answer);
    } else {
      MissingBestTakesRivals(g, q, limit, pops);
      assert |Found(g, q, pops)| < limit;
      EndMissesNothing(g, q, limit, pops, best);
      assert false;
    }
  }

  lemma BestIsAtTheHead(g: Graph, q: Query, limit: nat, pops: seq<Branch>, b: Branch, answer: seq<Candidate>)
    requires ValidGraph(g) && Answers(g, q, limit, Found(g, q, pops), answer) && b in pops && IsBest(g, q, LinksOn(g, q, b))
    ensures answer != [] && answer[0].score >= ScoreOf(g, q, LinksOn(g, q, b))
  {
    hide ValidGraph, Compliant, ScoreOf, Answers, LinksOn, Found, EntryAt;
    BranchIsFound(g, q, pops, b);
    ScoreOfEntry(g, q, LinksOn(g, q, b));
    HeadScoresHighest(g, q, limit, Found(g, q, pops), answer, EntryOn(g, q, b));
  }

  /** A run that ends below the limit has popped a branch of every compliant route. */
  lemma EndMissesNothing(g: Graph, q: Query, limit: nat, pops: seq<Branch>, links: seq<Link>)
    requires ValidGraph(g) && Ended(g, q, limit, pops) && |Found(g, q, pops)| < limit && Compliant(g, q, links)
    ensures exists b: Branch :: b in pops && LinksOn(g, q, b) == links
  {
    hide ValidGraph, Compliant, LinksOn, Found, Followed, Queued;
    CompliantIsFollowed(g, q, links);
    var b := SomeBranch(g, q, links);
    EverythingWasPopped(g, q, pops, b);
  }

  lemma BestHeadMeansFew(g: Graph, q: Query, limit: nat, rank: Branch -> nat, ws: set<Branch>)
    requires ValidGraph(g) && limit >= 1 && HeadIsBest(g, q, limit) && AreRivals(g, q, rank, ws)
    ensures |ws| < limit
  {
    hide ValidGraph, Compliant, ScoreOf, IsRun, Found, Ended, Eligible, LinksOn, Ranked, Finds, Answers, Before, OnTree, IsBest;
    if w :| w in ws {
      assert IsRival(g, q, rank, w);
      var links := LinksOn(g, q, w);
      assert Eligible(g, q) by { CompliantIsEligible(g, q, links); }
      var best := SomeBest(g, q, links);
      var pops := RankedRun(g, q, limit, rank);
      var found := Found(g, q, pops);
      RunFinds(g, q, limit, pops);
      var answer := FoundCanBeAnswered(g, q, limit, found);
      BestIsCompliant(g, q, best);
      var b := HeadIsOnBranch(g, q, limit, pops, answer, best);
      var k :| 0 <= k < |pops| && pops[k] == b;
      RivalsAreFoundFirst(g, q, limit, rank, ws, pops, k);
    } else {
      assert ws == {};
    }
  }

  lemma RunFinds(g: Graph, q: Query, limit: nat, pops: seq<Branch>)
    requires Eligible(g, q) && IsRun(g, q, limit, pops) && Ended(g, q, limit, pops)
    ensures Finds(g, q, limit, Found(g, q, pops))
  {
    hide Eligible, IsRun, Ended, Found;
  }

  lemma CompliantIsEligible(g: Graph, q: Query, links: seq<Link>)
    requires Compliant(g, q, links)
    ensures Eligible(g, q)
  {}

  lemma HeadIsOnBranch(g: Graph, q: Query, limit: nat, pops: seq<Branch>, answer: seq<Candidate>, best: seq<Link>)
      returns (b: Branch)
    requires ValidGraph(g) && Answers(g, q, limit, Found(g, q, pops), answer) && answer != [] && IsBest(g, q, best)
    requires ScoreOf(g, q, best) <= answer[0].score
    ensures b in pops && IsBest(g, q, LinksOn(g, q, b))
  {
    hide ValidGraph, Compliant, ScoreOf, Answers, LinksOn, Found, EntryAt, EntryScore;
    var e := HeadIsSomeFound(g, q, limit, Found(g, q, pops), answer);
    b := FoundOnBranch(g, q, pops, e);
    ScoreOfEntry(g, q, LinksOn(g, q, b));
  }

  // ------------------------------------------------------------ the head at every limit

  ghost predicate HeadsAreBest(g: Graph, q: Query)
    requires ValidGraph(g)
  {
    forall limit: nat :: limit >= 1 ==> HeadIsBest(g, q, limit)
  }

  /** Each compliant route that is not a best one comes after some best one. */
  ghost predicate SomeBestComesFirst(g: Graph, q: Query) {
    forall w :: Compliant(g, q, w) && !IsBest(g, q, w) ==> exists b :: IsBest(g, q, b) && ComesFirst(q, b, w)
  }

  /** The head is a best route at every limit exactly when each worse route comes after some best one. */
  lemma HeadsAreBestExactly(g: Graph, q: Query)
    requires ValidGraph(g)
    ensures HeadsAreBest(g, q) <==> SomeBestComesFirst(g, q)
  {
    hide ValidGraph, Compliant, ComesFirst, HeadIsBest, FewRivals, IsBest;
    if SomeBestComesFirst(g, q) {
      forall limit: nat | limit >= 1 ensures HeadIsBest(g, q, limit) {
        NoRivals(g, q, limit);
        HeadIsBestExactly(g, q, limit);
      }
    }
    if HeadsAreBest(g, q) {
      HeadIsBestExactly(g, q, 1);
      assert HeadIsBest(g, q, 1);
      forall w | Compliant(g, q, w) && !IsBest(g, q, w)
        ensures exists b :: IsBest(g, q, b) && ComesFirst(q, b, w)
      {
        OneRivalIsTooMany(g, q, w);
      }
    }
  }

  lemma NoRivals(g: Graph, q: Query, limit: nat)
    requires ValidGraph(g) && SomeBestComesFirst(g, q) && limit >= 1
    ensures FewRivals(g, q, limit)
  {
    hide ValidGraph, Compliant, ComesFirst, ScoreOf, LinksOn, OnTree, Before;
    forall rank: Branch -> nat, ws: set<Branch> | AreRivals(g, q, rank, ws)
      ensures |ws| < limit
    {
      if w :| w in ws {
        assert IsRival(g, q, rank, w);
        var b :| IsBest(g, q, b) && ComesFirst(q, b, LinksOn(g, q, w));
        var o := BranchBeside(g, q, w, b);
        ComesFirstIsBefore(g, q, rank, w, o);
        assert false;
      } else {
        assert ws == {};
      }
    }
  }

  /** What comes first comes before, whatever breaks the ties. */
  lemma ComesFirstIsBefore(g: Graph, q: Query, rank: Branch -> nat, w: Branch, b: Branch)
    requires OnTree(g, q, w) && OnTree(g, q, b) && Parting(w, b) == Parting(LinksOn(g, q, w), LinksOn(g, q, b))
    requires Parting(w, b) < |w| && Parting(w, b) < |b| && ComesFirst(q, LinksOn(g, q, b), LinksOn(g, q, w))
    ensures !Before(g, q, rank, w, b)
  {
    var n := Parting(w, b);
    SameLength(g, q, w);
    SameLength(g, q, b);
    PartingIsSymmetric(LinksOn(g, q, w), LinksOn(g, q, b));
    TopMeaning(g, q, w, n, |w|);
    TopMeaning(g, q, b, n, |b|);
    hide Parting, Summit, EntryOn, OnTree, Top, LinksOn;
    var d, e := EntryOn(g, q, Top(g, q, w, n)), EntryOn(g, q, Top(g, q, b, n));
    EntryLeqTransitive(d, e, d);
    EntryLeqTransitive(e, d, e);
    hide EntryLeq;
  }

  lemma OneRivalIsTooMany(g: Graph, q: Query, w: seq<Link>)
    requires ValidGraph(g) && FewRivals(g, q, 1) && Compliant(g, q, w) && !IsBest(g, q, w)
    ensures exists b :: IsBest(g, q, b) && ComesFirst(q, b, w)
  {
    CompliantIsFollowed(g, q, w);
    hide ValidGraph, Compliant, ComesFirst, IsBest, LinksOn, OnTree, Before, Followed, IsRival, FewRivals, Favouring;
    var o := SomeBranch(g, q, w);
    if forall b :: IsBest(g, q, b) ==> !ComesFirst(q, b, w) {
      SoleRival(g, q, o);
      NoRivalAtAll(g, q, Favouring(o), o);
    }
  }

  lemma NoRivalAtAll(g: Graph, q: Query, rank: Branch -> nat, o: Branch)
    requires FewRivals(g, q, 1)
    ensures !IsRival(g, q, rank, o)
  {
    hide IsRival;
    var ws: set<Branch> := {o};
    assert AreRivals(g, q, rank, ws) ==> |ws| < 1;
  }

  lemma SoleRival(g: Graph, q: Query, o: Branch)
    requires OnTree(g, q, o) && Compliant(g, q, LinksOn(g, q, o)) && !IsBest(g, q, LinksOn(g, q, o))
    requires forall b :: IsBest(g, q, b) ==> !ComesFirst(q, b, LinksOn(g, q, o))
    ensures IsRival(g, q, Favouring(o), o)
  {
    hide ComesFirst, IsBest, LinksOn, OnTree, Before, Compliant;
    forall b: Branch | OnTree(g, q, b) && IsBest(g, q, LinksOn(g, q, b))
      ensures Before(g, q, Favouring(o), o, b)
    {
      BestIsCompliant(g, q, LinksOn(g, q, b));
      FavouredComesBefore(g, q, o, b);
    }
  }

  // ------------------------------------------------------------ the head at every limit, without negative steps

  /** A compliant route that is least by cost and then by path. */
  ghost predicate IsFirst(g: Graph, q: Query, c: seq<Link>) {
    Compliant(g, q, c) && forall d :: Compliant(g, q, d) ==> EntryLeq(EntryAt(q, c), EntryAt(q, d))
  }

  ghost predicate FirstAreBest(g: Graph, q: Query) {
    forall c :: IsFirst(g, q, c) ==> IsBest(g, q, c)
  }

  lemma SomeFirst(g: Graph, q: Query, links: seq<Link>) returns (c: seq<Link>)
    requires ValidGraph(g) && Compliant(g, q, links)
    ensures IsFirst(g, q, c)
  {
    hide AllRoutes, Compliant, EntryAt, ValidGraph, EntryLeq, EntryScore, ScoreOf;
    ScoreOfEntry(g, q, links);
    EntryOrderIsTotal();
    var e := LeastOf(EntryLeq, AllRoutes(g, q));
    EntryOfRoute(g, q, e);
    c := e.links;
    forall d | Compliant(g, q, d) ensures EntryLeq(e, EntryAt(q, d)) {
      ScoreOfEntry(g, q, d);
    }
  }

  /** Without negative steps a route is at its highest when it is complete. */
  lemma {:induction false} SummitIsTheEnd(q: Query, links: seq<Link>, n: nat)
    requires n < |links| && forall l :: l in links ==> l.latencyMs + 100 + l.cost >= 0
    ensures SummitAt(q, links, n) == |links|
  {
    hide EntryAt, EntryLeq;
    if |links| > n + 1 {
      assert forall l :: l in Front(links) ==> l in links;
      SummitIsTheEnd(q, Front(links), n);
      assert links[..|links| - 1] == Front(links);
      LaterIsHigher(q, links);
    }
  }

  lemma LaterIsHigher(q: Query, links: seq<Link>)
    requires links != [] && Last(links).latencyMs + 100 + Last(links).cost >= 0
    ensures !EntryLeq(EntryAt(q, links), EntryAt(q, Front(links)))
  {
    LastLinkCost(links);
    EntryAtMeaning(q, links);
    EntryAtMeaning(q, Front(links));
    DifferentLengthsDiffer(q, links, Front(links));
    hide EntryAt, RouteCost;
    var p, r := Offices(q.origin, Front(links)), Offices(q.origin, links);
    assert r == p + [Last(links).destination];
    hide Offices;
    PrefixIsLess(p, [Last(links).destination]);
  }

  lemma {:induction false} PrefixIsLess(a: seq<string>, b: seq<string>)
    ensures PathLeq(a, a + b)
  {
    if a != [] {
      assert (a + b)[1..] == a[1..] + b;
      PrefixIsLess(a[1..], b);
    }
  }

  lemma HighestAtTheEnd(g: Graph, q: Query, links: seq<Link>, n: nat)
    requires NonNegativeSteps(g) && Compliant(g, q, links) && n < |links|
    ensures Summit(q, links, n) == EntryAt(q, links)
  {
    StepsOfRoute(g, q, links);
    hide Compliant, EntryAt;
    SummitIsTheEnd(q, links, n);
    assert links[..|links|] == links;
  }

  lemma FirstComesFirst(g: Graph, q: Query, a: seq<Link>, b: seq<Link>)
    requires ValidGraph(g) && NonNegativeSteps(g) && Compliant(g, q, a) && Compliant(g, q, b) && a != b
    ensures ComesFirst(q, a, b) <==> Sooner(EntryAt(q, a), EntryAt(q, b))
  {
    CompliantRoutesPart(g, q, a, b);
    hide Compliant, EntryLeq, EntryAt, Parting, NonNegativeSteps, ValidGraph, Summit, Sooner;
    HighestAtTheEnd(g, q, a, Parting(a, b));
    HighestAtTheEnd(g, q, b, Parting(a, b));
  }

  lemma StepsOfRoute(g: Graph, q: Query, links: seq<Link>)
    requires NonNegativeSteps(g) && Compliant(g, q, links)
    ensures forall l :: l in links ==> l.latencyMs + 100 + l.cost >= 0
  {
    hide TrustAllowed;
    var path := Offices(q.origin, links);
    forall l | l in links ensures l.latencyMs + 100 + l.cost >= 0 {
      var i :| 0 <= i < |links| && links[i] == l;
      assert links[i] in g.links[path[i]];
    }
  }

  /** Without negative steps, the head is a best route at every limit exactly when every compliant route
      that is least by cost and then by path is a best one. */
  lemma HeadsAreBestWithoutNegativeSteps(g: Graph, q: Query)
    requires ValidGraph(g) && NonNegativeSteps(g)
    ensures HeadsAreBest(g, q) <==> FirstAreBest(g, q)
  {
    HeadsAreBestExactly(g, q);
    hide ValidGraph, Compliant, ComesFirst, HeadsAreBest, IsBest, EntryAt, NonNegativeSteps, EntryLeq;
    if SomeBestComesFirst(g, q) {
      forall c | IsFirst(g, q, c) ensures IsBest(g, q, c) {
        if !IsBest(g, q, c) {
          var b :| IsBest(g, q, b) && ComesFirst(q, b, c);
          BestIsCompliant(g, q, b);
          FirstComesFirst(g, q, b, c);
          assert false;
        }
      }
    }
    if FirstAreBest(g, q) {
      forall w | Compliant(g, q, w) && !IsBest(g, q, w)
        ensures exists b :: IsBest(g, q, b) && ComesFirst(q, b, w)
      {
        var c := SomeFirst(g, q, w);
        FirstComesFirst(g, q, c, w);
        if EntryLeq(EntryAt(q, w), EntryAt(q, c)) {
          FirstToo(g, q, w, c);
        }
      }
    }
  }

  lemma BestIsCompliant(g: Graph, q: Query, b: seq<Link>)
    requires IsBest(g, q, b)
    ensures Compliant(g, q, b)
  {}

  lemma FirstToo(g: Graph, q: Query, w: seq<Link>, c: seq<Link>)
    requires Compliant(g, q, w) && IsFirst(g, q, c) && EntryLeq(EntryAt(q, w), EntryAt(q, c))
    ensures IsFirst(g, q, w)
  {
    hide Compliant, EntryAt, EntryLeq;
    forall d | Compliant(g, q, d) ensures EntryLeq(EntryAt(q, w), EntryAt(q, d)) {
      EntryLeqTransitive(EntryAt(q, w), EntryAt(q, c), EntryAt(q, d));
    }
  }
}
