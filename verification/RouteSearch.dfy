/**
 What the route search finds: its tree holds exactly the compliant routes, and
 walking the tree cheapest-first yields those that peak lowest: the cheapest,
 when no step is negative.
 */
module RouteSearch {
  import opened Wrappers
  import opened Sorting
  import opened RouteSpace

  // ------------------------------------------------------------ the tree is sound and complete

  ghost predicate NonNegativeSteps(g: Graph) {
    forall id, l :: id in g.links && l in g.links[id] ==> l.latencyMs + 100 + l.cost >= 0
  }

  /** The highest cost of any beginning of a route: what the search has to climb over before it arrives. */
  function Peak(links: seq<Link>): (peak: int)
    ensures peak >= RouteCost(links)
  {
    if links == [] then 0
    else
      var before := Peak(Front(links));
      if before < RouteCost(links) then RouteCost(links) else before
  }

  lemma {:induction false} PeakOfPrefix(a: seq<Link>, b: seq<Link>)
    requires a <= b
    ensures Peak(a) <= Peak(b)
    decreases |b|
  {
    if |a| < |b| {
      assert a <= Front(b);
      PeakOfPrefix(a, Front(b));
    } else {
      assert a == b;
    }
  }

  lemma LastLinkCost(links: seq<Link>)
    requires links != []
    ensures RouteCost(links) == RouteCost(Front(links)) + Last(links).latencyMs + 100 + Last(links).cost
  {}

  /** Without negative steps a route costs the most when it is complete. */
  lemma {:induction false} PeakIsCost(links: seq<Link>)
    requires forall l :: l in links ==> l.latencyMs + 100 + l.cost >= 0
    ensures Peak(links) == RouteCost(links)
  {
    if links != [] {
      assert forall l :: l in Front(links) ==> l in links;
      assert Last(links) in links;
      PeakIsCost(Front(links));
      LastLinkCost(links);
      hide RouteCost;
    }
  }

  lemma RoutePeaksAtItsCost(g: Graph, q: Query, links: seq<Link>)
    requires NonNegativeSteps(g) && Compliant(g, q, links)
    ensures Peak(links) == RouteCost(links)
  {
    hide TrustAllowed;
    var path := Offices(q.origin, links);
    forall l | l in links ensures l.latencyMs + 100 + l.cost >= 0 {
      var i :| 0 <= i < |links| && links[i] == l;
      assert links[i] in g.links[path[i]];
    }
    PeakIsCost(links);
  }

  ghost predicate Below(g: Graph, q: Query, r: Entry, e: Entry) {
    Reached(g, q, e) && r.links <= e.links
  }

  lemma ChildIsBelow(g: Graph, q: Query, e: Entry, k: Entry)
    requires ValidGraph(g) && Eligible(g, q) && Reached(g, q, e) && k in Children(g, q, e)
    ensures Below(g, q, e, k) && k.links != [] && Front(k.links) == e.links
  {
    ReachedIsOnGraph(g, q, e);
    ReachedIsOnGraph(g, q, k);
    var l :| l in Outgoing(g, Last(e.path)) && Admits(g, q, e, l) && k == Extend(e, l);
  }

  lemma {:induction false} SubtreeIsSound(g: Graph, q: Query, r: Entry, e: Entry)
    requires ValidGraph(g) && Eligible(g, q) && Reached(g, q, r) && OnGraph(g, q, r)
    requires e in Subtree(g, q, r)
    ensures Below(g, q, r, e)
    decreases Remaining(q, r), 0, 0
  {
    hide Subtree, Eligible, TrustAllowed, Admits, EntryAt;
    if e != r {
      SubtreeUnfolds(g, q, r);
      var kids := Children(g, q, r);
      assert e in Forest(g, q, kids, q.policy.maxHops);
      ForestLevelIsIrrelevant(g, q, kids, Remaining(q, r) - 1, q.policy.maxHops);
      var k := ForestIsSound(g, q, kids, Remaining(q, r) - 1, e);
      ChildIsBelow(g, q, r, k);
    }
  }

  lemma {:induction false} ForestIsSound(g: Graph, q: Query, es: seq<Entry>, level: nat, e: Entry) returns (r: Entry)
    requires ValidGraph(g) && Eligible(g, q) && AllReached(g, q, es)
    requires forall x :: x in es ==> OnGraph(g, q, x) && Remaining(q, x) <= level
    requires e in Forest(g, q, es, level)
    ensures r in es && Below(g, q, r, e)
    decreases level, 1, |es|
  {
    if e in Subtree(g, q, es[0]) {
      r := es[0];
      SubtreeIsSound(g, q, r, e);
    } else {
      r := ForestIsSound(g, q, es[1..], level, e);
    }
  }

  lemma {:induction false} InForest(g: Graph, q: Query, es: seq<Entry>, level: nat, k: Entry, e: Entry)
    requires ValidGraph(g)
    requires forall x :: x in es ==> OnGraph(g, q, x) && Remaining(q, x) <= level
    requires k in es && e in Subtree(g, q, k)
    ensures e in Forest(g, q, es, level)
  {
    if k != es[0] {
      InForest(g, q, es[1..], level, k, e);
    }
  }

  lemma {:induction false} PrefixIsFollowed(g: Graph, q: Query, links: seq<Link>, n: nat)
    requires Followed(g, q, links) && n <= |links|
    ensures Followed(g, q, links[..n])
  {
    if n == |links| {
      assert links[..n] == links;
    } else {
      assert Front(links)[..n] == links[..n];
      PrefixIsFollowed(g, q, Front(links), n);
    }
  }

  lemma NextIsChild(g: Graph, q: Query, links: seq<Link>, n: nat)
    requires ValidGraph(g) && Eligible(g, q) && Followed(g, q, links) && n < |links|
    ensures Reached(g, q, EntryAt(q, links[..n])) && OnGraph(g, q, EntryAt(q, links[..n]))
    ensures EntryAt(q, links[..n + 1]) in Children(g, q, EntryAt(q, links[..n]))
  {
    hide TrustAllowed, Eligible, Admits;
    PrefixIsFollowed(g, q, links, n);
    PrefixIsFollowed(g, q, links, n + 1);
    var next := links[..n + 1];
    assert Front(next) == links[..n] && Last(next) == links[n];
    ReachedIsOnGraph(g, q, EntryAt(q, links[..n]));
  }

  lemma {:induction false} SubtreeIsComplete(g: Graph, q: Query, links: seq<Link>, n: nat)
    requires ValidGraph(g) && Eligible(g, q) && Followed(g, q, links) && n <= |links|
    ensures Reached(g, q, EntryAt(q, links[..n])) && OnGraph(g, q, EntryAt(q, links[..n]))
    ensures EntryAt(q, links) in Subtree(g, q, EntryAt(q, links[..n]))
    decreases |links| - n
  {
    hide Subtree, Eligible, ValidGraph, EntryAt, OnGraph, Children, Followed;
    PrefixIsFollowed(g, q, links, n);
    var r := EntryAt(q, links[..n]);
    ReachedIsOnGraph(g, q, r);
    SubtreeUnfolds(g, q, r);
    if n == |links| {
      assert links[..n] == links;
    } else {
      SubtreeIsComplete(g, q, links, n + 1);
      NextIsChild(g, q, links, n);
      InForest(g, q, Children(g, q, r), q.policy.maxHops, EntryAt(q, links[..n + 1]), EntryAt(q, links));
    }
  }

  // ------------------------------------------------------------ followed links are compliant walks

  /** What holds of a partial path that the search reaches. */
  ghost predicate PartialWalk(g: Graph, q: Query, path: seq<string>, links: seq<Link>)
    requires |path| == |links| + 1
  {
    && |links| <= q.policy.maxHops
    && SimpleWalk(g, path, links)
    && TrustedWalk(g, q, path)
    && WithinLatency(q.policy, links)
    && BeforeArrival(q, path)
  }

  ghost predicate BeforeArrival(q: Query, path: seq<string>) {
    forall i :: 0 <= i < |path| - 1 ==> path[i] != q.destination
  }

  lemma LinksOfWalkAreValid(g: Graph, path: seq<string>, links: seq<Link>)
    requires ValidGraph(g) && |path| == |links| + 1 && SimpleWalk(g, path, links)
    ensures forall l :: l in links ==> l.latencyMs >= 0 && l.destination in g.nodes
  {
    forall l | l in links ensures l.latencyMs >= 0 && l.destination in g.nodes {
      var i :| 0 <= i < |links| && links[i] == l;
      assert links[i] in g.links[path[i]];
    }
  }

  lemma PrefixOfWalk(g: Graph, q: Query, path: seq<string>, links: seq<Link>)
    requires ValidGraph(g) && |path| == |links| + 1 && PartialWalk(g, q, path, links) && links != []
    ensures PartialWalk(g, q, Front(path), Front(links))
  {
    hide TrustAllowed;
    LinksOfWalkAreValid(g, path, links);
    assert SimpleWalk(g, Front(path), Front(links));
    assert TrustedWalk(g, q, Front(path));
    assert Latency(Front(links)) <= Latency(links);
  }

  lemma ExtendedIsSimple(g: Graph, path: seq<string>, links: seq<Link>, l: Link)
    requires |path| == |links| + 1 && SimpleWalk(g, path, links)
    requires l in Outgoing(g, Last(path)) && l.enabled && l.destination !in path
    ensures SimpleWalk(g, path + [l.destination], links + [l])
  {
    assert forall i :: 0 <= i < |path| ==> (path + [l.destination])[i] == path[i];
    assert forall i :: 0 <= i < |links| ==> (links + [l])[i] == links[i];
  }

  lemma ExtendedIsTrusted(g: Graph, q: Query, path: seq<string>, o: string)
    requires TrustedWalk(g, q, path) && o in g.nodes
    requires TrustAllowed(g.nodes[o], q.policy, o == q.destination) && (o == q.destination || g.nodes[o].relayAllowed)
    ensures TrustedWalk(g, q, path + [o])
  {
    hide TrustAllowed;
    assert forall i :: 0 <= i < |path| ==> (path + [o])[i] == path[i];
  }

  lemma ExtensionOfWalk(g: Graph, q: Query, path: seq<string>, links: seq<Link>, e: Entry, l: Link)
    requires ValidGraph(g) && |path| == |links| + 1 && PartialWalk(g, q, path, links)
    requires e.path == path && e.links == links && e.latency == Latency(links)
    requires !Stops(q, e) && l in Outgoing(g, Last(path)) && l.destination in g.nodes && Admits(g, q, e, l)
    ensures PartialWalk(g, q, path + [l.destination], links + [l])
  {
    hide TrustAllowed, LinkCost, ValidGraph, SimpleWalk, TrustedWalk, Outgoing;
    assert Front(links + [l]) == links;
    ExtendedIsSimple(g, path, links, l);
    ExtendedIsTrusted(g, q, path, l.destination);
    assert BeforeArrival(q, path + [l.destination]);
  }

  lemma LastStepOfFollowed(g: Graph, q: Query, links: seq<Link>)
    requires Followed(g, q, links) && links != []
    ensures Followed(g, q, Front(links))
    ensures var e, l := EntryAt(q, Front(links)), Last(links);
            e.path != [] && !Stops(q, e) && l in Outgoing(g, Last(e.path)) && l.destination in g.nodes && Admits(g, q, e, l)
  {
    hide Admits, Outgoing, Stops, EntryAt;
  }

  lemma OfficesOneMore(origin: string, links: seq<Link>)
    requires links != []
    ensures Offices(origin, links) == Offices(origin, Front(links)) + [Last(links).destination]
  {}

  lemma FrontAndLast<T>(s: seq<T>)
    requires s != []
    ensures s == Front(s) + [Last(s)] && |Front(s)| < |s|
  {}

  lemma {:induction false} FollowedIsPartialWalk(g: Graph, q: Query, links: seq<Link>)
    requires ValidGraph(g) && Eligible(g, q) && Followed(g, q, links)
    ensures PartialWalk(g, q, Offices(q.origin, links), links)
  {
    if links != [] {
      hide TrustAllowed, PartialWalk, Admits, ValidGraph, Eligible, EntryAt, Offices, Followed, Stops, Outgoing, Latency;
      var front := Front(links);
      FrontAndLast(links);
      LastStepOfFollowed(g, q, links);
      FollowedIsPartialWalk(g, q, front);
      EntryAtMeaning(q, front);
      hide RouteCost, Front, Last;
      OfficesOneMore(q.origin, links);
      ExtensionOfWalk(g, q, Offices(q.origin, front), front, EntryAt(q, front), Last(links));
    }
  }

  lemma LastStepIsAdmitted(g: Graph, q: Query, path: seq<string>, links: seq<Link>, e: Entry)
    requires ValidGraph(g) && |path| == |links| + 1 && PartialWalk(g, q, path, links) && links != []
    requires Last(path) == Last(links).destination
    requires e.path == Front(path) && e.links == Front(links) && e.latency == Latency(Front(links))
    ensures !Stops(q, e) && Last(links) in Outgoing(g, Last(e.path))
    ensures Last(links).destination in g.nodes && Admits(g, q, e, Last(links))
  {
    hide TrustAllowed;
    var n := |links| - 1;
    assert links[n] in g.links[path[n]];
    assert path[n + 1] == Last(path);
    LinksOfWalkAreValid(g, path, links);
    assert Latency(links) == e.latency + Last(links).latencyMs;
    assert path[n] != q.destination;
    forall i | 0 <= i < |e.path| ensures e.path[i] != path[n + 1] {}
    assert TrustAllowed(g.nodes[path[n + 1]], q.policy, path[n + 1] == q.destination);
  }

  lemma {:induction false} PartialWalkIsFollowed(g: Graph, q: Query, links: seq<Link>)
    requires ValidGraph(g) && Eligible(g, q) && PartialWalk(g, q, Offices(q.origin, links), links)
    ensures Followed(g, q, links)
  {
    hide TrustAllowed, PartialWalk, Admits;
    if links != [] {
      var front, path := Front(links), Offices(q.origin, links);
      PrefixOfWalk(g, q, path, links);
      assert Front(path) == Offices(q.origin, front);
      PartialWalkIsFollowed(g, q, front);
      EntryAtMeaning(q, front);
      LastStepIsAdmitted(g, q, path, links, EntryAt(q, front));
    }
  }

  /** Every compliant route, with the multiplicity that repeated links give it. */
  ghost function AllRoutes(g: Graph, q: Query): seq<Entry>
    requires ValidGraph(g)
  {
    if Eligible(g, q) then
      ReachedIsOnGraph(g, q, Root(q));
      TreeIsOnGraph(g, q);
      Hits(g, q, Subtree(g, q, Root(q)))
    else []
  }

  lemma TreeIsOnGraph(g: Graph, q: Query)
    requires ValidGraph(g) && Eligible(g, q)
    ensures OnGraph(g, q, Root(q))
    ensures forall e :: e in Subtree(g, q, Root(q)) ==> OnGraph(g, q, e)
  {
    ReachedIsOnGraph(g, q, Root(q));
    forall e | e in Subtree(g, q, Root(q)) ensures OnGraph(g, q, e) {
      SubtreeIsSound(g, q, Root(q), e);
      ReachedIsOnGraph(g, q, e);
    }
  }

  lemma RoutesAreCompliant(g: Graph, q: Query, links: seq<Link>)
    requires ValidGraph(g) && EntryAt(q, links) in AllRoutes(g, q)
    ensures Compliant(g, q, links)
  {
    hide TrustAllowed, Subtree, ValidGraph, Eligible;
    var path := Offices(q.origin, links);
    TreeIsOnGraph(g, q);
    EntryAtMeaning(q, links);
    SubtreeIsSound(g, q, Root(q), EntryAt(q, links));
    FollowedIsPartialWalk(g, q, links);
    ReachedIsOnGraph(g, q, EntryAt(q, links));
    CapabilitiesMeetRequirements(g, q.policy, path, links);
  }

  lemma CompliantRoutesAreFound(g: Graph, q: Query, links: seq<Link>)
    requires ValidGraph(g) && Compliant(g, q, links)
    ensures EntryAt(q, links) in AllRoutes(g, q)
  {
    hide TrustAllowed, Subtree, ValidGraph, Eligible;
    var path := Offices(q.origin, links);
    TreeIsOnGraph(g, q);
    EntryAtMeaning(q, links);
    assert path[|links|] == q.destination;
    assert PartialWalk(g, q, path, links);
    PartialWalkIsFollowed(g, q, links);
    SubtreeIsComplete(g, q, links, 0);
    assert links[..0] == [];
    CapabilitiesMeetRequirements(g, q.policy, path, links);
  }

  /** The search space is exactly the set of policy-compliant routes. */
  lemma SearchFindsExactlyTheCompliantRoutes(g: Graph, q: Query, links: seq<Link>)
    requires ValidGraph(g)
    ensures Compliant(g, q, links) <==> EntryAt(q, links) in AllRoutes(g, q)
  {
    hide Compliant, AllRoutes, EntryAt;
    if EntryAt(q, links) in AllRoutes(g, q) {
      RoutesAreCompliant(g, q, links);
    }
    if Compliant(g, q, links) {
      CompliantRoutesAreFound(g, q, links);
    }
  }

  /** A route in the search space is the one its links describe, priced by its links. */
  lemma RoutesAreDeterminedByTheirLinks(g: Graph, q: Query, e: Entry)
    requires ValidGraph(g) && e in AllRoutes(g, q)
    ensures e == EntryAt(q, e.links) && Compliant(g, q, e.links)
    ensures OnGraph(g, q, e) && e.priority == RouteCost(e.links) && e.latency == Latency(e.links)
  {
    TreeIsOnGraph(g, q);
    SubtreeIsSound(g, q, Root(q), e);
    SearchFindsExactlyTheCompliantRoutes(g, q, e.links);
    EntryAtMeaning(q, e.links);
  }

  // ------------------------------------------------------------ one step of the search

  /** What a queue still has to yield. */
  ghost function Pending(g: Graph, q: Query, queue: seq<Entry>): multiset<Entry>
    requires ValidGraph(g) && Eligible(g, q) && AllReached(g, q, queue)
  {
    AllReachedIsOnGraph(g, q, queue);
    ForestIsOnGraph(g, q, queue);
    multiset(Hits(g, q, Forest(g, q, queue, q.policy.maxHops)))
  }

  /** How many entries the search will still pop if it drains a queue. */
  ghost function Work(g: Graph, q: Query, queue: seq<Entry>): nat
    requires ValidGraph(g) && Eligible(g, q) && AllReached(g, q, queue)
  {
    AllReachedIsOnGraph(g, q, queue);
    |Forest(g, q, queue, q.policy.maxHops)|
  }

  lemma ForestIsOnGraph(g: Graph, q: Query, queue: seq<Entry>)
    requires ValidGraph(g) && Eligible(g, q) && AllReached(g, q, queue)
    ensures forall e :: e in queue ==> OnGraph(g, q, e) && Remaining(q, e) <= q.policy.maxHops
    ensures forall e :: e in Forest(g, q, queue, q.policy.maxHops) ==> OnGraph(g, q, e)
  {
    AllReachedIsOnGraph(g, q, queue);
    forall e | e in Forest(g, q, queue, q.policy.maxHops) ensures OnGraph(g, q, e) {
      var _ := ForestIsSound(g, q, queue, q.policy.maxHops, e);
      ReachedIsOnGraph(g, q, e);
    }
  }

  lemma PendingConcat(g: Graph, q: Query, a: seq<Entry>, b: seq<Entry>)
    requires ValidGraph(g) && Eligible(g, q) && AllReached(g, q, a) && AllReached(g, q, b)
    ensures AllReached(g, q, a + b)
    ensures Pending(g, q, a + b) == Pending(g, q, a) + Pending(g, q, b)
    ensures Work(g, q, a + b) == Work(g, q, a) + Work(g, q, b)
  {
    var n := q.policy.maxHops;
    ForestIsOnGraph(g, q, a);
    ForestIsOnGraph(g, q, b);
    ForestIsOnGraph(g, q, a + b);
    ForestConcat(g, q, a, b, n);
    HitsConcat(g, q, Forest(g, q, a, n), Forest(g, q, b, n));
  }

  lemma PendingOfOne(g: Graph, q: Query, e: Entry)
    requires ValidGraph(g) && Eligible(g, q) && Reached(g, q, e)
    ensures OnGraph(g, q, e)
    ensures Pending(g, q, [e]) == Pending(g, q, Children(g, q, e)) + (if Accepts(g, q, e) then multiset{e} else multiset{})
    ensures Work(g, q, [e]) == 1 + Work(g, q, Children(g, q, e))
  {
    hide Subtree, Eligible, TrustAllowed, Children, Reached, ValidGraph;
    ReachedIsOnGraph(g, q, e);
    var n, kids := q.policy.maxHops, Children(g, q, e);
    SubtreeUnfolds(g, q, e);
    ForestIsOnGraph(g, q, [e]);
    ForestIsOnGraph(g, q, kids);
    assert Forest(g, q, [e], n) == Subtree(g, q, e) + Forest(g, q, [], n);
    assert Forest(g, q, [e], n) == [e] + Forest(g, q, kids, n);
    HitsConcat(g, q, [e], Forest(g, q, kids, n));
    assert Hits(g, q, [e]) == if Accepts(g, q, e) then [e] else [];
  }

  /** Popping one entry and pushing its children loses no route and shrinks the remaining work by one. */
  lemma PopAndPush(g: Graph, q: Query, queue: seq<Entry>, i: nat)
    requires ValidGraph(g) && Eligible(g, q) && AllReached(g, q, queue) && i < |queue|
    ensures OnGraph(g, q, queue[i])
    ensures var next := queue[..i] + queue[i + 1..] + Children(g, q, queue[i]);
            && AllReached(g, q, next)
            && Pending(g, q, queue) ==
                 Pending(g, q, next) + (if Accepts(g, q, queue[i]) then multiset{queue[i]} else multiset{})
            && Work(g, q, queue) == 1 + Work(g, q, next)
  {
    hide Pending, Work, Children, Reached, Accepts, Eligible, ValidGraph;
    var e := queue[i];
    var left, right, kids := queue[..i], queue[i + 1..], Children(g, q, e);
    assert queue == left + ([e] + right);
    PendingConcat(g, q, left, [e] + right);
    PendingConcat(g, q, [e], right);
    PendingConcat(g, q, left, right);
    PendingConcat(g, q, left + right, kids);
    PendingOfOne(g, q, e);
  }

  /** A route still to come continues some entry in the queue, and peaks at least as high. */
  lemma PendingPeaksHigher(g: Graph, q: Query, queue: seq<Entry>, r: Entry) returns (e: Entry)
    requires ValidGraph(g) && Eligible(g, q) && AllReached(g, q, queue) && r in Pending(g, q, queue)
    ensures e in queue && e.links <= r.links && Peak(e.links) <= Peak(r.links)
  {
    ForestIsOnGraph(g, q, queue);
    e := ForestIsSound(g, q, queue, q.policy.maxHops, r);
    PeakOfPrefix(e.links, r.links);
  }

  // ------------------------------------------------------------ answers

  function Score(g: Graph, path: seq<string>, links: seq<Link>, latency: int): int
    requires path != [] && forall o :: o in path ==> o in g.nodes
  {
    TrustWeight(TrustFloor(g, path)) * 100 + Preference(g, path[1..]) - latency - (|path| - 1) * 100 - LinkCost(links)
  }

  function CandidateOf(g: Graph, q: Query, e: Entry): Candidate
    requires OnGraph(g, q, e)
  {
    PathCandidate(
      e.path, e.latency, TrustFloor(g, e.path), Score(g, e.path, e.links, e.latency),
      PathSecurity(g, e.path, e.links), PathMedia(g, e.path, e.links))
  }

  ghost function CandidatesOf(g: Graph, q: Query, es: seq<Entry>): seq<Candidate>
    requires forall e :: e in es ==> OnGraph(g, q, e)
  {
    seq(|es|, i requires 0 <= i < |es| => CandidateOf(g, q, es[i]))
  }

  /** The part of a score that does not depend on the links taken. */
  function Standing(g: Graph, path: seq<string>): int
    requires path != [] && forall o :: o in path ==> o in g.nodes
  {
    TrustWeight(TrustFloor(g, path)) * 100 + Preference(g, path[1..])
  }

  ghost function StandingOf(g: Graph, q: Query, links: seq<Link>): int
    requires Compliant(g, q, links)
  {
    Standing(g, Offices(q.origin, links))
  }

  /** The score of a compliant route: its standing less what the search prices it at. */
  ghost function ScoreOf(g: Graph, q: Query, links: seq<Link>): int
    requires Compliant(g, q, links)
  {
    StandingOf(g, q, links) - RouteCost(links)
  }

  /** The score and the search order are two readings of one sum. */
  lemma ScoreIsStandingMinusCost(g: Graph, q: Query, e: Entry)
    requires ValidGraph(g) && e in AllRoutes(g, q)
    ensures OnGraph(g, q, e) && Compliant(g, q, e.links)
    ensures CandidateOf(g, q, e).score == ScoreOf(g, q, e.links)
  {
    RoutesAreDeterminedByTheirLinks(g, q, e);
    EntryAtMeaning(q, e.links);
  }

  /** `found` are routes of the search space, and none that was omitted peaks lower than one that was found. */
  ghost predicate LowestPeaks(g: Graph, q: Query, limit: int, found: seq<Entry>)
    requires ValidGraph(g)
  {
    && |found| <= limit
    && multiset(found) <= multiset(AllRoutes(g, q))
    && (|found| < limit ==> multiset(found) == multiset(AllRoutes(g, q)))
    && (forall f, r :: f in found && r in Omitted(g, q, found) ==> Peak(f.links) <= Peak(r.links))
  }

  ghost function Omitted(g: Graph, q: Query, found: seq<Entry>): multiset<Entry>
    requires ValidGraph(g)
  {
    multiset(AllRoutes(g, q)) - multiset(found)
  }

  /** Without negative steps no omitted route is cheaper than a found one. */
  lemma FoundRoutesAreCheapest(g: Graph, q: Query, limit: int, found: seq<Entry>, f: Entry, r: Entry)
    requires ValidGraph(g) && NonNegativeSteps(g) && LowestPeaks(g, q, limit, found)
    requires f in found && r in Omitted(g, q, found)
    ensures RouteCost(f.links) <= RouteCost(r.links)
  {
    assert f in multiset(found) && f in multiset(AllRoutes(g, q)) && r in multiset(AllRoutes(g, q));
    RoutesAreDeterminedByTheirLinks(g, q, f);
    RoutesAreDeterminedByTheirLinks(g, q, r);
    hide AllRoutes, ValidGraph, EntryAt, Compliant, OnGraph, RouteCost;
    RoutePeaksAtItsCost(g, q, f.links);
    RoutePeaksAtItsCost(g, q, r.links);
  }

  ghost predicate Answers(g: Graph, q: Query, limit: int, found: seq<Entry>, answer: seq<Candidate>)
    requires ValidGraph(g)
  {
    && LowestPeaks(g, q, limit, found)
    && (forall e :: e in found ==> OnGraph(g, q, e))
    && multiset(answer) == multiset(CandidatesOf(g, q, found))
    && Sorted(CandidateLeq, answer)
  }

  // ------------------------------------------------------------ the invariant of the search loop

  function PeakBefore(e: Entry): int {
    if e.links == [] then 0 else Peak(Front(e.links))
  }

  /** Nothing queued peaks lower than anything found, or than the point from which anything queued was reached. */
  ghost predicate InOrder(found: seq<Entry>, queue: seq<Entry>) {
    && (forall f, e :: f in found && e in queue ==> Peak(f.links) <= Peak(e.links))
    && (forall d, e :: d in queue && e in queue ==> PeakBefore(d) <= Peak(e.links))
  }

  /** Found and pending routes make up all routes, and the queue is in order. */
  ghost predicate SearchInvariant(g: Graph, q: Query, queue: seq<Entry>, found: seq<Entry>)
    requires ValidGraph(g) && Eligible(g, q)
  {
    && AllReached(g, q, queue)
    && AllReached(g, q, found)
    && multiset(found) + Pending(g, q, queue) == multiset(AllRoutes(g, q))
    && InOrder(found, queue)
  }

  lemma SearchStarts(g: Graph, q: Query)
    requires ValidGraph(g) && Eligible(g, q)
    ensures SearchInvariant(g, q, [Root(q)], [])
  {
    var n := q.policy.maxHops;
    TreeIsOnGraph(g, q);
    hide Eligible, ValidGraph, Subtree;
    assert Reached(g, q, Root(q)) by { assert EntryAt(q, []) == Root(q) && Followed(g, q, []); }
    AllReachedIsOnGraph(g, q, [Root(q)]);
    assert Forest(g, q, [Root(q)], n) == Subtree(g, q, Root(q)) + Forest(g, q, [], n);
    assert Forest(g, q, [Root(q)], n) == Subtree(g, q, Root(q));
  }

  ghost function Popped(g: Graph, q: Query, queue: seq<Entry>, i: nat): seq<Entry>
    requires ValidGraph(g) && Eligible(g, q) && AllReached(g, q, queue) && i < |queue|
  {
    queue[..i] + queue[i + 1..] + Children(g, q, queue[i])
  }

  ghost function Taken(g: Graph, q: Query, found: seq<Entry>, e: Entry): seq<Entry>
    requires OnGraph(g, q, e)
  {
    if Accepts(g, q, e) then found + [e] else found
  }

  /** An entry of least priority peaks no higher than any other queued entry. */
  lemma LeastPeaksLowest(g: Graph, q: Query, queue: seq<Entry>, i: nat, found: seq<Entry>, e: Entry)
    requires AllReached(g, q, queue) && i < |queue| && InOrder(found, queue) && e in queue
    requires queue[i].priority <= e.priority
    ensures Peak(queue[i].links) <= Peak(e.links)
  {
    EntryAtMeaning(q, queue[i].links);
    EntryAtMeaning(q, e.links);
    assert Reached(g, q, queue[i]) && Reached(g, q, e);
    hide EntryAt, Followed, RouteCost;
    assert PeakBefore(queue[i]) <= Peak(e.links);
  }

  lemma ChildPeaksHigher(g: Graph, q: Query, e: Entry, k: Entry)
    requires ValidGraph(g) && Eligible(g, q) && Reached(g, q, e) && k in Children(g, q, e)
    ensures PeakBefore(k) == Peak(e.links) <= Peak(k.links)
  {
    ChildIsBelow(g, q, e, k);
    hide Children, ValidGraph, Eligible, Reached, RouteCost;
  }

  /** Whatever is queued after a pop was queued before or continues what was popped, and peaks no lower than that. */
  lemma PoppedEntry(g: Graph, q: Query, queue: seq<Entry>, i: nat, found: seq<Entry>, x: Entry)
    requires ValidGraph(g) && Eligible(g, q) && AllReached(g, q, queue) && i < |queue| && InOrder(found, queue)
    requires forall j :: 0 <= j < |queue| ==> queue[i].priority <= queue[j].priority
    requires x in Popped(g, q, queue, i)
    ensures Peak(queue[i].links) <= Peak(x.links)
    ensures x in queue || PeakBefore(x) == Peak(queue[i].links)
  {
    assert x in queue || x in Children(g, q, queue[i]);
    hide Peak, PeakBefore, Children, ValidGraph, Eligible, InOrder;
    if x in queue {
      LeastPeaksLowest(g, q, queue, i, found, x);
    } else {
      ChildPeaksHigher(g, q, queue[i], x);
    }
  }

  lemma PoppedOrder(g: Graph, q: Query, queue: seq<Entry>, i: nat, found: seq<Entry>)
    requires ValidGraph(g) && Eligible(g, q) && AllReached(g, q, queue) && i < |queue| && OnGraph(g, q, queue[i])
    requires forall j :: 0 <= j < |queue| ==> queue[i].priority <= queue[j].priority
    requires InOrder(found, queue)
    ensures InOrder(Taken(g, q, found, queue[i]), Popped(g, q, queue, i))
  {
    hide Peak, PeakBefore, Popped, Accepts, Reached, ValidGraph, Eligible, OnGraph;
    assert queue[i] in queue;
    forall f, x | f in Taken(g, q, found, queue[i]) && x in Popped(g, q, queue, i)
      ensures Peak(f.links) <= Peak(x.links)
    {
      PoppedEntry(g, q, queue, i, found, x);
      assert f == queue[i] || Peak(f.links) <= Peak(queue[i].links);
    }
    forall d, x | d in Popped(g, q, queue, i) && x in Popped(g, q, queue, i)
      ensures PeakBefore(d) <= Peak(x.links)
    {
      PoppedEntry(g, q, queue, i, found, d);
      PoppedEntry(g, q, queue, i, found, x);
      assert d in queue ==> PeakBefore(d) <= Peak(queue[i].links);
    }
  }

  lemma SearchSteps(g: Graph, q: Query, queue: seq<Entry>, i: nat, found: seq<Entry>)
    requires ValidGraph(g) && Eligible(g, q) && SearchInvariant(g, q, queue, found) && i < |queue|
    requires forall j :: 0 <= j < |queue| ==> queue[i].priority <= queue[j].priority
    ensures OnGraph(g, q, queue[i])
    ensures SearchInvariant(g, q, Popped(g, q, queue, i), Taken(g, q, found, queue[i]))
    ensures Work(g, q, Popped(g, q, queue, i)) < Work(g, q, queue)
  {
    hide Pending, Work, Children, Reached, Accepts, Eligible, ValidGraph, AllRoutes, InOrder, Peak;
    PopAndPush(g, q, queue, i);
    PoppedOrder(g, q, queue, i, found);
  }

  lemma SearchEnds(g: Graph, q: Query, queue: seq<Entry>, found: seq<Entry>, limit: nat)
    requires ValidGraph(g) && Eligible(g, q) && SearchInvariant(g, q, queue, found)
    requires |found| <= limit && (queue == [] || |found| == limit)
    ensures LowestPeaks(g, q, limit, found)
  {
    assert queue == [] ==> Pending(g, q, queue) == multiset{};
    hide Pending, Eligible, ValidGraph, AllRoutes, Peak;
    forall f, r | f in found && r in Omitted(g, q, found)
      ensures Peak(f.links) <= Peak(r.links)
    {
      var e := PendingPeaksHigher(g, q, queue, r);
    }
  }

  // ------------------------------------------------------------ what an answer tells the caller

  lemma FoundRoutesAreRoutes(g: Graph, q: Query, limit: int, found: seq<Entry>, e: Entry)
    requires ValidGraph(g) && LowestPeaks(g, q, limit, found) && e in found
    ensures e in AllRoutes(g, q)
  {
    assert e in multiset(found);
    assert e in multiset(AllRoutes(g, q));
  }

  lemma AnswerEntries(g: Graph, q: Query, limit: int, found: seq<Entry>, answer: seq<Candidate>, c: Candidate)
      returns (e: Entry)
    requires ValidGraph(g) && Answers(g, q, limit, found, answer) && c in answer
    ensures e in found && c == CandidateOf(g, q, e)
  {
    hide LowestPeaks, CandidateLeq, CandidateOf, ValidGraph, OnGraph, Sorted;
    assert c in multiset(answer);
    assert c in CandidatesOf(g, q, found);
    var i :| 0 <= i < |found| && CandidatesOf(g, q, found)[i] == c;
    e := found[i];
  }

  lemma FoundIsAnswered(g: Graph, q: Query, limit: int, found: seq<Entry>, answer: seq<Candidate>, e: Entry)
    requires ValidGraph(g) && Answers(g, q, limit, found, answer) && e in found
    ensures CandidateOf(g, q, e) in answer
  {
    var i :| 0 <= i < |found| && found[i] == e;
    assert CandidatesOf(g, q, found)[i] in multiset(CandidatesOf(g, q, found));
    assert CandidateOf(g, q, e) in multiset(answer);
  }

  /** Everything offered satisfies the policy. */
  lemma AnswersAreCompliant(g: Graph, q: Query, limit: int, found: seq<Entry>, answer: seq<Candidate>, c: Candidate)
    requires ValidGraph(g) && Answers(g, q, limit, found, answer) && c in answer
    ensures exists links ::
              Compliant(g, q, links) && c.offices == Offices(q.origin, links) && c.latencyMs == Latency(links)
  {
    var e := AnswerEntries(g, q, limit, found, answer, c);
    FoundRoutesAreRoutes(g, q, limit, found, e);
    RoutesAreDeterminedByTheirLinks(g, q, e);
  }

  /** Nothing is offered exactly when no route is compliant. */
  lemma EmptyAnswerMeansNoRoute(g: Graph, q: Query, limit: int, found: seq<Entry>, answer: seq<Candidate>)
    requires ValidGraph(g) && limit >= 1 && Answers(g, q, limit, found, answer)
    ensures answer == [] <==> !exists links :: Compliant(g, q, links)
  {
    assert |answer| == |multiset(answer)| == |CandidatesOf(g, q, found)| == |found|;
    if answer == [] {
      forall links ensures !Compliant(g, q, links) {
        SearchFindsExactlyTheCompliantRoutes(g, q, links);
        assert EntryAt(q, links) !in multiset(AllRoutes(g, q));
      }
    } else {
      AnswersAreCompliant(g, q, limit, found, answer, answer[0]);
    }
  }

  /** When the limit was not reached, the head has the highest score of any compliant route. */
  lemma HeadIsBestBelowTheLimit(g: Graph, q: Query, limit: int, found: seq<Entry>, answer: seq<Candidate>)
    requires ValidGraph(g) && Answers(g, q, limit, found, answer)
    ensures |answer| < limit ==>
              forall links :: Compliant(g, q, links) ==> answer != [] && ScoreOf(g, q, links) <= answer[0].score
  {
    hide Compliant, CandidateOf, Eligible, ValidGraph, EntryAt, AllRoutes, PathLeq, ScoreOf;
    assert |answer| == |multiset(answer)| == |CandidatesOf(g, q, found)| == |found|;
    forall links | |answer| < limit && Compliant(g, q, links)
      ensures answer != [] && ScoreOf(g, q, links) <= answer[0].score
    {
      var e := EntryAt(q, links);
      SearchFindsExactlyTheCompliantRoutes(g, q, links);
      ScoreIsStandingMinusCost(g, q, e);
      assert e in multiset(found);
      FoundIsAnswered(g, q, limit, found, answer, e);
      var i :| 0 <= i < |answer| && answer[i] == CandidateOf(g, q, e);
    }
  }

  lemma HeadBeatsItsEquals(g: Graph, q: Query, limit: int, found: seq<Entry>, answer: seq<Candidate>,
                           head: seq<Link>, links: seq<Link>)
    requires ValidGraph(g) && Answers(g, q, limit, found, answer) && answer != [] && NonNegativeSteps(g)
    requires EntryAt(q, head) in found && Compliant(g, q, head) && ScoreOf(g, q, head) == answer[0].score
    requires Compliant(g, q, links) && StandingOf(g, q, links) <= StandingOf(g, q, head)
    ensures ScoreOf(g, q, links) <= answer[0].score
  {
    hide Compliant, CandidateOf, Eligible, ValidGraph, EntryAt, AllRoutes, PathLeq, StandingOf, RouteCost, NonNegativeSteps;
    var e := EntryAt(q, links);
    SearchFindsExactlyTheCompliantRoutes(g, q, links);
    ScoreIsStandingMinusCost(g, q, e);
    if e in found {
      FoundIsAnswered(g, q, limit, found, answer, e);
      var i :| 0 <= i < |answer| && answer[i] == CandidateOf(g, q, e);
    } else {
      assert e in Omitted(g, q, found);
      FoundRoutesAreCheapest(g, q, limit, found, EntryAt(q, head), e);
    }
  }

  /**
   Without negative steps, at any limit, the head beats every compliant route of no better standing than its
   own: cheapest-first search can only hide a route that trust or preference would have raised.
   */
  lemma HeadIsBestAmongItsEquals(g: Graph, q: Query, limit: int, found: seq<Entry>, answer: seq<Candidate>)
      returns (head: seq<Link>)
    requires ValidGraph(g) && Answers(g, q, limit, found, answer) && answer != []
    ensures Compliant(g, q, head) && ScoreOf(g, q, head) == answer[0].score
    ensures NonNegativeSteps(g) ==>
              forall links | Compliant(g, q, links) && StandingOf(g, q, links) <= StandingOf(g, q, head) ::
                ScoreOf(g, q, links) <= answer[0].score
  {
    hide CandidateOf, Eligible, ValidGraph, EntryAt, AllRoutes, Sorted, Compliant, ScoreOf, NonNegativeSteps;
    var h := AnswerEntries(g, q, limit, found, answer, answer[0]);
    head := h.links;
    FoundRoutesAreRoutes(g, q, limit, found, h);
    RoutesAreDeterminedByTheirLinks(g, q, h);
    ScoreIsStandingMinusCost(g, q, h);
    forall links | NonNegativeSteps(g) && Compliant(g, q, links) && StandingOf(g, q, links) <= StandingOf(g, q, head)
      ensures ScoreOf(g, q, links) <= answer[0].score
    {
      HeadBeatsItsEquals(g, q, limit, found, answer, head, links);
    }
  }

  /** Without negative steps, a search limited to one route finds the one that is cheaper than all others. */
  lemma LimitOneFindsTheCheapest(g: Graph, q: Query, found: seq<Entry>, cheap: seq<Link>)
    requires ValidGraph(g) && NonNegativeSteps(g) && LowestPeaks(g, q, 1, found) && Compliant(g, q, cheap)
    requires forall links :: Compliant(g, q, links) && RouteCost(links) <= RouteCost(cheap) ==> links == cheap
    ensures found == [EntryAt(q, cheap)]
  {
    hide Compliant, ValidGraph, NonNegativeSteps, AllRoutes, EntryAt, RouteCost;
    var e := EntryAt(q, cheap);
    SearchFindsExactlyTheCompliantRoutes(g, q, cheap);
    assert e in multiset(AllRoutes(g, q));
    assert |found| == 1;
    var f := found[0];
    FoundRoutesAreRoutes(g, q, 1, found, f);
    RoutesAreDeterminedByTheirLinks(g, q, f);
    assert e in Omitted(g, q, found) || f == e;
    if f != e {
      FoundRoutesAreCheapest(g, q, 1, found, f, e);
    }
  }

  // ------------------------------------------------------------ no route is found twice

  /** No office has two equal links. */
  ghost predicate DistinctLinks(g: Graph) {
    forall id :: id in g.links ==> Distinct(g.links[id])
  }

  lemma DistinctConcat<T(!new)>(a: seq<T>, b: seq<T>)
    requires Distinct(a) && Distinct(b) && forall x, y :: x in a && y in b ==> x != y
    ensures Distinct(a + b)
  {
    forall i, j | 0 <= i < j < |a + b| ensures (a + b)[i] != (a + b)[j] {
      if j < |a| {
        assert a[i] != a[j];
      } else if i < |a| {
        assert a[i] in a && b[j - |a|] in b;
      } else {
        assert b[i - |a|] != b[j - |a|];
      }
    }
  }

  lemma {:induction false} KidsAreDistinct(g: Graph, q: Query, e: Entry, ls: seq<Link>)
    requires forall l :: l in ls ==> l.destination in g.nodes
    requires Distinct(ls)
    ensures Distinct(Kids(g, q, e, ls))
  {
    hide Admits;
    if ls != [] {
      var last := Last(ls);
      KidsAreDistinct(g, q, e, Front(ls));
      forall k | k in Kids(g, q, e, Front(ls)) ensures k != Extend(e, last) {
        var l :| l in Front(ls) && k == Extend(e, l);
        assert Extend(e, l).links[|e.links|] == l;
        assert Extend(e, last).links[|e.links|] == last;
        var i :| 0 <= i < |ls| - 1 && ls[i] == l;
      }
      DistinctConcat(Kids(g, q, e, Front(ls)), if Admits(g, q, e, last) then [Extend(e, last)] else []);
    }
  }

  lemma ChildrenAreDistinct(g: Graph, q: Query, r: Entry)
    requires ValidGraph(g) && DistinctLinks(g) && Eligible(g, q) && Reached(g, q, r) && OnGraph(g, q, r)
    ensures Distinct(Children(g, q, r))
    ensures forall k :: k in Children(g, q, r) ==> |k.links| == |r.links| + 1
  {
    hide Admits, Eligible, TrustAllowed, EntryAt;
    if Children(g, q, r) != [] {
      KidsAreDistinct(g, q, r, Outgoing(g, Last(r.path)));
    }
  }

  lemma {:induction false} SubtreeIsDistinct(g: Graph, q: Query, r: Entry)
    requires ValidGraph(g) && DistinctLinks(g) && Eligible(g, q) && Reached(g, q, r) && OnGraph(g, q, r)
    ensures Distinct(Subtree(g, q, r))
    decreases Remaining(q, r), 0, 0
  {
    hide Eligible, TrustAllowed, Admits, EntryAt, ValidGraph;
    var kids := Children(g, q, r);
    SubtreeUnfolds(g, q, r);
    if kids != [] {
      ChildrenAreDistinct(g, q, r);
      ForestLevelIsIrrelevant(g, q, kids, Remaining(q, r) - 1, q.policy.maxHops);
      hide Children, DistinctLinks, Subtree, Forest;
      ForestIsDistinct(g, q, kids, Remaining(q, r) - 1, |r.links| + 1);
      forall e | e in Forest(g, q, kids, q.policy.maxHops) ensures e != r {
        var k := ForestIsSound(g, q, kids, Remaining(q, r) - 1, e);
      }
      DistinctConcat([r], Forest(g, q, kids, q.policy.maxHops));
    }
  }

  lemma {:induction false} ForestIsDistinct(g: Graph, q: Query, es: seq<Entry>, level: nat, depth: nat)
    requires ValidGraph(g) && DistinctLinks(g) && Eligible(g, q) && AllReached(g, q, es) && Distinct(es)
    requires forall x :: x in es ==> OnGraph(g, q, x) && Remaining(q, x) <= level && |x.links| == depth
    ensures Distinct(Forest(g, q, es, level))
    decreases level, 1, |es|
  {
    hide Eligible, TrustAllowed, Subtree, EntryAt, ValidGraph, DistinctLinks, OnGraph;
    if es != [] {
      SubtreeIsDistinct(g, q, es[0]);
      ForestIsDistinct(g, q, es[1..], level, depth);
      forall x, y | x in Subtree(g, q, es[0]) && y in Forest(g, q, es[1..], level) ensures x != y {
        SubtreeIsSound(g, q, es[0], x);
        var k := ForestIsSound(g, q, es[1..], level, y);
        assert es[0].links == x.links[..depth] && k.links == y.links[..depth];
      }
      DistinctConcat(Subtree(g, q, es[0]), Forest(g, q, es[1..], level));
    }
  }

  lemma {:induction false} HitsAreDistinct(g: Graph, q: Query, es: seq<Entry>)
    requires forall e :: e in es ==> OnGraph(g, q, e)
    requires Distinct(es)
    ensures Distinct(Hits(g, q, es))
  {
    hide Accepts, OnGraph;
    if es != [] {
      HitsAreDistinct(g, q, es[1..]);
    }
  }

  /** Unless an office lists the same link twice, no compliant route is offered twice. */
  lemma NoRouteIsFoundTwice(g: Graph, q: Query, limit: int, found: seq<Entry>)
    requires ValidGraph(g) && DistinctLinks(g) && LowestPeaks(g, q, limit, found)
    ensures Distinct(found)
  {
    if Eligible(g, q) {
      hide Eligible, ValidGraph, DistinctLinks, Subtree, EntryAt;
      TreeIsOnGraph(g, q);
      assert Reached(g, q, Root(q)) by { assert EntryAt(q, []) == Root(q) && Followed(g, q, []); }
      SubtreeIsDistinct(g, q, Root(q));
      HitsAreDistinct(g, q, Subtree(g, q, Root(q)));
      DistinctMeansOnce(AllRoutes(g, q));
    }
    OnceMeansDistinct(found);
  }

  lemma {:induction false} DistinctMeansOnce(s: seq<Entry>)
    requires Distinct(s)
    ensures forall x :: multiset(s)[x] <= 1
  {
    if s != [] {
      DistinctMeansOnce(s[1..]);
      assert s == [s[0]] + s[1..];
      assert s[0] !in multiset(s[1..]);
    }
  }

  lemma {:induction false} OnceMeansDistinct(s: seq<Entry>)
    requires forall x :: multiset(s)[x] <= 1
    ensures Distinct(s)
  {
    if s != [] {
      assert s == [s[0]] + s[1..];
      assert forall x :: multiset(s[1..])[x] <= multiset(s)[x];
      OnceMeansDistinct(s[1..]);
      assert s[0] !in multiset(s[1..]);
    }
  }
}
