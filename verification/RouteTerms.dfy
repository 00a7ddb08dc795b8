/**
 What a caller of the route search is told, written out over the fields of
 offices, links and policies. Nothing here refers to the checks that the search
 makes on its way, so these statements hold those checks to account.
 */
module RouteTerms {
  import opened Wrappers
  import opened Sorting
  import opened RouteSpace
  import opened RouteSearch
  import opened RouteRuns
  import opened RouteLoop

  // ------------------------------------------------------------ the terms of a policy

  /** Trusted over observed over unknown over restricted. */
  predicate AtLeast(t: Trust, minimum: Trust) {
    match minimum
    case Trusted => t.Trusted?
    case Observed => t.Trusted? || t.Observed?
    case Unknown => !t.Restricted?
    case Restricted => true
  }

  predicate OutOfService(n: Node) {
    || n.trust.Restricted?
    || n.operational == "restricted"
    || n.operational == "quarantined"
    || n.operational == "withdrawn"
    || n.operational == "revoked"
  }

  /** An unknown office may stand at the end of a route when the policy says so, and only there. */
  predicate InGoodStanding(n: Node, p: Policy, atTheEnd: bool) {
    && !OutOfService(n)
    && (AtLeast(n.trust, p.minimumTrust) || (atTheEnd && p.allowUnknownDestination && n.trust.Unknown?))
  }

  predicate Leads(g: Graph, from: string, l: Link, to: string) {
    from in g.links && l in g.links[from] && l.enabled && l.destination == to
  }

  function Sum(terms: seq<int>): int {
    if terms == [] then 0 else Sum(terms[..|terms| - 1]) + terms[|terms| - 1]
  }

  function Latencies(links: seq<Link>): seq<int> {
    seq(|links|, i requires 0 <= i < |links| => links[i].latencyMs)
  }

  function Costs(links: seq<Link>): seq<int> {
    seq(|links|, i requires 0 <= i < |links| => links[i].cost)
  }

  function Preferences(g: Graph, offices: seq<string>): seq<int> {
    seq(|offices|, i requires 0 <= i < |offices| => if offices[i] in g.nodes then g.nodes[offices[i]].preference else 0)
  }

  /** Everybody on the way offers one means of security, or one medium. */
  ghost predicate AllSecure(g: Graph, path: seq<string>, links: seq<Link>, x: string) {
    && (forall o :: o in path ==> o in g.nodes && x in g.nodes[o].security)
    && (forall l :: l in links ==> x in l.security)
  }

  ghost predicate AllCarry(g: Graph, path: seq<string>, links: seq<Link>, x: string) {
    && (forall o :: o in path ==> o in g.nodes && x in g.nodes[o].media)
    && (forall l :: l in links ==> x in l.media)
  }

  /** The links lead from the origin to the destination, over as many hops as allowed, without a detour. */
  ghost predicate Joins(g: Graph, q: Query, path: seq<string>, links: seq<Link>) {
    && |path| == |links| + 1
    && |links| <= q.policy.maxHops
    && path[0] == q.origin
    && path[|links|] == q.destination
    && (forall i, j :: 0 <= i < j < |path| ==> path[i] != path[j])
    && (forall i :: 0 <= i < |links| ==> Leads(g, path[i], links[i], path[i + 1]))
  }

  /** No office on the way is forbidden or in bad standing, and those in the middle may relay. */
  ghost predicate AllInStanding(g: Graph, p: Policy, path: seq<string>) {
    forall i :: 0 <= i < |path| ==>
      && path[i] in g.nodes
      && path[i] !in p.forbidden
      && InGoodStanding(g.nodes[path[i]], p, 0 < i == |path| - 1)
      && (0 < i < |path| - 1 ==> g.nodes[path[i]].relayAllowed)
  }

  /** The way is fast enough, visits whom it must, and offers what is required of everybody on it. */
  ghost predicate Suffices(g: Graph, p: Policy, path: seq<string>, links: seq<Link>) {
    && (p.maxLatencyMs.Some? ==> Sum(Latencies(links)) <= p.maxLatencyMs.value)
    && (forall o :: o in p.required ==> o in path)
    && (forall x :: x in p.requiredSecurity ==> AllSecure(g, path, links, x))
    && (forall x :: x in p.requiredMedia ==> AllCarry(g, path, links, x))
  }

  /** The offices of `path`, joined by `links`, are a route that the policy allows. */
  ghost predicate MeetsTerms(g: Graph, q: Query, path: seq<string>, links: seq<Link>) {
    Joins(g, q, path, links) && AllInStanding(g, q.policy, path) && Suffices(g, q.policy, path, links)
  }

  // ------------------------------------------------------------ compliance is meeting the terms

  lemma {:induction false} LatencyIsTheSum(links: seq<Link>)
    ensures Latency(links) == Sum(Latencies(links))
  {
    if links != [] {
      LatencyIsTheSum(Front(links));
      assert Latencies(links)[..|links| - 1] == Latencies(Front(links));
    }
  }

  lemma {:induction false} LinkCostIsTheSum(links: seq<Link>)
    ensures LinkCost(links) == Sum(Costs(links))
  {
    if links != [] {
      LinkCostIsTheSum(Front(links));
      assert Costs(links)[..|links| - 1] == Costs(Front(links));
    }
  }

  lemma {:induction false} PreferenceIsTheSum(g: Graph, offices: seq<string>)
    requires forall o :: o in offices ==> o in g.nodes
    ensures Preference(g, offices) == Sum(Preferences(g, offices))
  {
    if offices != [] {
      PreferenceIsTheSum(g, Front(offices));
      assert Preferences(g, offices)[..|offices| - 1] == Preferences(g, Front(offices));
    }
  }

  lemma StandingIsTrustAllowed(n: Node, p: Policy, asDestination: bool)
    ensures TrustAllowed(n, p, asDestination) <==> n.officeId !in p.forbidden && InGoodStanding(n, p, asDestination)
  {}

  lemma CapableMeansAll(g: Graph, p: Policy, path: seq<string>, links: seq<Link>)
    requires forall o :: o in path ==> o in g.nodes
    ensures CapableWalk(g, p, path, links) <==>
              && (forall x :: x in p.requiredSecurity ==> AllSecure(g, path, links, x))
              && (forall x :: x in p.requiredMedia ==> AllCarry(g, path, links, x))
  {
    if CapableWalk(g, p, path, links) {
      forall x | x in p.requiredSecurity ensures AllSecure(g, path, links, x) {}
      forall x | x in p.requiredMedia ensures AllCarry(g, path, links, x) {}
    }
  }

  /** The offices of a route are where its links lead. */
  lemma {:induction false} PathFollowsLinks(origin: string, path: seq<string>, links: seq<Link>)
    requires |path| == |links| + 1 && path[0] == origin
    requires forall i :: 0 <= i < |links| ==> path[i + 1] == links[i].destination
    ensures path == Offices(origin, links)
  {
    forall k | 0 <= k < |path| ensures path[k] == Offices(origin, links)[k] {
      if k > 0 {
        assert path[(k - 1) + 1] == links[k - 1].destination;
      }
    }
  }

  lemma WalkJoins(g: Graph, q: Query, path: seq<string>, links: seq<Link>)
    requires path == Offices(q.origin, links)
    ensures SimpleWalk(g, path, links) && Last(path) == q.destination && |links| <= q.policy.maxHops
       <==> Joins(g, q, path, links)
  {
    assert path[0] == q.origin && forall i :: 0 <= i < |links| ==> path[i + 1] == links[i].destination;
    hide Offices;
    if SimpleWalk(g, path, links) && Last(path) == q.destination && |links| <= q.policy.maxHops {
      forall i | 0 <= i < |links| ensures Leads(g, path[i], links[i], path[i + 1]) {}
    }
    if Joins(g, q, path, links) {
      forall i | 0 <= i < |links| ensures path[i] in g.links && links[i] in g.links[path[i]] && links[i].enabled {
        assert Leads(g, path[i], links[i], path[i + 1]);
      }
    }
  }

  /** The destination stands at the end of the walk, and nowhere else unless it is the origin. */
  lemma WalkStanding(g: Graph, q: Query, path: seq<string>, i: nat)
    requires ValidGraph(g) && i < |path| && path[i] in g.nodes
    requires Distinct(path) && Last(path) == q.destination
    ensures 0 < i ==>
      (TrustAllowed(g.nodes[path[i]], q.policy, path[i] == q.destination) <==>
        path[i] !in q.policy.forbidden && InGoodStanding(g.nodes[path[i]], q.policy, 0 < i == |path| - 1))
    ensures 0 < i ==> (path[i] == q.destination <==> i == |path| - 1)
  {
    assert i < |path| - 1 ==> path[i] != path[|path| - 1];
    StandingIsTrustAllowed(g.nodes[path[i]], q.policy, 0 < i == |path| - 1);
    hide TrustAllowed, InGoodStanding;
  }

  lemma TrustedIsInStanding(g: Graph, q: Query, path: seq<string>)
    requires ValidGraph(g) && path != [] && path[0] == q.origin && Distinct(path) && Last(path) == q.destination
    ensures Eligible(g, q) && TrustedWalk(g, q, path) ==> AllInStanding(g, q.policy, path)
  {
    if Eligible(g, q) && TrustedWalk(g, q, path) {
      forall i | 0 <= i < |path|
        ensures path[i] in g.nodes && path[i] !in q.policy.forbidden
        ensures InGoodStanding(g.nodes[path[i]], q.policy, 0 < i == |path| - 1)
        ensures 0 < i < |path| - 1 ==> g.nodes[path[i]].relayAllowed
      {
        hide InGoodStanding, TrustAllowed, ValidGraph;
        assert path[i] in g.nodes;
        WalkStanding(g, q, path, i);
        StandingIsTrustAllowed(g.nodes[q.origin], q.policy, false);
        assert g.nodes[path[0]].officeId == path[0] by { OfficesAreNamed(g, path[0]); }
      }
    }
  }

  lemma OfficesAreNamed(g: Graph, o: string)
    requires ValidGraph(g) && o in g.nodes
    ensures g.nodes[o].officeId == o
  {}

  lemma InStandingIsTrusted(g: Graph, q: Query, path: seq<string>)
    requires ValidGraph(g) && path != [] && path[0] == q.origin && Distinct(path) && Last(path) == q.destination
    ensures AllInStanding(g, q.policy, path) ==> Eligible(g, q) && TrustedWalk(g, q, path)
  {
    if AllInStanding(g, q.policy, path) {
      forall i | 0 < i < |path|
        ensures TrustAllowed(g.nodes[path[i]], q.policy, path[i] == q.destination)
        ensures path[i] != q.destination ==> g.nodes[path[i]].relayAllowed
      {
        WalkStanding(g, q, path, i);
        hide InGoodStanding, TrustAllowed, ValidGraph;
      }
      EndsAreEligible(g, q, path);
    }
  }

  lemma EndsAreEligible(g: Graph, q: Query, path: seq<string>)
    requires ValidGraph(g) && path != [] && path[0] == q.origin && Last(path) == q.destination
    requires AllInStanding(g, q.policy, path)
    ensures Eligible(g, q)
  {
    var origin, destination := g.nodes[path[0]], g.nodes[path[|path| - 1]];
    assert InGoodStanding(origin, q.policy, false);
    assert InGoodStanding(destination, q.policy, 0 < |path| - 1 == |path| - 1);
    StandingIsTrustAllowed(origin, q.policy, false);
    StandingIsTrustAllowed(destination, q.policy, true);
    OfficesAreNamed(g, path[0]);
    OfficesAreNamed(g, path[|path| - 1]);
    hide ValidGraph, AllInStanding, TrustAllowed;
  }

  lemma CapableSuffices(g: Graph, p: Policy, path: seq<string>, links: seq<Link>)
    requires forall o :: o in path ==> o in g.nodes
    ensures WithinLatency(p, links) && (forall o :: o in p.required ==> o in path) && CapableWalk(g, p, path, links)
       <==> Suffices(g, p, path, links)
  {
    LatencyIsTheSum(links);
    CapableMeansAll(g, p, path, links);
    hide CapableWalk, AllSecure, AllCarry, Latency, Sum;
  }

  lemma CompliantMeetsTerms(g: Graph, q: Query, links: seq<Link>)
    requires ValidGraph(g) && Compliant(g, q, links)
    ensures MeetsTerms(g, q, Offices(q.origin, links), links)
  {
    var path := Offices(q.origin, links);
    hide ValidGraph, SimpleWalk, Eligible, TrustedWalk, Joins, AllInStanding, Suffices, CapableWalk, Offices;
    WalkJoins(g, q, path, links);
    assert Distinct(path) by { DistinctWalk(g, path, links); }
    TrustedIsInStanding(g, q, path);
    VisitedAreKnown(g, q.policy, path);
    CapableSuffices(g, q.policy, path, links);
  }

  lemma DistinctWalk(g: Graph, path: seq<string>, links: seq<Link>)
    requires |path| == |links| + 1 && SimpleWalk(g, path, links)
    ensures Distinct(path)
  {}

  lemma VisitedAreKnown(g: Graph, p: Policy, path: seq<string>)
    requires AllInStanding(g, p, path)
    ensures forall o :: o in path ==> o in g.nodes
  {
    hide InGoodStanding;
  }

  lemma JoinsFollowsLinks(g: Graph, q: Query, path: seq<string>, links: seq<Link>)
    requires Joins(g, q, path, links)
    ensures path == Offices(q.origin, links)
  {
    forall i | 0 <= i < |links| ensures path[i + 1] == links[i].destination {
      assert Leads(g, path[i], links[i], path[i + 1]);
    }
    hide Offices;
    PathFollowsLinks(q.origin, path, links);
  }

  lemma TermsAreCompliant(g: Graph, q: Query, path: seq<string>, links: seq<Link>)
    requires ValidGraph(g) && MeetsTerms(g, q, path, links)
    ensures path == Offices(q.origin, links) && Compliant(g, q, links)
  {
    hide ValidGraph, SimpleWalk, Eligible, TrustedWalk, Joins, AllInStanding, Suffices, CapableWalk, Offices;
    JoinsFollowsLinks(g, q, path, links);
    WalkJoins(g, q, path, links);
    assert Distinct(path) by { DistinctWalk(g, path, links); }
    InStandingIsTrusted(g, q, path);
    VisitedAreKnown(g, q.policy, path);
    CapableSuffices(g, q.policy, path, links);
  }

  /** A route is compliant exactly when it meets the policy's terms, read off its offices and links. */
  lemma ComplianceInFull(g: Graph, q: Query, path: seq<string>, links: seq<Link>)
    requires ValidGraph(g)
    ensures MeetsTerms(g, q, path, links) <==> path == Offices(q.origin, links) && Compliant(g, q, links)
  {
    hide MeetsTerms, Compliant, ValidGraph;
    if MeetsTerms(g, q, path, links) {
      TermsAreCompliant(g, q, path, links);
    }
    if path == Offices(q.origin, links) && Compliant(g, q, links) {
      CompliantMeetsTerms(g, q, links);
    }
  }

  // ------------------------------------------------------------ what an offer says

  function FloorPoints(t: Trust): int {
    match t
    case Trusted => 10000
    case Observed => 6000
    case Unknown => 1000
    case Restricted => -100000
  }

  /** A hundred points are lost with each hop. */
  function Points(g: Graph, c: Candidate, links: seq<Link>): int
    requires c.offices != []
  {
    FloorPoints(c.trustFloor) + Sum(Preferences(g, c.offices[1..])) - c.latencyMs - 100 * |links| - Sum(Costs(links))
  }

  /** The floor is the standing of some office on the way, and every office there has at least that standing. */
  ghost predicate IsFloor(g: Graph, path: seq<string>, floor: Trust) {
    && (forall o :: o in path ==> o in g.nodes && AtLeast(g.nodes[o].trust, floor))
    && (exists o :: o in path && g.nodes[o].trust == floor)
  }

  /** Every field of an offer is true of the links it stands for. */
  ghost predicate Describes(g: Graph, c: Candidate, links: seq<Link>) {
    && c.offices != []
    && c.latencyMs == Sum(Latencies(links))
    && c.score == Points(g, c, links)
    && IsFloor(g, c.offices, c.trustFloor)
    && (forall x :: x in c.security <==> AllSecure(g, c.offices, links, x))
    && (forall x :: x in c.media <==> AllCarry(g, c.offices, links, x))
  }

  lemma FloorIsFloor(g: Graph, path: seq<string>)
    requires path != [] && forall o :: o in path ==> o in g.nodes
    ensures IsFloor(g, path, TrustFloor(g, path))
  {
    var floor := TrustFloor(g, path);
    forall o | o in path ensures AtLeast(g.nodes[o].trust, floor) {
      assert TrustWeight(floor) <= TrustWeight(g.nodes[o].trust);
    }
    hide TrustFloor;
  }

  lemma SharedSecurity(g: Graph, path: seq<string>, links: seq<Link>, x: string)
    requires path != [] && forall o :: o in path ==> o in g.nodes
    ensures x in PathSecurity(g, path, links) <==> AllSecure(g, path, links, x)
  {
    MeetOfTwoLists(NodeSecurity(g, path), LinkSecurity(links), {x});
    forall i | 0 <= i < |path| ensures NodeSecurity(g, path)[i] == g.nodes[path[i]].security {}
    forall i | 0 <= i < |links| ensures LinkSecurity(links)[i] == links[i].security {}
    assert x in PathSecurity(g, path, links) <==> {x} <= Meet(NodeSecurity(g, path) + LinkSecurity(links));
  }

  lemma SharedMedia(g: Graph, path: seq<string>, links: seq<Link>, x: string)
    requires path != [] && forall o :: o in path ==> o in g.nodes
    ensures x in PathMedia(g, path, links) <==> AllCarry(g, path, links, x)
  {
    MeetOfTwoLists(NodeMedia(g, path), LinkMedia(links), {x});
    forall i | 0 <= i < |path| ensures NodeMedia(g, path)[i] == g.nodes[path[i]].media {}
    forall i | 0 <= i < |links| ensures LinkMedia(links)[i] == links[i].media {}
    assert x in PathMedia(g, path, links) <==> {x} <= Meet(NodeMedia(g, path) + LinkMedia(links));
  }

  lemma OfferOfCandidate(g: Graph, q: Query, e: Entry)
    requires OnGraph(g, q, e)
    ensures e.path != [] && CandidateOf(g, q, e).offices == e.path
    ensures CandidateOf(g, q, e).security == PathSecurity(g, e.path, e.links)
    ensures CandidateOf(g, q, e).media == PathMedia(g, e.path, e.links)
    ensures IsFloor(g, e.path, CandidateOf(g, q, e).trustFloor)
  {
    FloorIsFloor(g, e.path);
    hide Offices, PathSecurity, PathMedia, TrustFloor, IsFloor, Score;
  }

  lemma FloorPointsAreWeight(t: Trust)
    ensures TrustWeight(t) * 100 == FloorPoints(t)
  {}

  lemma PointsOfCandidate(g: Graph, q: Query, e: Entry)
    requires OnGraph(g, q, e) && e.latency == Latency(e.links)
    ensures e.path != []
    ensures CandidateOf(g, q, e).latencyMs == Sum(Latencies(e.links))
    ensures CandidateOf(g, q, e).score == Points(g, CandidateOf(g, q, e), e.links)
  {
    hide Latency, LinkCost, Preference, Sum, PathSecurity, PathMedia, TrustFloor, TrustWeight, FloorPoints;
    hide Latencies, Costs, Preferences;
    assert |e.path| == |e.links| + 1;
    hide Offices;
    FloorPointsAreWeight(TrustFloor(g, e.path));
    LatencyIsTheSum(e.links);
    LinkCostIsTheSum(e.links);
    PreferenceIsTheSum(g, e.path[1..]);
  }

  lemma CandidateDescribes(g: Graph, q: Query, e: Entry)
    requires OnGraph(g, q, e) && e.latency == Latency(e.links)
    ensures Describes(g, CandidateOf(g, q, e), e.links)
  {
    var c := CandidateOf(g, q, e);
    OfferOfCandidate(g, q, e);
    PointsOfCandidate(g, q, e);
    hide CandidateOf, Latency, Sum, AllSecure, AllCarry, PathSecurity, PathMedia, IsFloor, Points, Offices;
    forall x ensures x in c.security <==> AllSecure(g, c.offices, e.links, x) { SharedSecurity(g, e.path, e.links, x); }
    forall x ensures x in c.media <==> AllCarry(g, c.offices, e.links, x) { SharedMedia(g, e.path, e.links, x); }
  }

  ghost predicate Offered(g: Graph, q: Query, c: Candidate) {
    exists links :: MeetsTerms(g, q, c.offices, links) && Describes(g, c, links)
  }

  /** The highest score first, then the lowest latency, then the path that sorts first. */
  ghost predicate BestFirst(answer: seq<Candidate>) {
    forall i, j :: 0 <= i < j < |answer| ==>
      || answer[i].score > answer[j].score
      || (answer[i].score == answer[j].score && answer[i].latencyMs < answer[j].latencyMs)
      || (answer[i].score == answer[j].score && answer[i].latencyMs == answer[j].latencyMs
          && PathLeq(answer[i].offices, answer[j].offices))
  }

  lemma OfferedOf(g: Graph, q: Query, limit: nat, found: seq<Entry>, answer: seq<Candidate>, c: Candidate)
    requires ValidGraph(g) && Answered(g, q, limit, found, answer) && c in answer
    ensures Offered(g, q, c)
  {
    var e := AnswerEntries(g, q, limit, found, answer, c);
    FoundRoutesAreRoutes(g, q, limit, found, e);
    RoutesAreDeterminedByTheirLinks(g, q, e);
    EntryAtMeaning(q, e.links);
    hide ValidGraph, Answered, Compliant, MeetsTerms, Describes, EntryAt, Offices, CandidateOf, AllRoutes;
    CandidateDescribes(g, q, e);
    ComplianceInFull(g, q, e.path, e.links);
    OfferOfCandidate(g, q, e);
  }

  /** Whatever the search answers is offered on the policy's terms, described as it is, and best first. */
  lemma AnswersMeetTheTerms(g: Graph, q: Query, limit: nat, found: seq<Entry>, answer: seq<Candidate>)
    requires ValidGraph(g) && Answered(g, q, limit, found, answer)
    ensures forall c :: c in answer ==> Offered(g, q, c)
    ensures BestFirst(answer)
  {
    forall c | c in answer ensures Offered(g, q, c) { OfferedOf(g, q, limit, found, answer, c); }
    assert Sorted(CandidateLeq, answer);
    hide Answered, Offered, PathLeq;
  }

  /** Nothing is answered exactly when no offices and links meet the terms. */
  lemma NothingIsAnsweredExactly(g: Graph, q: Query, limit: nat, found: seq<Entry>, answer: seq<Candidate>)
    requires ValidGraph(g) && limit >= 1 && Answered(g, q, limit, found, answer)
    ensures answer == [] <==> !exists path, links :: MeetsTerms(g, q, path, links)
  {
    EmptyAnswerMeansNoRoute(g, q, limit, found, answer);
    hide ValidGraph, Answered, Compliant, MeetsTerms, Offices;
    forall path, links ensures MeetsTerms(g, q, path, links) ==> Compliant(g, q, links) {
      ComplianceInFull(g, q, path, links);
    }
    forall links ensures Compliant(g, q, links) ==> MeetsTerms(g, q, Offices(q.origin, links), links) {
      ComplianceInFull(g, q, Offices(q.origin, links), links);
    }
  }

  lemma AnswerSize(g: Graph, q: Query, limit: nat, found: seq<Entry>, answer: seq<Candidate>)
    requires ValidGraph(g) && Answered(g, q, limit, found, answer)
    ensures |answer| <= limit
  {
    assert |answer| == |multiset(answer)| == |CandidatesOf(g, q, found)| == |found|;
  }
}
