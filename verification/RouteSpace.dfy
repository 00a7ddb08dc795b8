/**
 The federation graph as a value, what makes a route policy-compliant, and the
 tree of partial paths that the route search walks.

 A route is identified by the links it traverses: two offices may be joined by
 several parallel links, and each choice of link is a route of its own.
 */
module RouteSpace {
  import opened Wrappers
  import opened Sorting

  // ------------------------------------------------------------ entities

  datatype Trust = Trusted | Observed | Unknown | Restricted

  function TrustWeight(t: Trust): int {
    match t
    case Trusted => 100
    case Observed => 60
    case Unknown => 10
    case Restricted => -1000
  }

  const BLOCKED_STATES: set<string> := {"restricted", "quarantined", "withdrawn", "revoked"}

  datatype Node = Node(
    officeId: string,
    trust: Trust,
    operational: string,
    media: set<string>,
    security: set<string>,
    relayAllowed: bool,
    preference: int)
  {
    predicate Blocked() {
      trust.Restricted? || operational in BLOCKED_STATES
    }
  }

  datatype Link = Link(
    source: string,
    destination: string,
    latencyMs: int,
    security: set<string>,
    media: set<string>,
    enabled: bool,
    cost: int)

  datatype PolicyRecord = RoutePolicy(
    minimumTrust: Trust,
    requiredSecurity: set<string>,
    requiredMedia: set<string>,
    maxHops: int,
    maxLatencyMs: Option<int>,
    forbidden: set<string>,
    required: set<string>,
    allowUnknownDestination: bool)

  /** The policies that the constructor check accepts. */
  type Policy = p: PolicyRecord | p.maxHops >= 1 && (p.maxLatencyMs.Some? ==> p.maxLatencyMs.value >= 0)
    witness RoutePolicy(Observed, {}, {}, 4, None, {}, {}, false)

  datatype Graph = Graph(nodes: map<string, Node>, links: map<string, seq<Link>>)

  datatype Query = Query(origin: string, destination: string, policy: Policy)

  predicate LinkLeq(a: Link, b: Link) {
    if a.destination != b.destination then StrLeq(a.destination, b.destination)
    else if a.latencyMs != b.latencyMs then a.latencyMs <= b.latencyMs
    else a.cost <= b.cost
  }

  ghost predicate ValidGraph(g: Graph) {
    && g.links.Keys == g.nodes.Keys
    && (forall id :: id in g.nodes ==> g.nodes[id].officeId == id && id != "")
    && (forall id, l :: id in g.links && l in g.links[id] ==>
          l.source == id && l.destination in g.nodes && l.latencyMs >= 0)
  }

  /** `add_link` keeps each office's links in `(destination, latency, cost)` order. */
  ghost predicate SortedLinks(g: Graph) {
    forall id :: id in g.links ==> Sorted(LinkLeq, g.links[id])
  }

  predicate TrustAllowed(n: Node, p: Policy, asDestination: bool) {
    if n.Blocked() || n.officeId in p.forbidden then false
    else if asDestination && p.allowUnknownDestination && n.trust.Unknown? then true
    else TrustWeight(n.trust) >= TrustWeight(p.minimumTrust)
  }

  // ------------------------------------------------------------ routes

  function Last<T>(s: seq<T>): T
    requires s != []
  {
    s[|s| - 1]
  }

  function Front<T>(s: seq<T>): seq<T>
    requires s != []
  {
    s[..|s| - 1]
  }

  /** The offices visited by following the links from an origin. */
  function Offices(origin: string, links: seq<Link>): (path: seq<string>)
    ensures |path| == |links| + 1 && path[0] == origin
    ensures forall i :: 0 <= i < |links| ==> path[i + 1] == links[i].destination
  {
    if links == [] then [origin] else Offices(origin, Front(links)) + [Last(links).destination]
  }

  function Latency(links: seq<Link>): int {
    if links == [] then 0 else Latency(Front(links)) + Last(links).latencyMs
  }

  function LinkCost(links: seq<Link>): int {
    if links == [] then 0 else LinkCost(Front(links)) + Last(links).cost
  }

  /** What the search orders routes by: latency, a hundred for each hop, and link costs. */
  function RouteCost(links: seq<Link>): int {
    Latency(links) + 100 * |links| + LinkCost(links)
  }

  ghost predicate Distinct<T(!new)>(s: seq<T>) {
    forall i, j :: 0 <= i < j < |s| ==> s[i] != s[j]
  }

  /** Both end points exist and pass their own trust check. */
  predicate Eligible(g: Graph, q: Query) {
    && q.origin in g.nodes
    && q.destination in g.nodes
    && TrustAllowed(g.nodes[q.origin], q.policy, false)
    && TrustAllowed(g.nodes[q.destination], q.policy, true)
  }

  /** `path` and `links` walk enabled links of the graph from the origin without repeating an office. */
  ghost predicate SimpleWalk(g: Graph, path: seq<string>, links: seq<Link>)
    requires |path| == |links| + 1
  {
    && Distinct(path)
    && (forall i :: 0 <= i < |links| ==> path[i] in g.links && links[i] in g.links[path[i]] && links[i].enabled)
  }

  /** Every office after the origin passes the trust check, and those in between may relay. */
  ghost predicate TrustedWalk(g: Graph, q: Query, path: seq<string>)
  {
    && (forall i :: 0 < i < |path| ==>
          path[i] in g.nodes && TrustAllowed(g.nodes[path[i]], q.policy, path[i] == q.destination))
    && (forall i :: 0 < i < |path| && path[i] != q.destination ==> path[i] in g.nodes && g.nodes[path[i]].relayAllowed)
  }

  /** Every office and every link on the way offers the required security and media. */
  ghost predicate CapableWalk(g: Graph, p: Policy, path: seq<string>, links: seq<Link>)
  {
    && (forall i :: 0 <= i < |path| ==>
          && path[i] in g.nodes
          && p.requiredSecurity <= g.nodes[path[i]].security
          && p.requiredMedia <= g.nodes[path[i]].media)
    && (forall i :: 0 <= i < |links| ==>
          p.requiredSecurity <= links[i].security && p.requiredMedia <= links[i].media)
  }

  ghost predicate WithinLatency(p: Policy, links: seq<Link>) {
    p.maxLatencyMs.Some? ==> Latency(links) <= p.maxLatencyMs.value
  }

  /** The reference definition of a route that satisfies a policy; it does not mention the search. */
  ghost predicate Compliant(g: Graph, q: Query, links: seq<Link>) {
    var path := Offices(q.origin, links);
    && Eligible(g, q)
    && Last(path) == q.destination
    && |links| <= q.policy.maxHops
    && SimpleWalk(g, path, links)
    && TrustedWalk(g, q, path)
    && WithinLatency(q.policy, links)
    && (forall o :: o in q.policy.required ==> o in path)
    && CapableWalk(g, q.policy, path, links)
  }

  // ------------------------------------------------------------ candidates

  /** The intersection of a non-empty list of capability sets. */
  function Meet(sets: seq<set<string>>): set<string>
    requires sets != []
  {
    if |sets| == 1 then sets[0] else Meet(Front(sets)) * Last(sets)
  }

  lemma {:induction false} MeetIsGreatestLowerBound(sets: seq<set<string>>, x: set<string>)
    requires sets != []
    ensures x <= Meet(sets) <==> forall i :: 0 <= i < |sets| ==> x <= sets[i]
  {
    if |sets| > 1 {
      MeetIsGreatestLowerBound(Front(sets), x);
      assert forall i :: 0 <= i < |sets| - 1 ==> Front(sets)[i] == sets[i];
    }
  }

  function NodeSecurity(g: Graph, path: seq<string>): seq<set<string>>
    requires forall o :: o in path ==> o in g.nodes
  {
    seq(|path|, i requires 0 <= i < |path| => g.nodes[path[i]].security)
  }

  function NodeMedia(g: Graph, path: seq<string>): seq<set<string>>
    requires forall o :: o in path ==> o in g.nodes
  {
    seq(|path|, i requires 0 <= i < |path| => g.nodes[path[i]].media)
  }

  function LinkSecurity(links: seq<Link>): seq<set<string>> {
    seq(|links|, i requires 0 <= i < |links| => links[i].security)
  }

  function LinkMedia(links: seq<Link>): seq<set<string>> {
    seq(|links|, i requires 0 <= i < |links| => links[i].media)
  }

  function PathSecurity(g: Graph, path: seq<string>, links: seq<Link>): set<string>
    requires path != [] && forall o :: o in path ==> o in g.nodes
  {
    Meet(NodeSecurity(g, path) + LinkSecurity(links))
  }

  function PathMedia(g: Graph, path: seq<string>, links: seq<Link>): set<string>
    requires path != [] && forall o :: o in path ==> o in g.nodes
  {
    Meet(NodeMedia(g, path) + LinkMedia(links))
  }

  lemma MeetOfTwoLists(a: seq<set<string>>, b: seq<set<string>>, x: set<string>)
    requires a != []
    ensures x <= Meet(a + b) <==> (forall i :: 0 <= i < |a| ==> x <= a[i]) && (forall i :: 0 <= i < |b| ==> x <= b[i])
  {
    MeetIsGreatestLowerBound(a + b, x);
    forall i | 0 <= i < |a| ensures (a + b)[i] == a[i] {}
    forall i | 0 <= i < |b| ensures (a + b)[|a| + i] == b[i] {}
    if x <= Meet(a + b) {
      forall i | 0 <= i < |b| ensures x <= b[i] {
        assert x <= (a + b)[|a| + i];
      }
    }
  }

  lemma CapabilitiesMeetRequirements(g: Graph, p: Policy, path: seq<string>, links: seq<Link>)
    requires path != [] && forall o :: o in path ==> o in g.nodes
    ensures p.requiredSecurity <= PathSecurity(g, path, links) && p.requiredMedia <= PathMedia(g, path, links)
       <==> CapableWalk(g, p, path, links)
  {
    MeetOfTwoLists(NodeSecurity(g, path), LinkSecurity(links), p.requiredSecurity);
    MeetOfTwoLists(NodeMedia(g, path), LinkMedia(links), p.requiredMedia);
    forall i | 0 <= i < |path|
      ensures NodeSecurity(g, path)[i] == g.nodes[path[i]].security && NodeMedia(g, path)[i] == g.nodes[path[i]].media
    {}
    forall i | 0 <= i < |links|
      ensures LinkSecurity(links)[i] == links[i].security && LinkMedia(links)[i] == links[i].media
    {}
  }

  /** The least trusted standing on a path; Python's `min` keeps the first of equals. */
  function TrustFloor(g: Graph, path: seq<string>): (t: Trust)
    requires path != [] && forall o :: o in path ==> o in g.nodes
    ensures exists o :: o in path && g.nodes[o].trust == t
    ensures forall o :: o in path ==> TrustWeight(t) <= TrustWeight(g.nodes[o].trust)
  {
    if |path| == 1 then
      g.nodes[path[0]].trust
    else
      var f := TrustFloor(g, Front(path));
      assert path == Front(path) + [Last(path)];
      if TrustWeight(g.nodes[Last(path)].trust) < TrustWeight(f) then g.nodes[Last(path)].trust else f
  }

  function Preference(g: Graph, offices: seq<string>): int
    requires forall o :: o in offices ==> o in g.nodes
  {
    if offices == [] then 0 else Preference(g, Front(offices)) + g.nodes[Last(offices)].preference
  }

  datatype Candidate = PathCandidate(
    offices: seq<string>,
    latencyMs: int,
    trustFloor: Trust,
    score: int,
    security: set<string>,
    media: set<string>)

  predicate CandidateLeq(a: Candidate, b: Candidate) {
    if a.score != b.score then a.score > b.score
    else if a.latencyMs != b.latencyMs then a.latencyMs < b.latencyMs
    else PathLeq(a.offices, b.offices)
  }

  lemma CandidateOrderIsTotal()
    ensures TotalPreorder(CandidateLeq)
  {
    PathLeqIsTotalPreorder();
  }

  // ------------------------------------------------------------ the search tree

  /** A heap entry: `(priority, path, links, latency)`. */
  datatype Entry = Entry(priority: int, path: seq<string>, links: seq<Link>, latency: int)

  function Root(q: Query): Entry {
    Entry(0, [q.origin], [], 0)
  }

  function Extend(e: Entry, l: Link): Entry {
    var latency := e.latency + l.latencyMs;
    var links := e.links + [l];
    Entry(latency + |links| * 100 + LinkCost(links), e.path + [l.destination], links, latency)
  }

  /** The checks the search makes before it pushes the extension of a partial path by a link. */
  predicate Admits(g: Graph, q: Query, e: Entry, l: Link)
    requires l.destination in g.nodes
  {
    var node := g.nodes[l.destination];
    && l.enabled
    && l.destination !in e.path
    && TrustAllowed(node, q.policy, l.destination == q.destination)
    && (l.destination == q.destination || node.relayAllowed)
    && (q.policy.maxLatencyMs.Some? ==> e.latency + l.latencyMs <= q.policy.maxLatencyMs.value)
  }

  function Kids(g: Graph, q: Query, e: Entry, ls: seq<Link>): (r: seq<Entry>)
    requires forall l :: l in ls ==> l.destination in g.nodes
    ensures forall k :: k in r <==> exists l :: l in ls && Admits(g, q, e, l) && k == Extend(e, l)
  {
    if ls == [] then []
    else
      assert ls == Front(ls) + [Last(ls)];
      Kids(g, q, e, Front(ls)) + (if Admits(g, q, e, Last(ls)) then [Extend(e, Last(ls))] else [])
  }

  function Outgoing(g: Graph, office: string): seq<Link> {
    if office in g.links then g.links[office] else []
  }

  /** A popped entry that has arrived, or has no hop left, is not extended. */
  predicate Stops(q: Query, e: Entry)
    requires e.path != []
  {
    Last(e.path) == q.destination || |e.path| - 1 >= q.policy.maxHops
  }

  ghost predicate OnGraph(g: Graph, q: Query, e: Entry) {
    && e.path == Offices(q.origin, e.links)
    && forall o :: o in e.path ==> o in g.nodes
  }

  ghost function Remaining(q: Query, e: Entry): nat {
    if q.policy.maxHops > |e.links| then q.policy.maxHops - |e.links| else 0
  }

  /** Every entry the search would pop below `e`, and `e` itself. */
  ghost function Subtree(g: Graph, q: Query, e: Entry): seq<Entry>
    requires ValidGraph(g) && OnGraph(g, q, e)
    decreases Remaining(q, e), 0, 0
  {
    if Stops(q, e) then [e]
    else [e] + Forest(g, q, Kids(g, q, e, Outgoing(g, Last(e.path))), Remaining(q, e) - 1)
  }

  /** The subtrees of several entries that have at most `level` hops to go. */
  ghost function Forest(g: Graph, q: Query, es: seq<Entry>, level: nat): seq<Entry>
    requires ValidGraph(g)
    requires forall e :: e in es ==> OnGraph(g, q, e) && Remaining(q, e) <= level
    decreases level, 1, |es|
  {
    if es == [] then [] else Subtree(g, q, es[0]) + Forest(g, q, es[1..], level)
  }

  lemma {:induction false} ForestLevelIsIrrelevant(g: Graph, q: Query, es: seq<Entry>, m: nat, n: nat)
    requires ValidGraph(g)
    requires forall e :: e in es ==> OnGraph(g, q, e) && Remaining(q, e) <= m && Remaining(q, e) <= n
    ensures Forest(g, q, es, m) == Forest(g, q, es, n)
  {
    if es != [] {
      ForestLevelIsIrrelevant(g, q, es[1..], m, n);
    }
  }

  lemma {:induction false} ForestConcat(g: Graph, q: Query, a: seq<Entry>, b: seq<Entry>, level: nat)
    requires ValidGraph(g)
    requires forall e :: e in a + b ==> OnGraph(g, q, e) && Remaining(q, e) <= level
    ensures forall e :: e in a ==> e in a + b
    ensures forall e :: e in b ==> e in a + b
    ensures Forest(g, q, a + b, level) == Forest(g, q, a, level) + Forest(g, q, b, level)
  {
    hide OnGraph, ValidGraph, Subtree;
    if a == [] {
      assert a + b == b;
    } else {
      assert a + b == [a[0]] + (a[1..] + b);
      ForestConcat(g, q, a[1..], b, level);
    }
  }

  predicate Accepts(g: Graph, q: Query, e: Entry)
    requires OnGraph(g, q, e)
  {
    && Last(e.path) == q.destination
    && (forall o :: o in q.policy.required ==> o in e.path)
    && q.policy.requiredSecurity <= PathSecurity(g, e.path, e.links)
    && q.policy.requiredMedia <= PathMedia(g, e.path, e.links)
  }

  ghost function Hits(g: Graph, q: Query, es: seq<Entry>): (r: seq<Entry>)
    requires forall e :: e in es ==> OnGraph(g, q, e)
    ensures forall e :: e in r <==> e in es && Accepts(g, q, e)
  {
    if es == [] then []
    else (if Accepts(g, q, es[0]) then [es[0]] else []) + Hits(g, q, es[1..])
  }

  lemma {:induction false} HitsConcat(g: Graph, q: Query, a: seq<Entry>, b: seq<Entry>)
    requires forall e :: e in a + b ==> OnGraph(g, q, e)
    ensures forall e :: e in a ==> e in a + b
    ensures forall e :: e in b ==> e in a + b
    ensures Hits(g, q, a + b) == Hits(g, q, a) + Hits(g, q, b)
  {
    hide Accepts, OnGraph;
    if a == [] {
      assert a + b == b;
    } else {
      assert a + b == [a[0]] + (a[1..] + b);
      HitsConcat(g, q, a[1..], b);
    }
  }

  // ------------------------------------------------------------ entries follow their links

  /** The entry reached by following links from the root. */
  function EntryAt(q: Query, links: seq<Link>): (e: Entry)
    ensures e.links == links
  {
    if links == [] then Root(q) else Extend(EntryAt(q, Front(links)), Last(links))
  }

  lemma ExtendMeaning(q: Query, e: Entry, l: Link)
    requires e.path == Offices(q.origin, e.links) && e.latency == Latency(e.links)
    ensures Extend(e, l).path == Offices(q.origin, e.links + [l])
    ensures Extend(e, l).latency == Latency(e.links + [l])
    ensures Extend(e, l).priority == RouteCost(e.links + [l])
  {
    assert Front(e.links + [l]) == e.links && Last(e.links + [l]) == l;
  }

  lemma {:induction false} EntryAtMeaning(q: Query, links: seq<Link>)
    ensures EntryAt(q, links).path == Offices(q.origin, links)
    ensures EntryAt(q, links).latency == Latency(links)
    ensures EntryAt(q, links).priority == RouteCost(links)
  {
    if links != [] {
      var before := EntryAt(q, Front(links));
      EntryAtMeaning(q, Front(links));
      ExtendMeaning(q, before, Last(links));
      assert before.links + [Last(links)] == links;
      assert EntryAt(q, links) == Extend(before, Last(links));
      hide EntryAt, Extend, Offices, Latency, RouteCost;
    }
  }

  /** The links can be followed one after another, each admitted by the search. */
  ghost predicate Followed(g: Graph, q: Query, links: seq<Link>) {
    links == [] ||
    (var e := EntryAt(q, Front(links));
     && Followed(g, q, Front(links))
     && e.path != [] && !Stops(q, e)
     && Last(links) in Outgoing(g, Last(e.path))
     && Last(links).destination in g.nodes
     && Admits(g, q, e, Last(links)))
  }

  ghost predicate Reached(g: Graph, q: Query, e: Entry) {
    Followed(g, q, e.links) && e == EntryAt(q, e.links)
  }

  lemma {:induction false} ReachedIsOnGraph(g: Graph, q: Query, e: Entry)
    requires ValidGraph(g) && Eligible(g, q) && Reached(g, q, e)
    ensures OnGraph(g, q, e) && e.priority == RouteCost(e.links) && |e.links| <= q.policy.maxHops
    decreases |e.links|
  {
    EntryAtMeaning(q, e.links);
    if e.links != [] {
      ReachedIsOnGraph(g, q, EntryAt(q, Front(e.links)));
    }
  }

  lemma KidsAreReached(g: Graph, q: Query, e: Entry, l: Link)
    requires ValidGraph(g) && Eligible(g, q) && Reached(g, q, e) && e.path != [] && !Stops(q, e)
    requires l in Outgoing(g, Last(e.path)) && l.destination in g.nodes && Admits(g, q, e, l)
    ensures Reached(g, q, Extend(e, l)) && OnGraph(g, q, Extend(e, l))
    ensures Remaining(q, Extend(e, l)) == Remaining(q, e) - 1
  {
    hide TrustAllowed, Kids;
    var k := Extend(e, l);
    assert k.links == e.links + [l] && Front(k.links) == e.links && Last(k.links) == l;
    assert Reached(g, q, k);
    ReachedIsOnGraph(g, q, e);
    ReachedIsOnGraph(g, q, k);
  }

  ghost predicate AllReached(g: Graph, q: Query, es: seq<Entry>) {
    forall e :: e in es ==> Reached(g, q, e)
  }

  lemma AllReachedIsOnGraph(g: Graph, q: Query, es: seq<Entry>)
    requires ValidGraph(g) && Eligible(g, q) && AllReached(g, q, es)
    ensures forall e :: e in es ==> OnGraph(g, q, e) && Remaining(q, e) <= q.policy.maxHops
  {
    forall e | e in es ensures OnGraph(g, q, e) && Remaining(q, e) <= q.policy.maxHops {
      ReachedIsOnGraph(g, q, e);
    }
  }

  /** The entries that popping `e` pushes. */
  ghost function Children(g: Graph, q: Query, e: Entry): (r: seq<Entry>)
    requires ValidGraph(g) && Eligible(g, q) && Reached(g, q, e)
    ensures AllReached(g, q, r)
    ensures forall k :: k in r ==> OnGraph(g, q, k) && Remaining(q, k) == Remaining(q, e) - 1
  {
    ReachedIsOnGraph(g, q, e);
    if Stops(q, e) then []
    else
      var ls := Outgoing(g, Last(e.path));
      var r := Kids(g, q, e, ls);
      assert forall k :: k in r ==> Reached(g, q, k) && OnGraph(g, q, k) && Remaining(q, k) == Remaining(q, e) - 1 by {
        forall l | l in ls && Admits(g, q, e, l)
          ensures Reached(g, q, Extend(e, l)) && OnGraph(g, q, Extend(e, l)) && Remaining(q, Extend(e, l)) == Remaining(q, e) - 1
        {
          KidsAreReached(g, q, e, l);
        }
      }
      r
  }

  lemma SubtreeUnfolds(g: Graph, q: Query, e: Entry)
    requires ValidGraph(g) && Eligible(g, q) && Reached(g, q, e) && OnGraph(g, q, e)
    ensures Children(g, q, e) == [] || Remaining(q, e) > 0
    ensures forall k :: k in Children(g, q, e) ==> OnGraph(g, q, k) && Remaining(q, k) <= q.policy.maxHops
    ensures Subtree(g, q, e) == [e] + Forest(g, q, Children(g, q, e), q.policy.maxHops)
  {
    var kids := Children(g, q, e);
    AllReachedIsOnGraph(g, q, kids);
    ReachedIsOnGraph(g, q, e);
    if Stops(q, e) {
      assert kids == [];
    } else {
      ForestLevelIsIrrelevant(g, q, kids, Remaining(q, e) - 1, q.policy.maxHops);
    }
  }

  lemma ChildrenAreKids(g: Graph, q: Query, e: Entry)
    requires ValidGraph(g) && Eligible(g, q) && Reached(g, q, e) && e.path != []
    ensures forall l :: l in Outgoing(g, Last(e.path)) ==> l.destination in g.nodes
    ensures Children(g, q, e) == if Stops(q, e) then [] else Kids(g, q, e, Outgoing(g, Last(e.path)))
  {}
}
