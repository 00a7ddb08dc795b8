/**
 The federation trust graph: an object that offices and links are added to,
 and the heap-driven search for routes over it.
 */
module TrustGraph {
  import opened Wrappers
  import opened Sorting
  import opened RouteSpace
  import opened RouteSearch
  import opened RouteRuns
  import opened RouteLoop
  import opened RouteTerms

  datatype GraphError = OfficeIdRequired | UnknownOffice | NegativeLatency | LimitNotPositive

  datatype Decision = Decision(selected: Option<Candidate>, candidates: seq<Candidate>, reasons: seq<string>)

  // ------------------------------------------------------------ updates of the graph, as values

  function WithNode(g: Graph, n: Node): Graph {
    Graph(g.nodes[n.officeId := n], if n.officeId in g.links then g.links else g.links[n.officeId := []])
  }

  function Reverse(l: Link): Link {
    l.(source := l.destination, destination := l.source)
  }

  function WithLink(g: Graph, l: Link): Graph {
    g.(links := g.links[l.source := SortBy(LinkLeq, Outgoing(g, l.source) + [l])])
  }

  function Quarantined(g: Graph, id: string): Graph
    requires id in g.nodes
  {
    g.(nodes := g.nodes[id := g.nodes[id].(operational := "quarantined", relayAllowed := false)])
  }

  function Reinstated(g: Graph, id: string): Graph
    requires id in g.nodes
  {
    g.(nodes := g.nodes[id := g.nodes[id].(operational := "active")])
  }

  lemma LinkOrderIsTotal()
    ensures TotalPreorder(LinkLeq)
  {
    StrLeqIsTotalOrder();
    hide StrLeq;
  }

  lemma WithLinkIsValid(g: Graph, l: Link)
    requires ValidGraph(g) && SortedLinks(g)
    requires l.source in g.nodes && l.destination in g.nodes && l.latencyMs >= 0
    ensures ValidGraph(WithLink(g, l)) && SortedLinks(WithLink(g, l))
    ensures multiset(Outgoing(WithLink(g, l), l.source)) == multiset(Outgoing(g, l.source)) + multiset{l}
  {
    hide LinkLeq, Sorted;
    var sorted := SortBy(LinkLeq, Outgoing(g, l.source) + [l]);
    assert Sorted(LinkLeq, sorted) by {
      LinkOrderIsTotal();
      SortByIsSorted(LinkLeq, Outgoing(g, l.source) + [l]);
    }
    forall x | x in sorted ensures x in Outgoing(g, l.source) || x == l {
      assert x in multiset(sorted);
    }
  }

  ghost predicate HasLink(links: map<string, seq<Link>>, l: Link) {
    l.source in links && l in links[l.source]
  }

  /** The link is there, no other link is lost, and none appears. */
  lemma WithLinkAddsOne(g: Graph, l: Link, x: Link)
    requires l.source in g.links
    ensures HasLink(WithLink(g, l).links, x) <==> x == l || HasLink(g.links, x)
  {
    var before, after := Outgoing(g, l.source) + [l], SortBy(LinkLeq, Outgoing(g, l.source) + [l]);
    assert x in after <==> x in multiset(after);
    assert x in before <==> x in multiset(before);
    hide SortBy, LinkLeq;
  }

  // ------------------------------------------------------------ quarantine and restoration

  lemma WalkIsLocal(g: Graph, h: Graph, q: Query, path: seq<string>, links: seq<Link>)
    requires |path| == |links| + 1
    requires g.links == h.links && g.nodes.Keys == h.nodes.Keys
    requires forall i :: 0 <= i < |path| && path[i] in g.nodes ==> g.nodes[path[i]] == h.nodes[path[i]]
    ensures SimpleWalk(g, path, links) ==> SimpleWalk(h, path, links)
    ensures TrustedWalk(g, q, path) ==> TrustedWalk(h, q, path)
    ensures CapableWalk(g, q.policy, path, links) ==> CapableWalk(h, q.policy, path, links)
  {
    hide TrustAllowed, Distinct;
  }

  /** Compliance of a route depends only on the links and on the offices it visits. */
  lemma ComplianceIsLocal(g: Graph, h: Graph, q: Query, links: seq<Link>)
    requires g.links == h.links && g.nodes.Keys == h.nodes.Keys
    requires forall o :: o in Offices(q.origin, links) && o in g.nodes ==> g.nodes[o] == h.nodes[o]
    ensures Compliant(g, q, links) ==> Compliant(h, q, links)
  {
    hide TrustAllowed, WithinLatency, SimpleWalk, TrustedWalk, CapableWalk;
    var path := Offices(q.origin, links);
    WalkIsLocal(g, h, q, path, links);
    assert path[0] == q.origin && path[0] in path && path[|links|] in path;
  }

  lemma BlockedOfficeBreaksRoutes(g: Graph, q: Query, id: string, links: seq<Link>)
    requires id in g.nodes && g.nodes[id].Blocked()
    ensures Compliant(g, q, links) ==> id !in Offices(q.origin, links)
  {
    assert forall d :: !TrustAllowed(g.nodes[id], q.policy, d);
    hide TrustAllowed;
    var path := Offices(q.origin, links);
    assert path[0] == q.origin;
  }

  /** Quarantine removes exactly the routes that visit the office, and no others. */
  lemma QuarantineRemovesExactlyItsRoutes(g: Graph, q: Query, id: string, links: seq<Link>)
    requires id in g.nodes
    ensures Compliant(Quarantined(g, id), q, links) <==> Compliant(g, q, links) && id !in Offices(q.origin, links)
  {
    var h := Quarantined(g, id);
    assert "quarantined" in BLOCKED_STATES;
    BlockedOfficeBreaksRoutes(h, q, id, links);
    hide Compliant;
    if id !in Offices(q.origin, links) {
      ComplianceIsLocal(g, h, q, links);
      ComplianceIsLocal(h, g, q, links);
    }
  }

  /** Restoring a quarantined office gives the old graph back exactly when it was active and not a relay. */
  lemma RestoreUndoesQuarantineOnlyForNonRelays(g: Graph, id: string)
    requires ValidGraph(g) && id in g.nodes
    ensures Reinstated(Quarantined(g, id), id) == g <==> g.nodes[id].operational == "active" && !g.nodes[id].relayAllowed
  {
    var h := Reinstated(Quarantined(g, id), id);
    assert h.nodes[id] == g.nodes[id].(operational := "active", relayAllowed := false);
    if g.nodes[id].operational == "active" && !g.nodes[id].relayAllowed {
      assert h.nodes[id] == g.nodes[id];
      assert h.nodes == g.nodes;
    }
  }

  /** A quarantined and restored office can end a route, but never again stand in the middle of one. */
  lemma RestoredOfficeDoesNotRelay(g: Graph, q: Query, id: string, links: seq<Link>)
    requires ValidGraph(g) && id in g.nodes
    ensures Compliant(Reinstated(Quarantined(g, id), id), q, links) && id in Offices(q.origin, links) ==>
              id == q.origin || id == q.destination
  {
    hide TrustAllowed;
  }

  // ------------------------------------------------------------ the object

  method LeastEntry(queue: seq<Entry>) returns (i: nat)
    requires queue != []
    ensures i < |queue|
    ensures forall j :: 0 <= j < |queue| ==> EntryLeq(queue[i], queue[j])
  {
    EntryOrderIsTotal();
    hide EntryLeq;
    i := 0;
    for n := 1 to |queue|
      invariant i < n
      invariant forall j :: 0 <= j < n ==> EntryLeq(queue[i], queue[j])
    {
      if !EntryLeq(queue[i], queue[n]) {
        i := n;
      }
    }
  }

  class TelegraphTrustGraph {
    var nodes: map<string, Node>
    var links: map<string, seq<Link>>

    function View(): Graph
      reads this
    {
      Graph(nodes, links)
    }

    ghost predicate Valid()
      reads this
    {
      ValidGraph(View()) && SortedLinks(View())
    }

    constructor ()
      ensures Valid() && View() == Graph(map[], map[])
    {
      nodes, links := map[], map[];
    }

    method UpsertNode(n: Node) returns (r: Result<(), GraphError>)
      requires Valid()
      modifies this
      ensures Valid()
      ensures r == if n.officeId == "" then Err(OfficeIdRequired) else Ok(())
      ensures View() == if r.Ok? then WithNode(old(View()), n) else old(View())
    {
      if n.officeId == "" {
        return Err(OfficeIdRequired);
      }
      nodes := nodes[n.officeId := n];
      if n.officeId !in links {
        links := links[n.officeId := []];
      }
      r := Ok(());
    }

    method AddLink(l: Link, bidirectional: bool) returns (r: Result<(), GraphError>)
      requires Valid()
      modifies this
      ensures Valid()
      ensures r == if l.source !in old(nodes) || l.destination !in old(nodes) then Err(UnknownOffice)
                   else if l.latencyMs < 0 then Err(NegativeLatency)
                   else Ok(())
      ensures View() == if r.Err? then old(View())
                        else if bidirectional then WithLink(WithLink(old(View()), l), Reverse(l))
                        else WithLink(old(View()), l)
      ensures nodes == old(nodes)
      ensures r.Ok? ==> forall x :: HasLink(links, x) <==>
        || HasLink(old(links), x)
        || x == l
        || (bidirectional &&
            x == Link(l.destination, l.source, l.latencyMs, l.security, l.media, l.enabled, l.cost))
    {
      if l.source !in nodes || l.destination !in nodes {
        return Err(UnknownOffice);
      }
      if l.latencyMs < 0 {
        return Err(NegativeLatency);
      }
      hide ValidGraph, SortedLinks, WithLink, HasLink;
      InsertLink(l);
      if bidirectional {
        InsertLink(Reverse(l));
      }
      r := Ok(());
    }

    /** Appends a link to the list of its source and sorts the list again. */
    method InsertLink(l: Link)
      requires Valid() && l.source in nodes && l.destination in nodes && l.latencyMs >= 0
      modifies this
      ensures Valid() && nodes == old(nodes) && View() == WithLink(old(View()), l)
      ensures forall x :: HasLink(links, x) <==> x == l || HasLink(old(links), x)
    {
      WithLinkIsValid(View(), l);
      forall x ensures HasLink(WithLink(View(), l).links, x) <==> x == l || HasLink(links, x) {
        WithLinkAddsOne(View(), l, x);
      }
      hide HasLink;
      hide LinkLeq, ValidGraph, SortedLinks, SortBy;
      links := links[l.source := SortBy(LinkLeq, Outgoing(View(), l.source) + [l])];
    }

    method Quarantine(id: string) returns (r: Result<(), GraphError>)
      requires Valid()
      modifies this
      ensures Valid()
      ensures r == if id in old(nodes) then Ok(()) else Err(UnknownOffice)
      ensures View() == if id in old(nodes) then Quarantined(old(View()), id) else old(View())
    {
      if id !in nodes {
        return Err(UnknownOffice);
      }
      var n := nodes[id];
      nodes := nodes[id := Node(n.officeId, n.trust, "quarantined", n.media, n.security, false, n.preference)];
      r := Ok(());
    }

    method Restore(id: string) returns (r: Result<(), GraphError>)
      requires Valid()
      modifies this
      ensures Valid()
      ensures r == if id in old(nodes) then Ok(()) else Err(UnknownOffice)
      ensures View() == if id in old(nodes) then Reinstated(old(View()), id) else old(View())
    {
      if id !in nodes {
        return Err(UnknownOffice);
      }
      var n := nodes[id];
      nodes := nodes[id := Node(n.officeId, n.trust, "active", n.media, n.security, n.relayAllowed, n.preference)];
      r := Ok(());
    }

    /** Pushes the admissible extensions of a popped entry. */
    method Push(q: Query, queue: seq<Entry>, e: Entry) returns (next: seq<Entry>)
      requires Valid() && Eligible(View(), q) && Reached(View(), q, e) && e.path != [] && !Stops(q, e)
      ensures next == queue + Children(View(), q, e)
    {
      hide ValidGraph, SortedLinks, Eligible, Reached, Admits, Children;
      var g := View();
      next := queue;
      var out := Outgoing(g, Last(e.path));
      ChildrenAreKids(g, q, e);
      for i := 0 to |out|
        invariant next == queue + Kids(g, q, e, out[..i])
      {
        assert out[..i + 1] == out[..i] + [out[i]];
        assert Front(out[..i + 1]) == out[..i];
        if Admits(g, q, e, out[i]) {
          next := next + [Extend(e, out[i])];
        }
      }
      assert out[..|out|] == out;
    }

    /** The routes of some run of the heap, and of no others. */
    method Search(q: Query, limit: nat) returns (results: seq<Candidate>, ghost found: seq<Entry>)
      requires Valid() && Eligible(View(), q) && limit >= 1
      ensures Finds(View(), q, limit, found)
      ensures forall e :: e in found ==> OnGraph(View(), q, e)
      ensures results == CandidatesOf(View(), q, found)
    {
      hide ValidGraph, SortedLinks, Eligible, Reached, Children, EntryLeq, Pending, Work, AllRoutes, CandidateOf, Found;
      hide PathSecurity, PathMedia, Mirrors, SearchInvariant, NextBranches, IsRun, OnTree, EntryOn, Ended, IsLeast;
      var g := View();
      var queue := [Root(q)];
      ghost var pops: seq<Branch>, branches: seq<Branch> := [], [[]];
      results, found := [], [];
      StartCarries(g, q);
      NothingPopped(g, q, limit);
      while queue != [] && |results| < limit
        invariant Carries(g, q, pops, queue, branches) && IsRun(g, q, limit, pops)
        invariant found == Found(g, q, pops)
        invariant forall e :: e in found ==> OnGraph(g, q, e)
        invariant results == CandidatesOf(g, q, found)
        decreases Work(g, q, queue)
      {
        var i := LeastEntry(queue);
        var e, rest := queue[i], queue[..i] + queue[i + 1..];
        MinimalIsPopped(g, q, limit, pops, queue, branches, i);
        ChildrenAreKids(g, q, e);
        assert rest + [] == rest;
        found := Taken(g, q, found, e);
        pops, branches := pops + [branches[i]], NextBranches(g, q, branches, i);
        if Last(e.path) == q.destination {
          if Accepts(g, q, e) {
            results := results + [CandidateOf(g, q, e)];
          }
          queue := rest;
        } else if |e.path| - 1 >= q.policy.maxHops {
          queue := rest;
        } else {
          queue := Push(q, rest, e);
        }
      }
      LoopEnds(g, q, limit, pops, queue, branches);
    }

    method Candidates(q: Query, limit: int) returns (r: Result<seq<Candidate>, GraphError>)
      requires Valid()
      ensures r.Err? <==> q.origin in nodes && q.destination in nodes && limit < 1
      ensures r.Err? ==> r.error == LimitNotPositive
      ensures r.Ok? && limit < 1 ==> r.value == []
      ensures r.Ok? && limit >= 1 ==> exists found :: Answered(View(), q, limit, found, r.value)
      ensures r.Ok? && limit >= 1 ==> |r.value| <= limit && BestFirst(r.value)
      ensures r.Ok? && limit >= 1 ==> forall c :: c in r.value ==> Offered(View(), q, c)
      ensures r.Ok? && limit >= 1 ==> (r.value == [] <==> !exists path, links :: MeetsTerms(View(), q, path, links))
    {
      ghost var found: seq<Entry> := [];
      var results: seq<Candidate> := [];
      if q.origin in nodes && q.destination in nodes {
        if limit < 1 {
          return Err(LimitNotPositive);
        }
        if TrustAllowed(nodes[q.origin], q.policy, false) && TrustAllowed(nodes[q.destination], q.policy, true) {
          results, found := Search(q, limit);
        }
      }
      if limit >= 1 {
        ghost var answer := FoundCanBeAnswered(View(), q, limit, found);
        AnswersMeetTheTerms(View(), q, limit, found, answer);
        NothingIsAnsweredExactly(View(), q, limit, found, answer);
        AnswerSize(View(), q, limit, found, answer);
      }
      r := Ok(SortBy(CandidateLeq, results));
    }

    /** With the default limit of five: a route is selected exactly when some route is compliant. */
    method RouteDecision(q: Query) returns (d: Decision)
      requires Valid()
      ensures exists found :: Answered(View(), q, 5, found, d.candidates)
      ensures d.selected == if d.candidates == [] then None else Some(d.candidates[0])
      ensures d.selected.None? <==> !exists links :: Compliant(View(), q, links)
      ensures d.selected.None? <==> !exists path, links :: MeetsTerms(View(), q, path, links)
      ensures BestFirst(d.candidates) && forall c :: c in d.candidates ==> Offered(View(), q, c)
      ensures d.reasons ==
        if d.selected.Some? then []
        else if q.destination !in nodes then ["destination_unknown"]
        else if OutOfService(nodes[q.destination]) then ["destination_blocked"]
        else ["no_policy_compliant_path"]
    {
      hide Compliant, CandidateOf, Finds, MeetsTerms, Offered, BestFirst, ValidGraph, SortedLinks, Answers;
      var r := Candidates(q, 5);
      var candidates := r.value;
      ghost var found :| Answered(View(), q, 5, found, candidates);
      EmptyAnswerMeansNoRoute(View(), q, 5, found, candidates);
      var selected := if candidates == [] then None else Some(candidates[0]);
      var reasons := [];
      if selected.None? {
        if q.destination !in nodes {
          reasons := ["destination_unknown"];
        } else if nodes[q.destination].Blocked() {
          reasons := ["destination_blocked"];
        } else {
          reasons := ["no_policy_compliant_path"];
        }
      }
      d := Decision(selected, candidates, reasons);
    }
  }
}
