/**
 A small network with a detour, on which ranking by score and searching by cost
 disagree, and on which a negative cost hides the cheapest route.
 */
module DetourExample {
  import opened Wrappers
  import opened Sorting
  import opened RouteSpace
  import opened RouteSearch
  import opened RouteHeads

  function Office(id: string, preference: int): Node {
    Node(id, Trusted, "active", {}, {}, true, preference)
  }

  function Hop(source: string, destination: string, latency: int, cost: int): Link {
    Link(source, destination, latency, {}, {}, true, cost)
  }

  function Direct(cost: int): Link {
    Hop("a", "d", 1, cost)
  }

  const QUERY: Query := Query("a", "d", RoutePolicy(Observed, {}, {}, 4, None, {}, {}, false))

  const FIRST_LEG: Link := Hop("a", "b", 1, 0)

  /** Direct links from a to d, and a way from a to d by b. */
  function Network(directs: seq<Link>, second: Link, preference: int): Graph {
    Graph(
      map["a" := Office("a", 0), "b" := Office("b", preference), "d" := Office("d", 0)],
      map["a" := [FIRST_LEG] + directs, "b" := [second], "d" := []])
  }

  ghost predicate AreDirect(directs: seq<Link>) {
    forall l :: l in directs ==> l == Direct(l.cost)
  }

  lemma NamesDiffer()
    ensures "a" != "b" && "a" != "d" && "b" != "d"
    ensures "active" !in BLOCKED_STATES
  {
    assert "a"[0] != "b"[0] && "a"[0] != "d"[0] && "b"[0] != "d"[0];
    assert |"active"| == 6 && |"restricted"| == 10 && |"quarantined"| == 11 && |"withdrawn"| == 9 && |"revoked"| == 7;
  }

  lemma NetworkIsValid(directs: seq<Link>, cost: int, preference: int)
    requires AreDirect(directs)
    ensures ValidGraph(Network(directs, Hop("b", "d", 1, cost), preference))
  {
    NamesDiffer();
  }

  lemma OfficesAllowed(preference: int, destination: bool)
    ensures TrustAllowed(Office("a", 0), QUERY.policy, destination)
    ensures TrustAllowed(Office("b", preference), QUERY.policy, destination)
    ensures TrustAllowed(Office("d", 0), QUERY.policy, destination)
  {
    NamesDiffer();
  }

  lemma DirectIsCompliant(directs: seq<Link>, second: Link, preference: int, l: Link)
    requires AreDirect(directs) && l in directs
    ensures Compliant(Network(directs, second, preference), QUERY, [l])
  {
    NamesDiffer();
    OfficesAllowed(preference, false);
    OfficesAllowed(preference, true);
    hide TrustAllowed;
    assert Front([l]) == [];
    assert Offices("a", [l]) == ["a", "d"];
  }

  lemma DetourIsCompliant(directs: seq<Link>, cost: int, preference: int)
    ensures Compliant(Network(directs, Hop("b", "d", 1, cost), preference), QUERY, [FIRST_LEG, Hop("b", "d", 1, cost)])
  {
    NamesDiffer();
    OfficesAllowed(preference, false);
    OfficesAllowed(preference, true);
    hide TrustAllowed;
    var links := [FIRST_LEG, Hop("b", "d", 1, cost)];
    assert Front(links) == [FIRST_LEG] && Front([FIRST_LEG]) == [];
    assert Offices("a", [FIRST_LEG]) == ["a", "b"];
    assert Offices("a", links) == ["a", "b", "d"];
  }

  /** Every compliant route is one direct link or the detour. */
  lemma OnlyTheseRoutes(directs: seq<Link>, cost: int, preference: int, links: seq<Link>)
    requires AreDirect(directs)
    requires Compliant(Network(directs, Hop("b", "d", 1, cost), preference), QUERY, links)
    ensures (|links| == 1 && links[0] in directs) || links == [FIRST_LEG, Hop("b", "d", 1, cost)]
  {
    NamesDiffer();
    hide TrustAllowed, CapableWalk, WithinLatency, TrustedWalk;
    var g := Network(directs, Hop("b", "d", 1, cost), preference);
    var path := Offices("a", links);
    assert path[0] == "a" && path[|links|] == "d";
    assert links[0] in g.links["a"];
    if links[0] in directs {
      assert path[1] == "d";
    } else {
      assert links[0] == FIRST_LEG && path[1] == "b";
      assert links[1] in g.links[path[1]];
      assert path[2] == "d";
    }
  }

  lemma RouteCosts(directCost: int, cost: int)
    ensures RouteCost([Direct(directCost)]) == 101 + directCost
    ensures RouteCost([FIRST_LEG, Hop("b", "d", 1, cost)]) == 202 + cost
  {
    assert Front([Direct(directCost)]) == [] && Front([FIRST_LEG]) == [];
    assert Front([FIRST_LEG, Hop("b", "d", 1, cost)]) == [FIRST_LEG];
    assert Latency([FIRST_LEG]) == 1 && LinkCost([FIRST_LEG]) == 0;
  }

  lemma RoutePeaks(directCost: int, cost: int)
    requires directCost >= -101
    ensures Peak([Direct(directCost)]) == 101 + directCost
    ensures Peak([FIRST_LEG, Hop("b", "d", 1, cost)]) == if cost >= -101 then 202 + cost else 101
  {
    RouteCosts(directCost, cost);
    RouteCosts(0, 0);
    assert Front([Direct(directCost)]) == [] && Front([FIRST_LEG]) == [];
    assert Front([FIRST_LEG, Hop("b", "d", 1, cost)]) == [FIRST_LEG];
    assert RouteCost([FIRST_LEG]) == 101 by { assert Latency([]) == 0 && LinkCost([]) == 0; }
    hide RouteCost;
    assert Peak([]) == 0;
    assert Peak([FIRST_LEG]) == 101;
  }

  // ------------------------------------------------------------ five direct links in front of a better detour

  const FIVE: seq<Link> := [Direct(0), Direct(1), Direct(2), Direct(3), Direct(4)]

  const SECOND_LEG: Link := Hop("b", "d", 1, 0)

  const PREFERRED: Graph := Network(FIVE, SECOND_LEG, 1000)

  const DETOUR: seq<Link> := [FIRST_LEG, SECOND_LEG]

  lemma Standings()
    ensures Standing(PREFERRED, ["a", "d"]) == 10000 && Standing(PREFERRED, ["a", "b", "d"]) == 11000
  {
    NamesDiffer();
    assert forall id :: id in PREFERRED.nodes ==> PREFERRED.nodes[id].trust == Trusted;
    assert ["a", "d"][1..] == ["d"] && Front(["d"]) == [];
    assert ["a", "b", "d"][1..] == ["b", "d"] && Front(["b", "d"]) == ["b"] && Front(["b"]) == [];
    assert Preference(PREFERRED, ["b"]) == 1000;
  }

  lemma DetourScore()
    ensures Compliant(PREFERRED, QUERY, DETOUR) && ScoreOf(PREFERRED, QUERY, DETOUR) == 10798
  {
    DetourIsCompliant(FIVE, 0, 1000);
    RouteCosts(0, 0);
    Standings();
    hide Compliant, Standing, RouteCost;
    assert Front(DETOUR) == [FIRST_LEG] && Front([FIRST_LEG]) == [];
    assert Offices("a", [FIRST_LEG]) == ["a", "b"];
    assert Offices("a", DETOUR) == ["a", "b", "d"];
  }

  lemma DirectScore(cost: int)
    requires 0 <= cost <= 4
    ensures Compliant(PREFERRED, QUERY, [Direct(cost)]) && ScoreOf(PREFERRED, QUERY, [Direct(cost)]) == 9899 - cost
  {
    assert FIVE[cost] == Direct(cost);
    DirectIsCompliant(FIVE, SECOND_LEG, 1000, Direct(cost));
    RouteCosts(cost, 0);
    Standings();
    hide Compliant, Standing, RouteCost;
    assert Front([Direct(cost)]) == [];
    assert Offices("a", [Direct(cost)]) == ["a", "d"];
  }

  /** A search that stops after at most five routes never finds the detour. */
  lemma DetourIsNotFound(limit: nat, found: seq<Entry>)
    requires ValidGraph(PREFERRED) && limit <= 5 && LowestPeaks(PREFERRED, QUERY, limit, found)
    ensures EntryAt(QUERY, DETOUR) !in found
  {
    assert |found| <= 5;
    hide LowestPeaks, AllRoutes, ValidGraph, EntryAt, Peak, Compliant;
    if EntryAt(QUERY, DETOUR) in found {
      forall i | 0 <= i < 5 ensures EntryAt(QUERY, [Direct(i)]) in found {
        CheaperIsFound(limit, found, i);
      }
      SixInFive(found);
    }
  }

  lemma CheaperIsFound(limit: nat, found: seq<Entry>, i: nat)
    requires ValidGraph(PREFERRED) && LowestPeaks(PREFERRED, QUERY, limit, found) && i < 5
    requires EntryAt(QUERY, DETOUR) in found
    ensures EntryAt(QUERY, [Direct(i)]) in found
  {
    var e := EntryAt(QUERY, [Direct(i)]);
    RoutePeaks(i, 0);
    DirectScore(i);
    SearchFindsExactlyTheCompliantRoutes(PREFERRED, QUERY, [Direct(i)]);
    hide AllRoutes, ValidGraph, EntryAt, Peak, Compliant;
    assert e in multiset(AllRoutes(PREFERRED, QUERY));
    assert e !in Omitted(PREFERRED, QUERY, found);
    assert e in multiset(found);
  }

  lemma SixInFive(found: seq<Entry>)
    requires EntryAt(QUERY, DETOUR) in found && forall i :: 0 <= i < 5 ==> EntryAt(QUERY, [Direct(i)]) in found
    ensures |found| >= 6
  {
    hide EntryAt;
    var e0, e1, e2 := EntryAt(QUERY, [Direct(0)]), EntryAt(QUERY, [Direct(1)]), EntryAt(QUERY, [Direct(2)]);
    var e3, e4, e5 := EntryAt(QUERY, [Direct(3)]), EntryAt(QUERY, [Direct(4)]), EntryAt(QUERY, DETOUR);
    assert [Direct(0)][0].cost == 0 && [Direct(1)][0].cost == 1 && [Direct(2)][0].cost == 2;
    assert [Direct(3)][0].cost == 3 && [Direct(4)][0].cost == 4 && |DETOUR| == 2;
    var six := multiset{e0, e1, e2, e3, e4, e5};
    assert forall x :: x in six ==> six[x] == 1 && x in multiset(found);
    SmallerMultiset(six, multiset(found));
  }

  lemma FiveMember(l: Link)
    requires l in FIVE
    ensures 0 <= l.cost <= 4 && l == Direct(l.cost)
  {}

  lemma OthersScoreLess(links: seq<Link>)
    requires Compliant(PREFERRED, QUERY, links) && links != DETOUR
    ensures Compliant(PREFERRED, QUERY, DETOUR)
    ensures ScoreOf(PREFERRED, QUERY, links) < ScoreOf(PREFERRED, QUERY, DETOUR)
  {
    hide Compliant, ScoreOf, Network, Hop, Direct;
    assert AreDirect(FIVE) by {
      forall l | l in FIVE ensures l == Direct(l.cost) { FiveMember(l); }
    }
    OnlyTheseRoutes(FIVE, 0, 1000, links);
    DetourScore();
    FiveMember(links[0]);
    assert links == [Direct(links[0].cost)];
    DirectScore(links[0].cost);
  }

  /**
   The head is not the best-scoring compliant route at every limit: here, at the default limit of five and at
   every smaller one, five direct links come before a detour through a preferred office that outscores them all.
   */
  lemma TheLimitCanHideTheBestRoute()
    ensures ValidGraph(PREFERRED) && Compliant(PREFERRED, QUERY, DETOUR)
    ensures forall limit: nat, found: seq<Entry>, answer: seq<Candidate> ::
              1 <= limit <= 5 && Answers(PREFERRED, QUERY, limit, found, answer) ==>
                answer != [] && answer[0].score < ScoreOf(PREFERRED, QUERY, DETOUR)
  {
    NetworkIsValid(FIVE, 0, 1000);
    DetourScore();
    hide Compliant, ValidGraph, EntryAt, LowestPeaks, ScoreOf, AllRoutes, CandidatesOf, CandidateLeq, Network, Direct, Hop;
    forall links | Compliant(PREFERRED, QUERY, links) && links != DETOUR
      ensures ScoreOf(PREFERRED, QUERY, links) < ScoreOf(PREFERRED, QUERY, DETOUR)
    {
      OthersScoreLess(links);
    }
    forall limit: nat, found: seq<Entry>, answer: seq<Candidate>
      | 1 <= limit <= 5 && Answers(PREFERRED, QUERY, limit, found, answer)
      ensures answer != [] && answer[0].score < ScoreOf(PREFERRED, QUERY, DETOUR)
    {
      DetourIsNotFound(limit, found);
      MissedBestIsNotTheHead(PREFERRED, QUERY, limit, found, answer, DETOUR);
    }
  }

  // ------------------------------------------------------------ a cheap route behind a climb

  const DIP: Link := Hop("b", "d", 1, -1000)

  /** The direct link costs a little less than a hop, so that it peaks below the first leg of the detour. */
  const DIPPING: Graph := Network([Direct(-1)], DIP, 0)

  lemma OthersPeakHigher(links: seq<Link>)
    requires Compliant(DIPPING, QUERY, links) && links != [Direct(-1)]
    ensures Peak([Direct(-1)]) < Peak(links)
  {
    OnlyTheseRoutes([Direct(-1)], -1000, 0, links);
    RoutePeaks(-1, -1000);
  }

  /** Costs are not validated: a route that first climbs and then dips is cheaper, yet a search for one route misses it. */
  lemma NegativeCostsCanHideTheCheapest()
    ensures ValidGraph(DIPPING)
    ensures Compliant(DIPPING, QUERY, [FIRST_LEG, DIP]) && Compliant(DIPPING, QUERY, [Direct(-1)])
    ensures RouteCost([FIRST_LEG, DIP]) < RouteCost([Direct(-1)])
    ensures forall found :: LowestPeaks(DIPPING, QUERY, 1, found) ==> found == [EntryAt(QUERY, [Direct(-1)])]
  {
    NetworkIsValid([Direct(-1)], -1000, 0);
    DirectIsCompliant([Direct(-1)], DIP, 0, Direct(-1));
    DetourIsCompliant([Direct(-1)], -1000, 0);
    RouteCosts(-1, -1000);
    hide Compliant, ValidGraph, EntryAt, Peak, RouteCost, LowestPeaks;
    forall links | Compliant(DIPPING, QUERY, links) && links != [Direct(-1)]
      ensures Peak([Direct(-1)]) < Peak(links)
    {
      OthersPeakHigher(links);
    }
    forall found | LowestPeaks(DIPPING, QUERY, 1, found)
      ensures found == [EntryAt(QUERY, [Direct(-1)])]
    {
      LowestIsFoundAlone(DIPPING, QUERY, found, [Direct(-1)]);
    }
  }
}
