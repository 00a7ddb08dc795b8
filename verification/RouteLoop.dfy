/**
 The queue of the search loop beside the run it carries out: every queued entry
 is a branch that the run may pop next. Runs can be carried on to their end, and
 what they find peaks lowest.
 */
module RouteLoop {
  import opened Wrappers
  import opened Sorting
  import opened RouteSpace
  import opened RouteSearch
  import opened RouteRuns

  // ------------------------------------------------------------ the queue mirrors the run

  /** What leads to a popped branch was popped. */
  ghost predicate Closed(pops: seq<Branch>) {
    forall o: Branch :: o in pops && o != [] ==> Front(o) in pops
  }

  /** The queue holds each queued branch once. */
  ghost predicate Mirrors(g: Graph, q: Query, pops: seq<Branch>, queue: seq<Entry>, branches: seq<Branch>) {
    && |queue| == |branches|
    && (forall i :: 0 <= i < |queue| ==> queue[i] == EntryOn(g, q, branches[i]))
    && (forall o :: o in branches <==> Queued(g, q, pops, o))
    && Distinct(branches)
    && Closed(pops)
  }

  /** The branches that continue a branch by one of the first `n` links of its last office. */
  ghost function KidBranches(g: Graph, q: Query, o: Branch, n: nat): seq<Branch>
    requires n <= |OutOf(g, q, o)| && forall l :: l in OutOf(g, q, o) ==> l.destination in g.nodes
  {
    if n == 0 then []
    else
      KidBranches(g, q, o, n - 1) + (if Admits(g, q, EntryOn(g, q, o), OutOf(g, q, o)[n - 1]) then [o + [n - 1]] else [])
  }

  function OutOf(g: Graph, q: Query, o: Branch): seq<Link> {
    Outgoing(g, Last(Offices(q.origin, LinksOn(g, q, o))))
  }

  lemma {:induction false} KidsOnBranches(g: Graph, q: Query, o: Branch, n: nat)
    requires n <= |OutOf(g, q, o)| && forall l :: l in OutOf(g, q, o) ==> l.destination in g.nodes
    ensures forall l :: l in OutOf(g, q, o)[..n] ==> l.destination in g.nodes
    ensures var kids, bs := Kids(g, q, EntryOn(g, q, o), OutOf(g, q, o)[..n]), KidBranches(g, q, o, n);
            |kids| == |bs| && forall i :: 0 <= i < |kids| ==> kids[i] == EntryOn(g, q, bs[i])
  {
    hide Admits, OutOf;
    if n > 0 {
      var out := OutOf(g, q, o);
      assert out[..n - 1] == Front(out[..n]) && out[n - 1] == Last(out[..n]);
      KidsOnBranches(g, q, o, n - 1);
      ExtendedEntry(g, q, o, n - 1);
      hide EntryOn;
    }
  }

  lemma ExtendedEntry(g: Graph, q: Query, o: Branch, i: nat)
    requires i < |OutOf(g, q, o)|
    ensures LinksOn(g, q, o + [i]) == LinksOn(g, q, o) + [OutOf(g, q, o)[i]]
    ensures EntryOn(g, q, o + [i]) == Extend(EntryOn(g, q, o), OutOf(g, q, o)[i])
  {
    LinksOnOneMore(g, q, o, i);
    var links := LinksOn(g, q, o + [i]);
    assert Front(links) == LinksOn(g, q, o) && Last(links) == OutOf(g, q, o)[i];
  }

  lemma {:induction false} KidBranchesAre(g: Graph, q: Query, o: Branch, n: nat)
    requires n <= |OutOf(g, q, o)| && forall l :: l in OutOf(g, q, o) ==> l.destination in g.nodes
    ensures Distinct(KidBranches(g, q, o, n))
    ensures forall k: Branch :: k in KidBranches(g, q, o, n) <==>
              k != [] && Front(k) == o && Last(k) < n && Admits(g, q, EntryOn(g, q, o), OutOf(g, q, o)[Last(k)])
  {
    hide Admits, OutOf, EntryOn;
    if n > 0 {
      KidBranchesAre(g, q, o, n - 1);
      forall k: Branch | k != [] && Front(k) == o
        ensures k == o + [Last(k)]
      {
      }
      assert Front(o + [n - 1]) == o && Last(o + [n - 1]) == n - 1;
    }
  }

  /** The branches that popping a branch pushes. */
  ghost function Pushed(g: Graph, q: Query, o: Branch): seq<Branch>
    requires ValidGraph(g) && Eligible(g, q) && OnTree(g, q, o)
  {
    BranchIsReached(g, q, o);
    ChildrenAreKids(g, q, EntryOn(g, q, o));
    if Stops(q, EntryOn(g, q, o)) then [] else KidBranches(g, q, o, |OutOf(g, q, o)|)
  }

  lemma PushedIsChildren(g: Graph, q: Query, o: Branch)
    requires ValidGraph(g) && Eligible(g, q) && OnTree(g, q, o)
    ensures Reached(g, q, EntryOn(g, q, o))
    ensures var kids, bs := Children(g, q, EntryOn(g, q, o)), Pushed(g, q, o);
            |kids| == |bs| && forall i :: 0 <= i < |kids| ==> kids[i] == EntryOn(g, q, bs[i])
  {
    BranchIsReached(g, q, o);
    ChildrenAreKids(g, q, EntryOn(g, q, o));
    var out := OutOf(g, q, o);
    assert out[..|out|] == out;
    hide Children, ValidGraph, Eligible, OnTree, Stops, EntryAt;
    if !Stops(q, EntryOn(g, q, o)) {
      KidsOnBranches(g, q, o, |out|);
    }
  }

  /** Exactly the branches one link longer are pushed. */
  lemma PushedIs(g: Graph, q: Query, o: Branch)
    requires ValidGraph(g) && Eligible(g, q) && OnTree(g, q, o)
    ensures Distinct(Pushed(g, q, o))
    ensures forall k: Branch :: k in Pushed(g, q, o) <==> k != [] && Front(k) == o && OnTree(g, q, k)
  {
    BranchIsReached(g, q, o);
    ChildrenAreKids(g, q, EntryOn(g, q, o));
    var out := OutOf(g, q, o);
    hide OnTree, OutOf, EntryOn, Admits, ValidGraph, Eligible, KidBranches;
    if !Stops(q, EntryOn(g, q, o)) {
      KidBranchesAre(g, q, o, |out|);
    }
    hide Stops;
    forall k: Branch | k != [] && Front(k) == o
      ensures OnTree(g, q, k) <==>
                !Stops(q, EntryOn(g, q, o)) && Last(k) < |out| && Admits(g, q, EntryOn(g, q, o), out[Last(k)])
    {
      assert k == o + [Last(k)];
      LongerBranch(g, q, o, Last(k));
    }
  }

  lemma FollowedOneMore(g: Graph, q: Query, links: seq<Link>, l: Link)
    ensures Followed(g, q, links + [l]) <==>
              && Followed(g, q, links) && EntryAt(q, links).path != [] && !Stops(q, EntryAt(q, links))
              && l in Outgoing(g, Last(EntryAt(q, links).path)) && l.destination in g.nodes
              && Admits(g, q, EntryAt(q, links), l)
  {
    assert Front(links + [l]) == links && Last(links + [l]) == l;
    hide Admits, Stops, EntryAt, Outgoing;
  }

  lemma LongerBranch(g: Graph, q: Query, o: Branch, i: nat)
    requires ValidGraph(g) && Eligible(g, q) && OnTree(g, q, o) && EntryOn(g, q, o).path != []
    requires forall l :: l in OutOf(g, q, o) ==> l.destination in g.nodes
    ensures OnTree(g, q, o + [i]) <==>
              !Stops(q, EntryOn(g, q, o)) && i < |OutOf(g, q, o)| && Admits(g, q, EntryOn(g, q, o), OutOf(g, q, o)[i])
  {
    hide Admits, Stops, ValidGraph, Eligible, Followed, LinksOn, EntryAt;
    LinksOnOneMore(g, q, o, i);
    if i < |OutOf(g, q, o)| {
      EntryAtMeaning(q, LinksOn(g, q, o));
      FollowedOneMore(g, q, LinksOn(g, q, o), OutOf(g, q, o)[i]);
      hide Offices, Outgoing;
    }
  }

  lemma StartMirrors(g: Graph, q: Query)
    ensures Mirrors(g, q, [], [Root(q)], [[]])
  {
    assert OnTree(g, q, []);
  }

  ghost function NextBranches(g: Graph, q: Query, branches: seq<Branch>, i: nat): seq<Branch>
    requires ValidGraph(g) && Eligible(g, q) && i < |branches| && OnTree(g, q, branches[i])
  {
    branches[..i] + branches[i + 1..] + Pushed(g, q, branches[i])
  }

  /** One turn of the loop is one more pop of the run. */
  lemma PopMirrors(g: Graph, q: Query, pops: seq<Branch>, queue: seq<Entry>, branches: seq<Branch>, i: nat)
    requires ValidGraph(g) && Eligible(g, q) && Mirrors(g, q, pops, queue, branches) && i < |queue|
    requires AllReached(g, q, queue)
    ensures OnTree(g, q, branches[i])
    ensures Mirrors(g, q, pops + [branches[i]], Popped(g, q, queue, i), NextBranches(g, q, branches, i))
  {
    hide EntryOn, OnTree, Reached, Children, Pushed, ValidGraph, Eligible;
    var o, next := branches[i], pops + [branches[i]];
    assert o in branches && Queued(g, q, pops, o);
    PushedIsChildren(g, q, o);
    PushedIs(g, q, o);
    var rest, kids := branches[..i] + branches[i + 1..], Pushed(g, q, o);
    assert Popped(g, q, queue, i) == queue[..i] + queue[i + 1..] + Children(g, q, queue[i]);
    RestOf(branches, i);
    forall x: Branch
      ensures x in rest + kids <==> Queued(g, q, next, x)
      ensures x in rest ==> x !in kids
    {
      QueuedNext(g, q, pops, o, x);
    }
    DistinctConcat(rest, kids);
  }

  lemma QueuedNext(g: Graph, q: Query, pops: seq<Branch>, o: Branch, x: Branch)
    requires Closed(pops) && Queued(g, q, pops, o)
    ensures Closed(pops + [o])
    ensures Queued(g, q, pops + [o], x) <==>
              (Queued(g, q, pops, x) && x != o) || (x != [] && Front(x) == o && OnTree(g, q, x))
    ensures x != [] && Front(x) == o ==> !Queued(g, q, pops, x)
  {
    hide OnTree;
    var next := pops + [o];
    assert x in next <==> x in pops || x == o;
    if x != [] {
      assert |Front(x)| < |x|;
      assert Front(x) in next <==> Front(x) in pops || Front(x) == o;
      assert x in pops ==> Front(x) in pops;
      if Front(x) == o {
        assert x !in next;
      }
    }
  }

  lemma RestOf(branches: seq<Branch>, i: nat)
    requires i < |branches| && Distinct(branches)
    ensures Distinct(branches[..i] + branches[i + 1..])
    ensures forall x :: x in branches[..i] + branches[i + 1..] <==> x in branches && x != branches[i]
  {
    var rest := branches[..i] + branches[i + 1..];
    forall x | x in branches && x != branches[i]
      ensures x in rest
    {
      var j :| 0 <= j < |branches| && branches[j] == x;
      assert rest[if j < i then j else j - 1] == x;
    }
  }

  // ------------------------------------------------------------ one more pop

  lemma OneMorePop(g: Graph, q: Query, limit: nat, pops: seq<Branch>, o: Branch)
    requires IsRun(g, q, limit, pops) && |Found(g, q, pops)| < limit && IsLeast(g, q, pops, o)
    ensures IsRun(g, q, limit, pops + [o])
  {
    assert Front(pops + [o]) == pops && Last(pops + [o]) == o;
    hide IsLeast, Found;
  }

  lemma FoundOneMore(g: Graph, q: Query, pops: seq<Branch>, o: Branch)
    requires ValidGraph(g) && Eligible(g, q) && OnTree(g, q, o)
    ensures OnGraph(g, q, EntryOn(g, q, o))
    ensures Found(g, q, pops + [o]) == Taken(g, q, Found(g, q, pops), EntryOn(g, q, o))
  {
    assert Front(pops + [o]) == pops && Last(pops + [o]) == o;
    BranchIsReached(g, q, o);
    AcceptsTheCompliant(g, q, EntryOn(g, q, o));
    hide Accepts, Compliant, OnGraph, EntryAt, LinksOn, Reached;
  }

  /** A minimal entry of the queue is a minimal branch of the run. */
  lemma LeastOfQueue(g: Graph, q: Query, pops: seq<Branch>, queue: seq<Entry>, branches: seq<Branch>, i: nat)
    requires Mirrors(g, q, pops, queue, branches) && i < |queue|
    requires forall j :: 0 <= j < |queue| ==> EntryLeq(queue[i], queue[j])
    ensures IsLeast(g, q, pops, branches[i])
  {
    hide EntryLeq, EntryOn, Queued;
    assert branches[i] in branches;
    forall x | Queued(g, q, pops, x)
      ensures EntryLeq(queue[i], EntryOn(g, q, x))
    {
      assert x in branches;
      var j :| 0 <= j < |branches| && branches[j] == x;
    }
  }

  /** The state of the loop after a run: its queue mirrors the run, and its invariant holds. */
  ghost predicate Carries(g: Graph, q: Query, pops: seq<Branch>, queue: seq<Entry>, branches: seq<Branch>): (carries: bool)
    requires ValidGraph(g) && Eligible(g, q)
    ensures carries ==> AllReached(g, q, queue)
  {
    Mirrors(g, q, pops, queue, branches) && SearchInvariant(g, q, queue, Found(g, q, pops))
  }

  /** Popping a minimal entry carries the run on by one pop. */
  lemma CarryOn(g: Graph, q: Query, pops: seq<Branch>, queue: seq<Entry>, branches: seq<Branch>, i: nat)
    requires ValidGraph(g) && Eligible(g, q) && Carries(g, q, pops, queue, branches) && i < |queue|
    requires forall j :: 0 <= j < |queue| ==> queue[i].priority <= queue[j].priority
    ensures OnTree(g, q, branches[i]) && AllReached(g, q, queue)
    ensures Carries(g, q, pops + [branches[i]], Popped(g, q, queue, i), NextBranches(g, q, branches, i))
    ensures Work(g, q, Popped(g, q, queue, i)) < Work(g, q, queue)
  {
    hide EntryOn, OnTree, Popped, NextBranches, ValidGraph, Eligible, Found, Pending, AllRoutes, InOrder, Work;
    PopMirrors(g, q, pops, queue, branches, i);
    SearchSteps(g, q, queue, i, Found(g, q, pops));
    FoundOneMore(g, q, pops, branches[i]);
    assert queue[i] == EntryOn(g, q, branches[i]);
  }

  lemma StartCarries(g: Graph, q: Query)
    requires ValidGraph(g) && Eligible(g, q)
    ensures Carries(g, q, [], [Root(q)], [[]])
  {
    StartMirrors(g, q);
    SearchStarts(g, q);
    hide Mirrors, SearchInvariant, ValidGraph, Eligible;
  }

  /** Every run is carried out by some queue of the loop. */
  lemma {:induction false} RunIsCarried(g: Graph, q: Query, limit: nat, pops: seq<Branch>)
      returns (queue: seq<Entry>, branches: seq<Branch>)
    requires ValidGraph(g) && Eligible(g, q) && IsRun(g, q, limit, pops)
    ensures Carries(g, q, pops, queue, branches)
  {
    hide ValidGraph, Eligible, Found, Popped, NextBranches, EntryLeq, Mirrors, SearchInvariant, Reached, Work, OnTree;
    if pops == [] {
      queue, branches := [Root(q)], [[]];
      StartCarries(g, q);
    } else {
      hide Carries, IsLeast;
      queue, branches := RunIsCarried(g, q, limit, Front(pops));
      var i := PickOf(g, q, Front(pops), Last(pops), queue, branches);
      hide IsRun;
      CarryOn(g, q, Front(pops), queue, branches, i);
      assert Front(pops) + [Last(pops)] == pops;
      queue, branches := Popped(g, q, queue, i), NextBranches(g, q, branches, i);
    }
  }

  lemma PickOf(g: Graph, q: Query, pops: seq<Branch>, o: Branch, queue: seq<Entry>, branches: seq<Branch>) returns (i: nat)
    requires ValidGraph(g) && Eligible(g, q) && Carries(g, q, pops, queue, branches) && IsLeast(g, q, pops, o)
    ensures i < |queue| && i < |branches| && branches[i] == o
    ensures forall j :: 0 <= j < |queue| ==> queue[i].priority <= queue[j].priority
  {
    hide EntryOn, OnTree;
    assert o in branches;
    i :| 0 <= i < |branches| && branches[i] == o;
    forall j | 0 <= j < |queue|
      ensures queue[i].priority <= queue[j].priority
    {
      assert branches[j] in branches;
      assert EntryLeq(EntryOn(g, q, o), EntryOn(g, q, branches[j]));
    }
  }

  lemma EndedIsEmpty(g: Graph, q: Query, limit: nat, pops: seq<Branch>, queue: seq<Entry>, branches: seq<Branch>)
    requires Mirrors(g, q, pops, queue, branches)
    ensures Ended(g, q, limit, pops) <==> |Found(g, q, pops)| == limit || queue == []
  {
    hide EntryOn, Queued, Found;
    if queue != [] {
      assert branches[0] in branches;
    }
  }

  /** Whatever run the loop takes, what it finds peaks lowest. */
  lemma RunsFindLowestPeaks(g: Graph, q: Query, limit: nat, found: seq<Entry>)
    requires ValidGraph(g) && Finds(g, q, limit, found)
    ensures LowestPeaks(g, q, limit, found)
  {
    if Eligible(g, q) {
      var pops :| IsRun(g, q, limit, pops) && Ended(g, q, limit, pops) && found == Found(g, q, pops);
      var queue, branches := RunIsCarried(g, q, limit, pops);
      EndedIsEmpty(g, q, limit, pops, queue, branches);
      FindsUpToTheLimit(g, q, limit, pops);
      hide ValidGraph, Eligible, Found, Mirrors, Ended, IsRun, SearchInvariant;
      SearchEnds(g, q, queue, found, limit);
    }
  }

  lemma {:induction false} FindsUpToTheLimit(g: Graph, q: Query, limit: nat, pops: seq<Branch>)
    requires IsRun(g, q, limit, pops)
    ensures |Found(g, q, pops)| <= limit
  {
    hide IsLeast, Compliant;
  }

  // ------------------------------------------------------------ every run can be carried to its end

  /** A queued branch that is minimal, with ties broken by rank. */
  ghost predicate IsPick(g: Graph, q: Query, rank: Branch -> nat, branches: seq<Branch>, i: nat)
    requires i < |branches|
  {
    forall j :: 0 <= j < |branches| ==>
      && EntryLeq(EntryOn(g, q, branches[i]), EntryOn(g, q, branches[j]))
      && (EntryLeq(EntryOn(g, q, branches[j]), EntryOn(g, q, branches[i])) ==> rank(branches[i]) <= rank(branches[j]))
  }

  lemma {:induction false} SomePick(g: Graph, q: Query, rank: Branch -> nat, branches: seq<Branch>) returns (i: nat)
    requires branches != []
    ensures i < |branches| && IsPick(g, q, rank, branches, i)
  {
    EntryOrderIsTotal();
    hide EntryLeq, EntryOn;
    if |branches| == 1 {
      i := 0;
    } else {
      var n := |branches| - 1;
      i := SomePick(g, q, rank, branches[..n]);
      var d, e := EntryOn(g, q, branches[i]), EntryOn(g, q, branches[n]);
      var best := i;
      if !EntryLeq(d, e) || (EntryLeq(e, d) && rank(branches[n]) < rank(branches[i])) {
        best := n;
      }
      forall j | 0 <= j < |branches|
        ensures EntryLeq(EntryOn(g, q, branches[best]), EntryOn(g, q, branches[j]))
        ensures EntryLeq(EntryOn(g, q, branches[j]), EntryOn(g, q, branches[best])) ==> rank(branches[best]) <= rank(branches[j])
      {
        assert j < n ==> branches[..n][j] == branches[j];
      }
      i := best;
    }
  }

  lemma RankedOneMore(g: Graph, q: Query, rank: Branch -> nat, pops: seq<Branch>, queue: seq<Entry>, branches: seq<Branch>, i: nat)
    requires Ranked(g, q, rank, pops) && Mirrors(g, q, pops, queue, branches) && i < |branches|
    requires IsPick(g, q, rank, branches, i)
    ensures Ranked(g, q, rank, pops + [branches[i]])
  {
    hide EntryLeq, EntryOn, Queued;
    var next := pops + [branches[i]];
    forall k, o | 0 <= k < |next| && Queued(g, q, next[..k], o) && EntryLeq(EntryOn(g, q, o), EntryOn(g, q, next[k]))
      ensures rank(next[k]) <= rank(o)
    {
      if k < |pops| {
        assert next[..k] == pops[..k];
      } else {
        assert next[..k] == pops;
        assert o in branches;
        var j :| 0 <= j < |branches| && branches[j] == o;
      }
    }
  }

  /** A run can be carried to its end, whatever breaks its ties. */
  lemma {:induction false} CarryToTheEnd(g: Graph, q: Query, limit: nat, rank: Branch -> nat, pops: seq<Branch>,
                                         queue: seq<Entry>, branches: seq<Branch>) returns (all: seq<Branch>)
    requires ValidGraph(g) && Eligible(g, q) && Carries(g, q, pops, queue, branches)
    requires IsRun(g, q, limit, pops) && Ranked(g, q, rank, pops)
    ensures IsRun(g, q, limit, all) && Ranked(g, q, rank, all) && Ended(g, q, limit, all)
    decreases Work(g, q, queue)
  {
    EndedIsEmpty(g, q, limit, pops, queue, branches);
    FindsUpToTheLimit(g, q, limit, pops);
    hide ValidGraph, Eligible, Found, Popped, NextBranches, EntryLeq, EntryOn, Queued, Work, IsRun, Ranked, Ended, SearchInvariant;
    all := pops;
    if queue != [] && |Found(g, q, pops)| < limit {
      var i := SomePick(g, q, rank, branches);
      PickIsLeast(g, q, rank, queue, branches, pops, i);
      LeastOfQueue(g, q, pops, queue, branches, i);
      OneMorePop(g, q, limit, pops, branches[i]);
      RankedOneMore(g, q, rank, pops, queue, branches, i);
      CarryOn(g, q, pops, queue, branches, i);
      hide Mirrors, IsPick;
      all := CarryToTheEnd(g, q, limit, rank, pops + [branches[i]], Popped(g, q, queue, i), NextBranches(g, q, branches, i));
    }
  }

  lemma PickIsLeast(g: Graph, q: Query, rank: Branch -> nat, queue: seq<Entry>, branches: seq<Branch>, pops: seq<Branch>, i: nat)
    requires Mirrors(g, q, pops, queue, branches) && i < |branches| && IsPick(g, q, rank, branches, i)
    ensures forall j :: 0 <= j < |queue| ==> EntryLeq(queue[i], queue[j])
    ensures forall j :: 0 <= j < |queue| ==> queue[i].priority <= queue[j].priority
  {
    hide EntryOn, Queued;
    forall j | 0 <= j < |queue|
      ensures EntryLeq(queue[i], queue[j])
      ensures queue[i].priority <= queue[j].priority
    {
    }
  }

  lemma RankedRun(g: Graph, q: Query, limit: nat, rank: Branch -> nat) returns (pops: seq<Branch>)
    requires ValidGraph(g) && Eligible(g, q)
    ensures IsRun(g, q, limit, pops) && Ranked(g, q, rank, pops) && Ended(g, q, limit, pops)
  {
    StartCarries(g, q);
    pops := CarryToTheEnd(g, q, limit, rank, [], [Root(q)], [[]]);
  }

  // ------------------------------------------------------------ the turns of the loop

  lemma NothingPopped(g: Graph, q: Query, limit: nat)
    ensures IsRun(g, q, limit, []) && Found(g, q, []) == []
  {}

  /** Popping an entry that is minimal by cost and path, while the limit is not reached, carries the run on. */
  lemma MinimalIsPopped(g: Graph, q: Query, limit: nat, pops: seq<Branch>, queue: seq<Entry>, branches: seq<Branch>, i: nat)
    requires ValidGraph(g) && Eligible(g, q) && Carries(g, q, pops, queue, branches) && i < |queue|
    requires IsRun(g, q, limit, pops) && |Found(g, q, pops)| < limit
    requires forall j :: 0 <= j < |queue| ==> EntryLeq(queue[i], queue[j])
    ensures i < |branches| && OnTree(g, q, branches[i]) && Reached(g, q, queue[i]) && OnGraph(g, q, queue[i])
    ensures AllReached(g, q, queue)
    ensures Carries(g, q, pops + [branches[i]], Popped(g, q, queue, i), NextBranches(g, q, branches, i))
    ensures IsRun(g, q, limit, pops + [branches[i]])
    ensures Found(g, q, pops + [branches[i]]) == Taken(g, q, Found(g, q, pops), queue[i])
    ensures Work(g, q, Popped(g, q, queue, i)) < Work(g, q, queue)
  {
    LeastOfQueue(g, q, pops, queue, branches, i);
    assert forall j :: 0 <= j < |queue| ==> queue[i].priority <= queue[j].priority;
    hide EntryLeq, ValidGraph, Eligible, IsRun, Found, SearchInvariant, EntryAt, LinksOn, Work, Popped, NextBranches, IsLeast;
    CarryOn(g, q, pops, queue, branches, i);
    OneMorePop(g, q, limit, pops, branches[i]);
    BranchIsReached(g, q, branches[i]);
    FoundOneMore(g, q, pops, branches[i]);
  }

  lemma LoopEnds(g: Graph, q: Query, limit: nat, pops: seq<Branch>, queue: seq<Entry>, branches: seq<Branch>)
    requires ValidGraph(g) && Eligible(g, q) && Carries(g, q, pops, queue, branches) && IsRun(g, q, limit, pops)
    requires queue == [] || |Found(g, q, pops)| >= limit
    ensures Finds(g, q, limit, Found(g, q, pops))
  {
    FindsUpToTheLimit(g, q, limit, pops);
    EndedIsEmpty(g, q, limit, pops, queue, branches);
    hide ValidGraph, Eligible, IsRun, Found, Mirrors, Ended, SearchInvariant;
  }

  // ------------------------------------------------------------ answers

  /** What the caller gets: the routes of some run, ranked by score. */
  ghost predicate Answered(g: Graph, q: Query, limit: nat, found: seq<Entry>, answer: seq<Candidate>)
    requires ValidGraph(g)
  {
    Finds(g, q, limit, found) && Answers(g, q, limit, found, answer)
  }

  /** Every run has an answer. */
  lemma FoundCanBeAnswered(g: Graph, q: Query, limit: nat, found: seq<Entry>) returns (answer: seq<Candidate>)
    requires ValidGraph(g) && Finds(g, q, limit, found)
    ensures forall e :: e in found ==> OnGraph(g, q, e)
    ensures answer == SortBy(CandidateLeq, CandidatesOf(g, q, found)) && Answered(g, q, limit, found, answer)
  {
    RunsFindLowestPeaks(g, q, limit, found);
    forall e | e in found ensures OnGraph(g, q, e) {
      FoundRoutesAreRoutes(g, q, limit, found, e);
      RoutesAreDeterminedByTheirLinks(g, q, e);
    }
    CandidateOrderIsTotal();
    SortByIsSorted(CandidateLeq, CandidatesOf(g, q, found));
    answer := SortBy(CandidateLeq, CandidatesOf(g, q, found));
    hide LowestPeaks, CandidateLeq, OnGraph, ValidGraph, Finds;
  }
}
