/**
 The receipts of an office: a gap-free, digest-linked sequence that a restart
 picks up again from the stored receipts.
 */
module ReceiptChain {
  import opened Sorting
  import opened Wrappers

  /** A digest is ideal: two documents have one digest exactly when they are equal. */
  datatype Digest = DigestOf(receipt: Receipt)

  datatype Receipt = Receipt(
    id: string,
    messageId: string,
    office: string,
    event: string,
    sequence: int,
    duplicate: bool,
    previous: Option<Digest>)

  /** A stored row of the receipt table, keyed by the receipt id. */
  type Store = map<string, Receipt>

  /** What the office holds in memory: its counter, the digest of its last receipt, and the stored rows. */
  datatype State = State(sequence: int, last: Option<Digest>, stored: Store)

  function NextReceipt(office: string, s: State, id: string, messageId: string, event: string, duplicate: bool): Receipt {
    Receipt(id, messageId, office, event, s.sequence + 1, duplicate, s.last)
  }

  /** A receipt whose id is already there is not stored again. */
  function Stored(st: Store, r: Receipt): Store {
    if r.id in st then st else st[r.id := r]
  }

  function Issue(office: string, s: State, id: string, messageId: string, event: string, duplicate: bool): State {
    var r := NextReceipt(office, s, id, messageId, event, duplicate);
    State(s.sequence + 1, Some(DigestOf(r)), Stored(s.stored, r))
  }

  /** Receipts are loaded by message id, and the first of highest sequence counts. */
  predicate Outranks(a: Receipt, b: Receipt) {
    a.sequence > b.sequence || (a.sequence == b.sequence && StrLeq(a.messageId, b.messageId))
  }

  lemma OutranksIsTotal()
    ensures TotalPreorder(Outranks)
  {
    StrLeqIsTotalOrder();
    hide StrLeq;
  }

  /** The receipt a restart goes by; which one, if several agree in sequence and message, is left open. */
  ghost predicate IsLatest(st: Store, r: Receipt) {
    && (exists id :: id in st && st[id] == r)
    && forall id :: id in st ==> Outranks(r, st[id])
  }

  /** What a restart may find: the counter and digest of a latest receipt, or a fresh start from an empty table. */
  ghost predicate Restarts(st: Store, s: State) {
    && s.stored == st
    && if st == map[] then s.sequence == 0 && s.last == None
       else exists r :: IsLatest(st, r) && s.sequence == r.sequence && s.last == Some(DigestOf(r))
  }

  // ------------------------------------------------------------ the chain

  /** The digest of the last receipt so far: what the next one has to carry. */
  function LinkTo(rs: seq<Receipt>): Option<Digest> {
    if rs == [] then None else Some(DigestOf(rs[|rs| - 1]))
  }

  ghost predicate Linked(rs: seq<Receipt>) {
    rs == [] || (Linked(rs[..|rs| - 1]) && rs[|rs| - 1].previous == LinkTo(rs[..|rs| - 1]))
  }

  /** Numbered from one without a gap, each linked to the digest of the one before. */
  ghost predicate Chain(office: string, rs: seq<Receipt>) {
    && (forall i :: 0 <= i < |rs| ==> rs[i].sequence == i + 1 && rs[i].office == office)
    && Linked(rs)
  }

  /** The table holds exactly the receipts issued so far, and the memory stands at the last of them. */
  ghost predicate Holds(office: string, s: State, issued: seq<Receipt>) {
    && Chain(office, issued)
    && Keeps(s.stored, issued)
    && s.sequence == |issued|
    && s.last == LinkTo(issued)
  }

  lemma IssueExtendsTheChain(office: string, s: State, issued: seq<Receipt>,
                             id: string, messageId: string, event: string, duplicate: bool)
    requires Holds(office, s, issued) && id !in s.stored
    ensures Holds(office, Issue(office, s, id, messageId, event, duplicate),
                  issued + [NextReceipt(office, s, id, messageId, event, duplicate)])
  {
    var r := NextReceipt(office, s, id, messageId, event, duplicate);
    ChainGrows(office, issued, r);
    hide Chain;
    StoreGrows(s.stored, issued, r);
  }

  /** The table and the issued receipts are the same rows. */
  ghost predicate Keeps(st: Store, issued: seq<Receipt>) {
    && (forall r :: r in issued ==> r.id in st && st[r.id] == r)
    && (forall id :: id in st ==> st[id] in issued && st[id].id == id)
  }

  lemma StoreGrows(st: Store, issued: seq<Receipt>, r: Receipt)
    requires Keeps(st, issued) && r.id !in st
    ensures Keeps(st[r.id := r], issued + [r])
  {
    assert forall x :: x in issued + [r] <==> x in issued || x == r;
  }

  lemma ChainGrows(office: string, rs: seq<Receipt>, r: Receipt)
    requires Chain(office, rs) && r.sequence == |rs| + 1 && r.office == office && r.previous == LinkTo(rs)
    ensures Chain(office, rs + [r])
  {
    assert (rs + [r])[..|rs|] == rs;
  }

  /** A restart that finds only the office's own receipts resumes exactly where the office stopped. */
  lemma RestartResumes(office: string, s: State, issued: seq<Receipt>, t: State)
    requires Holds(office, s, issued) && Restarts(s.stored, t)
    ensures t == s
  {
    if issued == [] {
      assert forall id :: id !in s.stored;
    } else {
      var own := issued[|issued| - 1];
      assert own in issued;
      var r :| IsLatest(s.stored, r) && t.sequence == r.sequence && t.last == Some(DigestOf(r));
      assert r in issued && r.sequence >= own.sequence;
    }
  }

  datatype Event =
    | Accept(id: string, messageId: string, event: string, duplicate: bool)
    | Restart(found: State)

  ghost predicate Step(office: string, s: State, e: Event, t: State) {
    match e
    case Accept(id, messageId, event, duplicate) =>
      id !in s.stored && t == Issue(office, s, id, messageId, event, duplicate)
    case Restart(found) => Restarts(s.stored, found) && t == found
  }

  ghost predicate Behaviour(office: string, ss: seq<State>, es: seq<Event>) {
    && |ss| == |es| + 1
    && ss[0] == State(0, None, map[])
    && forall i :: 0 <= i < |es| ==> Step(office, ss[i], es[i], ss[i + 1])
  }

  /** In every behaviour, restarts included, the stored receipts are one gap-free linked chain. */
  lemma {:induction false} EveryBehaviourIsOneChain(office: string, ss: seq<State>, es: seq<Event>)
      returns (issued: seq<Receipt>)
    requires Behaviour(office, ss, es)
    ensures Holds(office, ss[|es|], issued)
    decreases |es|
  {
    if es == [] {
      issued := [];
    } else {
      var n := |es| - 1;
      hide Holds, Issue, Restarts;
      issued := EveryBehaviourIsOneChain(office, ss[..n + 1], es[..n]);
      assert Step(office, ss[n], es[n], ss[n + 1]);
      match es[n]
      case Accept(id, messageId, event, duplicate) =>
        IssueExtendsTheChain(office, ss[n], issued, id, messageId, event, duplicate);
        issued := issued + [NextReceipt(office, ss[n], id, messageId, event, duplicate)];
      case Restart(found) =>
        RestartResumes(office, ss[n], issued, found);
    }
  }

  // ------------------------------------------------------------ receipts of other offices

  /**
   Storing another office's receipts can derail a restart: every restart resumes the office's own chain exactly
   when there is no foreign receipt, or the office has receipts of its own and the last of them outranks each
   foreign one and is not outranked by it.
   */
  lemma RestartAmongForeignReceipts(office: string, s: State, issued: seq<Receipt>, foreign: Store)
    requires Holds(office, s, issued) && s.stored.Keys !! foreign.Keys
    requires forall id :: id in foreign ==> foreign[id].office != office
    ensures (forall t :: Restarts(s.stored + foreign, t) ==> t.sequence == s.sequence && t.last == s.last)
       <==> foreign == map[] || (issued != [] && NoneOutranks(foreign, issued[|issued| - 1]))
  {
    var all := s.stored + foreign;
    if foreign == map[] {
      assert all == s.stored;
      forall t | Restarts(all, t) ensures t == s {
        RestartResumes(office, s, issued, t);
      }
    } else if issued != [] && NoneOutranks(foreign, issued[|issued| - 1]) {
      OwnIsStored(office, s, issued, foreign);
      hide Holds;
      forall t | Restarts(all, t) ensures t.sequence == s.sequence && t.last == s.last {
        var r :| IsLatest(all, r) && t.sequence == r.sequence && t.last == Some(DigestOf(r));
        LatestIsOwn(office, s, issued, foreign, r);
      }
    } else {
      var r := ForeignCanBeLatest(office, s, issued, foreign);
      hide Holds;
      var t := State(r.sequence, Some(DigestOf(r)), all);
      assert all != map[] && Restarts(all, t);
      assert t.last != s.last;
    }
  }

  predicate NoneOutranks(foreign: Store, own: Receipt) {
    forall id :: id in foreign ==> !Outranks(foreign[id], own)
  }

  lemma OwnIsStored(office: string, s: State, issued: seq<Receipt>, foreign: Store)
    requires Holds(office, s, issued) && issued != [] && s.stored.Keys !! foreign.Keys
    ensures var own := issued[|issued| - 1];
            && own.id in s.stored + foreign && (s.stored + foreign)[own.id] == own
            && own.sequence == s.sequence && own.office == office && s.last == Some(DigestOf(own))
            && forall id :: id in s.stored ==> Outranks(own, s.stored[id])
  {
    var own := issued[|issued| - 1];
    assert own in issued;
    OutranksIsTotal();
    forall id | id in s.stored ensures Outranks(own, s.stored[id]) {
      var i :| 0 <= i < |issued| && issued[i] == s.stored[id];
      assert Outranks(own, own);
    }
  }

  lemma ForeignCanBeLatest(office: string, s: State, issued: seq<Receipt>, foreign: Store) returns (r: Receipt)
    requires Holds(office, s, issued) && s.stored.Keys !! foreign.Keys && foreign != map[]
    requires forall id :: id in foreign ==> foreign[id].office != office
    requires issued == [] || !NoneOutranks(foreign, issued[|issued| - 1])
    ensures IsLatest(s.stored + foreign, r) && r.office != office
    ensures (exists id :: id in s.stored + foreign) && s.last != Some(DigestOf(r))
  {
    var all := s.stored + foreign;
    OutranksIsTotal();
    var best;
    if issued == [] {
      assert forall id :: id !in s.stored;
      best :| best in foreign;
    } else {
      OwnIsStored(office, s, issued, foreign);
      best :| best in foreign && Outranks(foreign[best], issued[|issued| - 1]);
    }
    r := ForeignLatest(all, foreign, best);
    var id :| id in foreign && foreign[id] == r;
    assert id in all;
  }

  lemma LatestIsOwn(office: string, s: State, issued: seq<Receipt>, foreign: Store, r: Receipt)
    requires Holds(office, s, issued) && issued != [] && s.stored.Keys !! foreign.Keys
    requires NoneOutranks(foreign, issued[|issued| - 1])
    requires IsLatest(s.stored + foreign, r)
    ensures r == issued[|issued| - 1]
  {
    var all, own := s.stored + foreign, issued[|issued| - 1];
    assert own in issued && own.id in all && all[own.id] == own;
    var id :| id in all && all[id] == r;
    assert Outranks(r, own);
    assert id !in foreign;
    assert r in issued;
  }

  /** With a foreign receipt that outranks all own ones, a foreign receipt can be the latest. */
  lemma ForeignLatest(all: Store, foreign: Store, start: string) returns (r: Receipt)
    requires start in foreign && forall id :: id in foreign ==> id in all && all[id] == foreign[id]
    requires forall id :: id in all && id !in foreign ==> Outranks(foreign[start], all[id])
    ensures IsLatest(all, r) && exists id :: id in foreign && foreign[id] == r
  {
    OutranksIsTotal();
    hide Outranks;
    var best, rest := start, foreign.Keys;
    assert Outranks(foreign[start], foreign[start]);
    while rest != {}
      invariant rest <= foreign.Keys
      invariant best in foreign && Outranks(foreign[best], foreign[start])
      invariant forall id :: id in foreign && id !in rest ==> Outranks(foreign[best], foreign[id])
      decreases rest
    {
      var id :| id in rest;
      if !Outranks(foreign[best], foreign[id]) {
        best := id;
      }
      rest := rest - {id};
    }
    r := foreign[best];
    assert all[best] == r;
  }

  // ------------------------------------------------------------ the office object

  class Office {
    const officeId: string
    var sequence: int
    var last: Option<Digest>
    var stored: Store

    ghost function View(): State
      reads this
    {
      State(sequence, last, stored)
    }

    /** A restart over a stored table: the latest receipt sets the counter and the digest. */
    constructor (officeId: string, table: Store)
      ensures this.officeId == officeId
      ensures Restarts(table, View())
    {
      this.officeId := officeId;
      stored := table;
      var highest, digest := 0, None;
      OutranksIsTotal();
      hide Outranks;
      if table != map[] {
        var best :| best in table;
        var rest := table.Keys;
        while rest != {}
          invariant rest <= table.Keys && best in table
          invariant forall id :: id in table && id !in rest ==> Outranks(table[best], table[id])
          decreases rest
        {
          var id :| id in rest;
          if !Outranks(table[best], table[id]) {
            best := id;
          }
          rest := rest - {id};
        }
        highest, digest := table[best].sequence, Some(DigestOf(table[best]));
        assert IsLatest(table, table[best]);
      }
      sequence, last := highest, digest;
    }

    /** Issues and stores one receipt; `id` is the random receipt id. */
    method IssueReceipt(id: string, messageId: string, event: string, duplicate: bool) returns (r: Receipt)
      modifies this
      ensures View() == Issue(officeId, old(View()), id, messageId, event, duplicate)
      ensures r == NextReceipt(officeId, old(View()), id, messageId, event, duplicate)
      ensures r.id == id && r.messageId == messageId && r.event == event && r.duplicate == duplicate
      ensures r.office == officeId && r.sequence == old(sequence) + 1 && r.previous == old(last)
      ensures sequence == r.sequence && last == Some(DigestOf(r)) && r.id in stored
    {
      sequence := sequence + 1;
      r := Receipt(id, messageId, officeId, event, sequence, duplicate, last);
      last := Some(DigestOf(r));
      if id !in stored {
        stored := stored[id := r];
      }
    }
  }
}
