/**
 Reconciliation of the stored proposals with the chain's list: update what both have, insert what is new, mark
 what the chain no longer lists.

 The proposer of a stored proposal is looked up again until its address and deposit are found.
 */
module ProposalSync {
  import opened LcdPages
  import opened Options

  datatype Status = DepositPeriod | VotingPeriod | Closed(name: string) | NotEnoughDeposit

  /** A proposal as the chain lists it; `body` stands for all its other fields, which may not convert to a document. */
  datatype Proposal = Proposal(id: nat, status: Status, body: string, convertible: bool)

  /** A stored document; its `_id` is its position in the collection. */
  datatype Doc = Doc(
    proposalId: nat, status: Status, body: string,
    proposerName: Option<string>, proposerAddress: Option<string>, initialDeposit: Option<string>)

  /** What `getProposerBySearchTx` finds; a null result finds nothing. */
  datatype Proposer = Proposer(name: Option<string>, address: Option<string>, deposit: Option<string>)

  type Lookup = nat -> Proposer

  type Answer = Option<Page<Proposal>>

  /** `update: proposal` sets the fields the object has and leaves the others. */
  datatype Op =
    | Update(at: nat, status: Status, body: string, name: Option<string>, address: Option<string>,
      deposit: Option<string>)
    | Insert(doc: Doc)

  function Or<T>(found: Option<T>, stored: Option<T>): Option<T> {
    if found.Some? then found else stored
  }

  function WithFields(d: Doc, op: Op): Doc
    requires op.Update?
  {
    Doc(d.proposalId, op.status, op.body, Or(op.name, d.proposerName), Or(op.address, d.proposerAddress),
        Or(op.deposit, d.initialDeposit))
  }

  function ApplyOp(db: seq<Doc>, op: Op): seq<Doc> {
    match op
    case Update(i, _, _, _, _, _) => if i < |db| then db[i := WithFields(db[i], op)] else db
    case Insert(doc) => db + [doc]
  }

  function ApplyOps(db: seq<Doc>, ops: seq<Op>): seq<Doc> {
    if ops == [] then db else ApplyOp(ApplyOps(db, ops[..|ops| - 1]), ops[|ops| - 1])
  }

  // ----- the result of one run -----

  predicate Lists(chain: seq<Proposal>, id: nat) {
    exists p :: p in chain && p.id == id
  }

  predicate DistinctChain(chain: seq<Proposal>) {
    forall i, j :: 0 <= i < j < |chain| ==> chain[i].id != chain[j].id
  }

  predicate OneDocEach(db: seq<Doc>) {
    forall i, j :: 0 <= i < j < |db| ==> db[i].proposalId != db[j].proposalId
  }

  function IndexOf(db: seq<Doc>, id: nat): (i: nat)
    ensures i <= |db|
    ensures i < |db| ==> db[i].proposalId == id
    ensures forall j :: 0 <= j < i ==> db[j].proposalId != id
  {
    if db == [] || db[0].proposalId == id then 0 else 1 + IndexOf(db[1..], id)
  }

  /** The proposer is looked up again while the address or the deposit is missing. */
  predicate NeedsProposer(d: Doc) {
    d.proposalId != 0 && (d.proposerAddress.None? || d.initialDeposit.None?)
  }

  function UpdateFor(d: Doc, at: nat, p: Proposal, lookup: Lookup): Op {
    if NeedsProposer(d) then
      var found := lookup(d.proposalId);
      Update(at, p.status, p.body, found.name, found.address, found.deposit)
    else Update(at, p.status, p.body, None, None, None)
  }

  function Merged(d: Doc, p: Proposal, lookup: Lookup): Doc {
    WithFields(d, UpdateFor(d, 0, p, lookup))
  }

  function NewDoc(p: Proposal): Doc {
    Doc(p.id, p.status, p.body, None, None, None)
  }

  /** A stored document after the proposals `chain` have been looked at. */
  function AfterChain(d: Doc, chain: seq<Proposal>, lookup: Lookup): Doc {
    if chain == [] then d
    else if chain[|chain| - 1].id == d.proposalId then Merged(d, chain[|chain| - 1], lookup)
    else AfterChain(d, chain[..|chain| - 1], lookup)
  }

  function Element(d: Doc, chain: seq<Proposal>, lookup: Lookup, mark: bool): Doc {
    if Lists(chain, d.proposalId) then AfterChain(d, chain, lookup)
    else if mark then d.(status := NotEnoughDeposit) else d
  }

  predicate IsNew(db: seq<Doc>, p: Proposal) {
    IndexOf(db, p.id) == |db| && p.convertible
  }

  function Inserted(db: seq<Doc>, chain: seq<Proposal>): seq<Doc> {
    if chain == [] then []
    else
      var p := chain[|chain| - 1];
      Inserted(db, chain[..|chain| - 1]) + if IsNew(db, p) then [NewDoc(p)] else []
  }

  /** The stored documents updated from `chain`, the unlisted ones below `marked` marked, then the new ones. */
  function Reconciled(db: seq<Doc>, chain: seq<Proposal>, lookup: Lookup, marked: nat): seq<Doc> {
    seq(|db|, i requires 0 <= i < |db| => Element(db[i], chain, lookup, i < marked)) + Inserted(db, chain)
  }

  // ----- the job -----

  class CrawlProposalService {
    var db: seq<Doc>

    constructor ()
      ensures db == []
    {
      db := [];
    }

    method FindIndex(docs: seq<Doc>, id: nat) returns (i: nat)
      ensures i == IndexOf(docs, id)
    {
      i := 0;
      while i < |docs| && docs[i].proposalId != id
        invariant i <= |docs|
        invariant IndexOf(docs, id) == i + IndexOf(docs[i..], id)
      {
        assert docs[i..][1..] == docs[i + 1..];
        i := i + 1;
      }
    }

    /** The operations for the proposals of the chain, and the positions of the documents they concern. */
    method UpdateListed(docs: seq<Doc>, chain: seq<Proposal>, lookup: Lookup)
      returns (listBulk: seq<Op>, listIndexDelete: set<nat>)
      requires DistinctChain(chain) && OneDocEach(docs)
      ensures ApplyOps(docs, listBulk) == Reconciled(docs, chain, lookup, 0)
      ensures forall i: nat :: i in listIndexDelete <==> i < |docs| && Lists(chain, docs[i].proposalId)
    {
      listBulk, listIndexDelete := [], {};
      assert Reconciled(docs, [], lookup, 0) == docs;
      for j := 0 to |chain|
        invariant ApplyOps(docs, listBulk) == Reconciled(docs, chain[..j], lookup, 0)
        invariant forall i: nat :: i in listIndexDelete <==> i < |docs| && Lists(chain[..j], docs[i].proposalId)
      {
        assert chain[..j + 1] == chain[..j] + [chain[j]];
        ListsOneMore(chain[..j], chain[j]);
        var ops, found := HandleProposal(docs, chain[j], lookup, chain[..j]);
        ApplyOpsConcat(docs, listBulk, ops);
        listBulk := listBulk + ops;
        listIndexDelete := listIndexDelete + found;
      }
      assert chain[..|chain|] == chain;
    }

    /** One proposal: an update of its document, or a new one; nothing when it does not convert. */
    method HandleProposal(docs: seq<Doc>, p: Proposal, lookup: Lookup, ghost before: seq<Proposal>)
      returns (ops: seq<Op>, found: set<nat>)
      requires OneDocEach(docs) && !Lists(before, p.id)
      ensures ApplyOps(Reconciled(docs, before, lookup, 0), ops) == Reconciled(docs, before + [p], lookup, 0)
      ensures forall i: nat :: i in found <==> i < |docs| && docs[i].proposalId == p.id
    {
      OneMoreProposal(docs, before, p, lookup);
      var i := FindIndex(docs, p.id);
      if i < |docs| {
        return [UpdateFor(docs[i], i, p, lookup)], {i};
      } else if p.convertible {
        return [Insert(NewDoc(p))], {};
      } else {
        return [], {};
      }
    }

    /** One run over the chain's complete list. */
    method Reconcile(chain: seq<Proposal>, lookup: Lookup)
      requires DistinctChain(chain) && OneDocEach(db)
      modifies this
      ensures db == Reconciled(old(db), chain, lookup, |old(db)|)
    {
      var listProposalInDB := db;
      var listBulk, listIndexDelete := UpdateListed(listProposalInDB, chain, lookup);
      listBulk := MarkUnlisted(listProposalInDB, chain, lookup, listBulk, listIndexDelete);
      BulkWrite(listBulk);
    }

    /** The operations that mark every document whose position was not deleted from the list. */
    method MarkUnlisted(docs: seq<Doc>, ghost chain: seq<Proposal>, ghost lookup: Lookup, ops: seq<Op>,
        deleted: set<nat>)
      returns (listBulk: seq<Op>)
      requires ApplyOps(docs, ops) == Reconciled(docs, chain, lookup, 0)
      requires forall i: nat :: i in deleted <==> i < |docs| && Lists(chain, docs[i].proposalId)
      ensures ApplyOps(docs, listBulk) == Reconciled(docs, chain, lookup, |docs|)
    {
      listBulk := ops;
      for i := 0 to |docs|
        invariant ApplyOps(docs, listBulk) == Reconciled(docs, chain, lookup, i)
      {
        OneMoreMark(docs, chain, lookup, i);
        if i !in deleted {
          var d := docs[i];
          var op := Update(i, NotEnoughDeposit, d.body, d.proposerName, d.proposerAddress, d.initialDeposit);
          OneMoreOp(docs, listBulk, op);
          MarkOne(ApplyOps(docs, listBulk), d, i);
          listBulk := listBulk + [op];
        }
      }
    }

    /** The job: a null answer makes it throw before anything is written; the lookups finish in any order. */
    method HandleJob(pages: seq<Answer>, lookup: Lookup, finish: seq<Proposal>) returns (ok: bool)
      requires Answers(pages) && DistinctChain(AllItems(pages)) && OneDocEach(db)
      requires multiset(finish) == multiset(AllItems(pages))
      modifies this
      ensures ok <==> Complete(pages)
      ensures db == if ok then Reconciled(old(db), finish, lookup, |old(db)|) else old(db)
    {
      var listProposal;
      ok, listProposal := FetchAll(pages);
      if ok {
        SameProposals(listProposal, finish);
        Reconcile(finish, lookup);
      }
    }

    method BulkWrite(ops: seq<Op>)
      modifies this
      ensures db == ApplyOps(old(db), ops)
    {
      for i := 0 to |ops|
        invariant db == ApplyOps(old(db), ops[..i])
      {
        assert ops[..i + 1][..i] == ops[..i];
        db := ApplyOp(db, ops[i]);
      }
      assert ops[..|ops|] == ops;
    }
  }

  lemma ListsOneMore(chain: seq<Proposal>, p: Proposal)
    ensures forall id :: Lists(chain + [p], id) <==> Lists(chain, id) || p.id == id
  {
  }

  lemma {:induction false} OneMoreProposal(docs: seq<Doc>, before: seq<Proposal>, p: Proposal, lookup: Lookup)
    requires OneDocEach(docs) && !Lists(before, p.id)
    ensures var i := IndexOf(docs, p.id);
            var ops := if i < |docs| then [UpdateFor(docs[i], i, p, lookup)]
                       else if p.convertible then [Insert(NewDoc(p))] else [];
            ApplyOps(Reconciled(docs, before, lookup, 0), ops) == Reconciled(docs, before + [p], lookup, 0)
  {
    var i := IndexOf(docs, p.id);
    var r := Reconciled(docs, before, lookup, 0);
    if i < |docs| {
      OneMoreStored(docs, before, p, lookup);
      OneOp(r, UpdateFor(docs[i], i, p, lookup));
    } else if p.convertible {
      OneMoreNew(docs, before, p, lookup);
      OneOp(r, Insert(NewDoc(p)));
    } else {
      OneMoreLost(docs, before, p, lookup);
    }
  }

  lemma {:induction false} OneMoreStored(docs: seq<Doc>, before: seq<Proposal>, p: Proposal, lookup: Lookup)
    requires OneDocEach(docs) && !Lists(before, p.id) && IndexOf(docs, p.id) < |docs|
    ensures var i := IndexOf(docs, p.id);
            ApplyOp(Reconciled(docs, before, lookup, 0), UpdateFor(docs[i], i, p, lookup)) ==
            Reconciled(docs, before + [p], lookup, 0)
  {
    var i, r := IndexOf(docs, p.id), Reconciled(docs, before, lookup, 0);
    ElementsOneMore(docs, before, p, lookup);
    InsertedOneMore(docs, before, p);
    SameButOne(r, Reconciled(docs, before + [p], lookup, 0), i, Merged(docs[i], p, lookup));
    UpdateOne(r, docs[i], i, p, lookup);
  }

  lemma InsertedOneMore(docs: seq<Doc>, before: seq<Proposal>, p: Proposal)
    ensures Inserted(docs, before + [p]) == Inserted(docs, before) + if IsNew(docs, p) then [NewDoc(p)] else []
  {
  }

  lemma {:induction false} OneMoreNew(docs: seq<Doc>, before: seq<Proposal>, p: Proposal, lookup: Lookup)
    requires OneDocEach(docs) && !Lists(before, p.id) && IsNew(docs, p)
    ensures Reconciled(docs, before, lookup, 0) + [NewDoc(p)] == Reconciled(docs, before + [p], lookup, 0)
  {
    ElementsOneMore(docs, before, p, lookup);
    InsertedOneMore(docs, before, p);
    SamePlusOne(Reconciled(docs, before, lookup, 0), Reconciled(docs, before + [p], lookup, 0),
                |docs|, Inserted(docs, before), NewDoc(p));
  }

  lemma {:induction false} OneMoreLost(docs: seq<Doc>, before: seq<Proposal>, p: Proposal, lookup: Lookup)
    requires OneDocEach(docs) && !Lists(before, p.id) && IndexOf(docs, p.id) == |docs| && !p.convertible
    ensures Reconciled(docs, before, lookup, 0) == Reconciled(docs, before + [p], lookup, 0)
  {
    ElementsOneMore(docs, before, p, lookup);
    InsertedOneMore(docs, before, p);
  }

  lemma SameButOne(r: seq<Doc>, r': seq<Doc>, i: nat, d: Doc)
    requires |r| == |r'| && i < |r| && r'[i] == d
    requires forall j :: 0 <= j < |r| && j != i ==> r'[j] == r[j]
    ensures r' == r[i := d]
  {
  }

  lemma SamePlusOne(r: seq<Doc>, r': seq<Doc>, n: nat, tail: seq<Doc>, d: Doc)
    requires n <= |r| && n <= |r'| && r[n..] == tail && r'[n..] == tail + [d]
    requires forall j :: 0 <= j < n ==> r'[j] == r[j]
    ensures r' == r + [d]
  {
  }

  lemma {:induction false} ElementsOneMore(docs: seq<Doc>, before: seq<Proposal>, p: Proposal, lookup: Lookup)
    requires OneDocEach(docs) && !Lists(before, p.id)
    ensures var i := IndexOf(docs, p.id);
            forall j :: 0 <= j < |docs| ==>
              && Element(docs[j], before + [p], lookup, false) ==
                   (if j == i then Merged(docs[j], p, lookup) else Element(docs[j], before, lookup, false))
              && (j == i ==> Element(docs[j], before, lookup, false) == docs[j])
  {
  }

  lemma {:induction false} UpdateOne(r: seq<Doc>, d: Doc, i: nat, p: Proposal, lookup: Lookup)
    requires i < |r| && r[i] == d
    ensures ApplyOp(r, UpdateFor(d, i, p, lookup)) == r[i := Merged(d, p, lookup)]
  {
  }

  lemma {:induction false} ApplyOpsConcat(docs: seq<Doc>, a: seq<Op>, b: seq<Op>)
    ensures ApplyOps(docs, a + b) == ApplyOps(ApplyOps(docs, a), b)
  {
    if b == [] {
      assert a + b == a;
    } else {
      assert (a + b)[..|a + b| - 1] == a + b[..|b| - 1];
      ApplyOpsConcat(docs, a, b[..|b| - 1]);
    }
  }

  lemma OneOp(db: seq<Doc>, op: Op)
    ensures ApplyOps(db, [op]) == ApplyOp(db, op)
  {
  }

  lemma OneMoreOp(docs: seq<Doc>, ops: seq<Op>, op: Op)
    ensures ApplyOps(docs, ops + [op]) == ApplyOp(ApplyOps(docs, ops), op)
  {
  }

  lemma MarkOne(r: seq<Doc>, d: Doc, i: nat)
    requires i < |r| && r[i] == d
    ensures ApplyOp(r, Update(i, NotEnoughDeposit, d.body, d.proposerName, d.proposerAddress, d.initialDeposit)) ==
            r[i := d.(status := NotEnoughDeposit)]
  {
  }

  lemma {:induction false} OneMoreMark(docs: seq<Doc>, chain: seq<Proposal>, lookup: Lookup, i: nat)
    requires i < |docs|
    ensures var r := Reconciled(docs, chain, lookup, i);
            (!Lists(chain, docs[i].proposalId) ==> r[i] == docs[i]) &&
            Reconciled(docs, chain, lookup, i + 1) ==
            if Lists(chain, docs[i].proposalId) then r else r[i := docs[i].(status := NotEnoughDeposit)]
  {
  }

  // ----- what one run promises -----

  lemma {:induction false} ListedIsMerged(d: Doc, chain: seq<Proposal>, lookup: Lookup, p: Proposal)
    requires DistinctChain(chain) && p in chain && p.id == d.proposalId
    ensures AfterChain(d, chain, lookup) == Merged(d, p, lookup)
  {
    var n := |chain| - 1;
    if chain[n] != p {
      var k :| 0 <= k < |chain| && chain[k] == p;
      assert chain[k].id != chain[n].id;
      assert chain[..n][k] == p;
      ListedIsMerged(d, chain[..n], lookup, p);
    }
  }

  lemma {:induction false} InsertedAre(db: seq<Doc>, chain: seq<Proposal>)
    requires DistinctChain(chain)
    ensures forall d :: d in Inserted(db, chain) <==> exists p :: p in chain && IsNew(db, p) && d == NewDoc(p)
    ensures OneDocEach(Inserted(db, chain))
  {
    if chain != [] {
      var before, last := chain[..|chain| - 1], chain[|chain| - 1];
      assert chain == before + [last];
      InsertedAre(db, before);
      forall d | d in Inserted(db, before)
        ensures d.proposalId != last.id
      {
        var p :| p in before && IsNew(db, p) && d == NewDoc(p);
        var k :| 0 <= k < |before| && before[k] == p;
        assert chain[k].id != chain[|chain| - 1].id;
      }
    }
  }

  /** One document per proposal id, before and after. */
  lemma {:induction false} KeepsOneDocEach(db: seq<Doc>, chain: seq<Proposal>, lookup: Lookup)
    requires DistinctChain(chain) && OneDocEach(db)
    ensures OneDocEach(Reconciled(db, chain, lookup, |db|))
  {
    var r := Reconciled(db, chain, lookup, |db|);
    InsertedAre(db, chain);
    forall i | 0 <= i < |db|
      ensures r[i].proposalId == db[i].proposalId
    {
      KeepsId(db[i], chain, lookup);
    }
    forall i, j | 0 <= i < j < |r|
      ensures r[i].proposalId != r[j].proposalId
    {
      if j >= |db| {
        assert r[j] == Inserted(db, chain)[j - |db|];
        if i >= |db| {
          assert r[i] == Inserted(db, chain)[i - |db|];
        } else {
          assert r[j] in Inserted(db, chain);
          var p :| p in chain && IsNew(db, p) && r[j] == NewDoc(p);
        }
      }
    }
  }

  lemma {:induction false} KeepsId(d: Doc, chain: seq<Proposal>, lookup: Lookup)
    ensures AfterChain(d, chain, lookup).proposalId == d.proposalId
  {
    if chain != [] { KeepsId(d, chain[..|chain| - 1], lookup); }
  }

  ghost predicate StoredAs(db: seq<Doc>, p: Proposal) {
    exists d :: d in db && d.proposalId == p.id && d.status == p.status && d.body == p.body
  }

  /** A chain proposal is stored with its chain fields, unless it is new and does not convert. */
  lemma {:induction false} ListedAreStored(db: seq<Doc>, chain: seq<Proposal>, lookup: Lookup, p: Proposal)
    requires DistinctChain(chain) && OneDocEach(db) && p in chain
    ensures StoredAs(Reconciled(db, chain, lookup, |db|), p) <==> p.convertible || IndexOf(db, p.id) < |db|
  {
    var i, r := IndexOf(db, p.id), Reconciled(db, chain, lookup, |db|);
    InsertedAre(db, chain);
    if i < |db| {
      ListedIsMerged(db[i], chain, lookup, p);
      assert r[i] == Merged(db[i], p, lookup) && r[i] in r;
    } else if p.convertible {
      assert NewDoc(p) in Inserted(db, chain);
      assert NewDoc(p) in r;
    } else {
      NotStored(db, chain, lookup, p);
    }
  }

  lemma {:induction false} NotStored(db: seq<Doc>, chain: seq<Proposal>, lookup: Lookup, p: Proposal)
    requires DistinctChain(chain) && p in chain && IndexOf(db, p.id) == |db| && !p.convertible
    ensures forall d :: d in Reconciled(db, chain, lookup, |db|) ==> d.proposalId != p.id
  {
    var r := Reconciled(db, chain, lookup, |db|);
    InsertedAre(db, chain);
    forall i | 0 <= i < |r|
      ensures r[i].proposalId != p.id
    {
      if i < |db| {
        KeepsId(db[i], chain, lookup);
      } else {
        assert r[i] == Inserted(db, chain)[i - |db|] && r[i] in Inserted(db, chain);
        var q :| q in chain && IsNew(db, q) && r[i] == NewDoc(q);
        if q.id == p.id { SameId(chain, p, q); }
      }
    }
  }

  lemma SameId(chain: seq<Proposal>, p: Proposal, q: Proposal)
    requires DistinctChain(chain) && p in chain && q in chain && p.id == q.id
    ensures p == q
  {
  }

  // ----- the order in which the lookups finish -----

  lemma SameProposals(a: seq<Proposal>, b: seq<Proposal>)
    requires multiset(a) == multiset(b) && DistinctChain(a)
    ensures DistinctChain(b)
    ensures forall p :: p in a <==> p in b
  {
    assert forall p :: p in a <==> p in multiset(a);
    assert forall p :: p in b <==> p in multiset(b);
    forall i, j | 0 <= i < j < |b|
      ensures b[i].id != b[j].id
    {
      if b[i].id == b[j].id {
        assert b[i] in a && b[j] in a;
        SameId(a, b[i], b[j]);
        Twice(b, i, j);
        Once(a, b[i]);
        assert false;
      }
    }
  }

  lemma Twice(b: seq<Proposal>, i: nat, j: nat)
    requires i < j < |b| && b[i] == b[j]
    ensures multiset(b)[b[i]] >= 2
  {
    assert b == b[..j] + b[j..];
    assert b[i] in b[..j] && b[j..] == [b[j]] + b[j + 1..];
  }

  lemma {:induction false} Once(a: seq<Proposal>, p: Proposal)
    requires DistinctChain(a)
    ensures multiset(a)[p] <= 1
  {
    if a != [] {
      var before, last := a[..|a| - 1], a[|a| - 1];
      assert a == before + [last];
      Once(before, p);
      if last == p {
        assert forall i :: 0 <= i < |before| ==> before[i].id != p.id;
        assert p !in before;
      }
    }
  }

  /** The order changes no stored document, and no more than the order of the new ones. */
  lemma {:induction false} FinishOrder(db: seq<Doc>, a: seq<Proposal>, b: seq<Proposal>, lookup: Lookup)
    requires multiset(a) == multiset(b) && DistinctChain(a)
    ensures var r, q := Reconciled(db, a, lookup, |db|), Reconciled(db, b, lookup, |db|);
            r[..|db|] == q[..|db|] && forall d :: d in r[|db|..] <==> d in q[|db|..]
  {
    SameProposals(a, b);
    InsertedAre(db, a);
    InsertedAre(db, b);
    var r, q := Reconciled(db, a, lookup, |db|), Reconciled(db, b, lookup, |db|);
    assert r[|db|..] == Inserted(db, a) && q[|db|..] == Inserted(db, b);
    forall i | 0 <= i < |db|
      ensures r[i] == q[i]
    {
      if Lists(a, db[i].proposalId) {
        var p :| p in a && p.id == db[i].proposalId;
        ListedIsMerged(db[i], a, lookup, p);
        ListedIsMerged(db[i], b, lookup, p);
      }
    }
  }

  /**
   A document that was stored before: if the chain lists its proposal it has the chain's status, else it is marked
   and otherwise untouched; and a proposer field once found stays found.
   */
  lemma {:induction false} StoredAfterRun(db: seq<Doc>, chain: seq<Proposal>, lookup: Lookup, i: nat)
    requires DistinctChain(chain) && OneDocEach(db) && i < |db|
    ensures var d := Reconciled(db, chain, lookup, |db|)[i];
            && d.proposalId == db[i].proposalId
            && (Lists(chain, d.proposalId) ==> exists p :: p in chain && p.id == d.proposalId && d.status == p.status)
            && (!Lists(chain, d.proposalId) ==> d == db[i].(status := NotEnoughDeposit))
            && (db[i].proposerName.Some? ==> d.proposerName.Some?)
            && (db[i].proposerAddress.Some? ==> d.proposerAddress.Some?)
            && (db[i].initialDeposit.Some? ==> d.initialDeposit.Some?)
            && (!NeedsProposer(db[i]) ==>
               d.proposerName == db[i].proposerName && d.proposerAddress == db[i].proposerAddress
                                          && d.initialDeposit == db[i].initialDeposit)
  {
    KeepsId(db[i], chain, lookup);
    if Lists(chain, db[i].proposalId) {
      var p :| p in chain && p.id == db[i].proposalId;
      ListedIsMerged(db[i], chain, lookup, p);
    }
  }

  /**
   A stored document whose proposal is listed: status and content are the chain's; name, address and deposit are what
   the lookup finds of each, asked only while the address or the deposit is missing, and else what was stored.
   */
  lemma {:induction false} ListedFields(db: seq<Doc>, chain: seq<Proposal>, lookup: Lookup, i: nat, p: Proposal)
    requires DistinctChain(chain) && i < |db| && p in chain && p.id == db[i].proposalId
    ensures var d, found := Reconciled(db, chain, lookup, |db|)[i], lookup(p.id);
            var asked := p.id != 0 && (db[i].proposerAddress == None || db[i].initialDeposit == None);
            && d.proposalId == p.id && d.status == p.status && d.body == p.body
            && d.proposerName == (if asked && found.name.Some? then found.name else db[i].proposerName)
            && d.proposerAddress == (if asked && found.address.Some? then found.address else db[i].proposerAddress)
            && d.initialDeposit == (if asked && found.deposit.Some? then found.deposit else db[i].initialDeposit)
  {
    ListedIsMerged(db[i], chain, lookup, p);
  }

  /** Behind the stored documents stand those of the listed proposals that convert and had none, without a proposer. */
  lemma {:induction false} NewAre(db: seq<Doc>, chain: seq<Proposal>, lookup: Lookup, d: Doc)
    requires DistinctChain(chain)
    ensures d in Reconciled(db, chain, lookup, |db|)[|db|..] <==>
            exists p :: p in chain && p.convertible && (forall i :: 0 <= i < |db| ==> db[i].proposalId != p.id)
                        && d == Doc(p.id, p.status, p.body, None, None, None)
  {
    InsertedAre(db, chain);
    assert Reconciled(db, chain, lookup, |db|)[|db|..] == Inserted(db, chain);
  }

  // ----- all runs -----

  datatype Input = Input(chain: seq<Proposal>, lookup: Lookup)

  ghost function AfterRuns(db: seq<Doc>, inputs: seq<Input>): seq<Doc> {
    if inputs == [] then db
    else
      var before, last := AfterRuns(db, inputs[..|inputs| - 1]), inputs[|inputs| - 1];
      Reconciled(before, last.chain, last.lookup, |before|)
  }

  ghost predicate DistinctChains(inputs: seq<Input>) {
    forall x :: x in inputs ==> DistinctChain(x.chain)
  }

  lemma {:induction false} AlwaysOneDocEach(db: seq<Doc>, inputs: seq<Input>)
    requires OneDocEach(db) && DistinctChains(inputs)
    ensures OneDocEach(AfterRuns(db, inputs)) && |db| <= |AfterRuns(db, inputs)|
  {
    if inputs != [] {
      var before, last := AfterRuns(db, inputs[..|inputs| - 1]), inputs[|inputs| - 1];
      AlwaysOneDocEach(db, inputs[..|inputs| - 1]);
      assert last in inputs;
      KeepsOneDocEach(before, last.chain, last.lookup);
    }
  }

  /** What was found of a proposer is still there, and is the very same once the address and the deposit were found. */
  predicate KeepsProposer(d: Doc, later: Doc) {
    && later.proposalId == d.proposalId
    && (d.proposerName.Some? ==> later.proposerName.Some?)
    && (d.proposerAddress.Some? ==> later.proposerAddress.Some?)
    && (d.initialDeposit.Some? ==> later.initialDeposit.Some?)
    && (!NeedsProposer(d) ==>
          !NeedsProposer(later) && later.proposerName == d.proposerName
          && later.proposerAddress == d.proposerAddress && later.initialDeposit == d.initialDeposit)
  }

  /** Over any number of runs no document goes away, changes its proposal or loses a proposer field. */
  lemma {:induction false} ProposersStay(db: seq<Doc>, inputs: seq<Input>, i: nat)
    requires OneDocEach(db) && DistinctChains(inputs) && i < |db|
    ensures i < |AfterRuns(db, inputs)| && KeepsProposer(db[i], AfterRuns(db, inputs)[i])
  {
    AlwaysOneDocEach(db, inputs);
    if inputs != [] {
      var before, last := AfterRuns(db, inputs[..|inputs| - 1]), inputs[|inputs| - 1];
      AlwaysOneDocEach(db, inputs[..|inputs| - 1]);
      ProposersStay(db, inputs[..|inputs| - 1], i);
      assert last in inputs;
      StoredAfterRun(before, last.chain, last.lookup, i);
    }
  }

  /** After a run a document is marked exactly when the chain's list lacks its proposal. */
  lemma {:induction false} MarkedIffUnlisted(db: seq<Doc>, chain: seq<Proposal>, lookup: Lookup, d: Doc)
    requires DistinctChain(chain) && OneDocEach(db) && d in Reconciled(db, chain, lookup, |db|)
    requires forall p :: p in chain ==> p.status != NotEnoughDeposit
    ensures d.status == NotEnoughDeposit <==> !Lists(chain, d.proposalId)
  {
    var r := Reconciled(db, chain, lookup, |db|);
    var i :| 0 <= i < |r| && r[i] == d;
    if i < |db| {
      StoredAfterRun(db, chain, lookup, i);
    } else {
      InsertedAre(db, chain);
      assert d == Inserted(db, chain)[i - |db|];
      assert d in Inserted(db, chain);
      var p :| p in chain && IsNew(db, p) && d == NewDoc(p);
    }
  }

  /** After any runs: one document per id, and exactly the proposals the last list lacks are marked. */
  lemma {:induction false} EveryRun(inputs: seq<Input>, d: Doc)
    requires inputs != [] && DistinctChains(inputs)
    requires forall p :: p in inputs[|inputs| - 1].chain ==> p.status != NotEnoughDeposit
    requires d in AfterRuns([], inputs)
    ensures OneDocEach(AfterRuns([], inputs))
    ensures d.status == NotEnoughDeposit <==> !Lists(inputs[|inputs| - 1].chain, d.proposalId)
  {
    var last := inputs[|inputs| - 1];
    AlwaysOneDocEach([], inputs);
    AlwaysOneDocEach([], inputs[..|inputs| - 1]);
    assert last in inputs;
    MarkedIffUnlisted(AfterRuns([], inputs[..|inputs| - 1]), last.chain, last.lookup, d);
  }
}
