/**
 The three fee-grant services over the two collections they share: history intake, the cron job that links
 history records to grants, and the ledger job.
 */
module FeegrantServices {
  import opened Options
  import opened FeegrantLedger

  const FORWARD_LIMIT := 2000

  datatype ChainAction = NewGrant | UseFee | UseUpFee | RevokeGrant | NewGrantWithFee | RevokeWithFee

  /** One element of `feegrantList`, as the transaction handler reports it. */
  datatype Activity = Activity(
    action: ChainAction, payer: Address, granter: Address, grantee: Address, result: bool,
    timestamp: int, amount: Money, spendLimit: Money, txHash: TxHash, expiration: Option<int>)

  // ----- intake: what the history and the ledger receive -----

  predicate Creates(d: Activity) {
    d.action == NewGrant || d.action == NewGrantWithFee
  }

  function InitialStatus(d: Activity): Status {
    if d.result then Available else Fail
  }

  function GrantOf(d: Activity): Grant {
    Grant(d.granter, d.grantee, d.timestamp, d.result, d.spendLimit, d.spendLimit,
          InitialStatus(d), d.expiration, false, None)
  }

  function CreateRecord(d: Activity): Record {
    Record(0, d.txHash, Some(d.txHash), d.granter, d.grantee, d.timestamp, d.result, Create, InitialStatus(d),
      d.spendLimit)
  }

  function FeeRecord(d: Activity, grantee: Address, result: bool, status: Status): Record {
    Record(0, d.txHash, None, d.payer, grantee, d.timestamp, result, Use, status, d.amount)
  }

  function RevokeRecord(d: Activity, granter: Address, status: Status): Record {
    Record(0, d.txHash, None, granter, d.grantee, d.timestamp, d.result, Revoke, status, d.amount)
  }

  /** The one or two history records of a chain action. */
  function RecordsOf(d: Activity): seq<Record> {
    match d.action
    case NewGrant => [CreateRecord(d)]
    case UseFee => [FeeRecord(d, d.grantee, d.result, Available)]
    case UseUpFee => [FeeRecord(d, d.grantee, d.result, UseUp), RevokeRecord(d, d.payer, UseUp)]
    case RevokeGrant => [RevokeRecord(d, d.granter, Revoked)]
    case RevokeWithFee => [RevokeRecord(d, d.granter, Revoked), FeeRecord(d, d.granter, true, Available)]
    case NewGrantWithFee => [CreateRecord(d), FeeRecord(d, d.granter, true, Available)]
  }

  function Drafts(list: seq<Activity>): seq<Record> {
    if list == [] then [] else Drafts(list[..|list| - 1]) + RecordsOf(list[|list| - 1])
  }

  /** The unique index of the history collection: transaction, action and status. */
  predicate SameKey(e: Record, f: Record) {
    e.txHash == f.txHash && e.action == f.action && e.status == f.status
  }

  predicate Refused(records: seq<Record>, e: Record) {
    exists r :: r in records && SameKey(r, e)
  }

  predicate UniqueKeys(records: seq<Record>) {
    forall i, j :: 0 <= i < j < |records| ==> !SameKey(records[i], records[j])
  }

  /** The drafts that the index lets in, one insert after the other; a refused one does not keep the next ones out. */
  function Accepted(history: seq<Record>, drafts: seq<Record>): seq<Record> {
    if drafts == [] then []
    else
      var before, e := Accepted(history, drafts[..|drafts| - 1]), drafts[|drafts| - 1];
      if Refused(history + before, e) then before else before + [e]
  }

  /** Every inserted draft gets the next free `_id`. */
  function Numbered(drafts: seq<Record>, next: nat): (r: seq<Record>)
    ensures |r| == |drafts|
  {
    seq(|drafts|, i requires 0 <= i < |drafts| => drafts[i].(id := next + i))
  }

  function WithNewGrants(grants: Grants, list: seq<Activity>): Grants {
    if list == [] then grants
    else
      var d, before := list[|list| - 1], WithNewGrants(grants, list[..|list| - 1]);
      if Creates(d) then before[d.txHash := GrantOf(d)] else before
  }

  /** One grant per transaction hash, and none that is already stored. */
  predicate FreshHashes(grants: Grants, list: seq<Activity>) {
    && (forall d :: d in list && Creates(d) ==> d.txHash !in grants)
    && (forall i, j :: 0 <= i < j < |list| && Creates(list[i]) && Creates(list[j]) ==> list[i].txHash != list[j].txHash)
  }

  /** What can be counted on a (granter, grantee) pair: fees, their number, grants ended in one way, grants made. */
  datatype Measure = Fees | Payments | Endings(status: Status) | Creations

  predicate PaysFee(d: Activity, granter: Address, grantee: Address) {
    var spender := if d.action == NewGrantWithFee || d.action == RevokeWithFee then d.granter else d.grantee;
    d.action != NewGrant && d.action != RevokeGrant && d.payer == granter && spender == grantee
  }

  /** What an activity means for a pair, read off the chain action alone. */
  function ChainCount(d: Activity, m: Measure, granter: Address, grantee: Address): int {
    match m
    case Fees => if PaysFee(d, granter, grantee) && d.amount.Coin? then d.amount.figure else 0
    case Payments => if PaysFee(d, granter, grantee) then 1 else 0
    case Endings(status) =>
      if d.grantee != grantee then 0
      else if d.action == UseUpFee then if d.payer == granter && status == UseUp then 1 else 0
      else if d.action == RevokeGrant || d.action == RevokeWithFee then
        if d.granter == granter && status == Revoked then 1 else 0
      else 0
    case Creations => if Creates(d) && d.granter == granter && d.grantee == grantee then 1 else 0
  }

  function ChainTotal(list: seq<Activity>, m: Measure, granter: Address, grantee: Address): int {
    if list == [] then 0
    else ChainTotal(list[..|list| - 1], m, granter, grantee) + ChainCount(list[|list| - 1], m, granter, grantee)
  }

  function RecordCount(e: Record, m: Measure, granter: Address, grantee: Address): int {
    if e.granter != granter || e.grantee != grantee then 0
    else
      match m
      case Fees => if e.action == Use && e.amount.Coin? then e.amount.figure else 0
      case Payments => if e.action == Use then 1 else 0
      case Endings(status) => if e.action == Revoke && e.status == status then 1 else 0
      case Creations => if e.action == Create then 1 else 0
  }

  function RecordTotal(records: seq<Record>, m: Measure, granter: Address, grantee: Address): int {
    if records == [] then 0
    else RecordTotal(records[..|records| - 1], m, granter, grantee)
         + RecordCount(records[|records| - 1], m, granter, grantee)
  }

  lemma {:induction false} RecordTotalConcat(a: seq<Record>, b: seq<Record>, m: Measure, granter: Address,
      grantee: Address)
    ensures RecordTotal(a + b, m, granter, grantee) ==
            RecordTotal(a, m, granter, grantee) + RecordTotal(b, m, granter, grantee)
  {
    if b == [] {
      assert a + b == a;
    } else {
      assert (a + b)[..|a + b| - 1] == a + b[..|b| - 1];
      RecordTotalConcat(a, b[..|b| - 1], m, granter, grantee);
    }
  }

  lemma OneActivity(d: Activity, m: Measure, granter: Address, grantee: Address)
    ensures RecordTotal(RecordsOf(d), m, granter, grantee) == ChainCount(d, m, granter, grantee)
  {
    var r := RecordsOf(d);
    if |r| == 1 {
      assert r == [] + [r[0]];
    } else {
      assert r[..1] == [] + [r[0]];
    }
    assert RecordTotal(r[..|r| - 1], m, granter, grantee) ==
           if |r| == 2 then RecordCount(r[0], m, granter, grantee) else 0;
  }

  /** Every fee reported, every ending and every creation is drafted once, on the pair it concerns. */
  lemma {:induction false} DraftsKeepCounts(list: seq<Activity>, m: Measure, granter: Address, grantee: Address)
    ensures RecordTotal(Drafts(list), m, granter, grantee) == ChainTotal(list, m, granter, grantee)
  {
    if list != [] {
      var d, before := list[|list| - 1], Drafts(list[..|list| - 1]);
      DraftsKeepCounts(list[..|list| - 1], m, granter, grantee);
      RecordTotalConcat(before, RecordsOf(d), m, granter, grantee);
      OneActivity(d, m, granter, grantee);
    }
  }

  // ----- what the unique index keeps out -----

  lemma RefusedConcat(a: seq<Record>, b: seq<Record>, e: Record)
    ensures Refused(a + b, e) <==> Refused(a, e) || Refused(b, e)
  {
  }

  lemma {:induction false} AcceptedAre(history: seq<Record>, drafts: seq<Record>)
    ensures forall e :: e in Accepted(history, drafts) ==> e in drafts && !Refused(history, e)
    ensures forall e :: e in drafts ==> Refused(history + Accepted(history, drafts), e)
    ensures UniqueKeys(Accepted(history, drafts))
  {
    if drafts != [] {
      var e, before := drafts[|drafts| - 1], drafts[..|drafts| - 1];
      assert drafts == before + [e];
      AcceptedAre(history, before);
      RefusedConcat(history, Accepted(history, before), e);
      forall d | d in drafts
        ensures Refused(history + Accepted(history, drafts), d)
      {
        AcceptedGrows(history, before, e, d);
      }
    }
  }

  lemma AcceptedGrows(history: seq<Record>, before: seq<Record>, e: Record, d: Record)
    requires Refused(history + Accepted(history, before), d) || d == e
    ensures Refused(history + Accepted(history, before + [e]), d)
  {
    var was := Accepted(history, before);
    assert (before + [e])[..|before|] == before;
    assert SameKey(e, e);
    RefusedConcat(history, was, d);
    RefusedConcat(history, was + [e], d);
    RefusedConcat(was, [e], d);
  }

  /** No stored record and no earlier draft is of the same transaction, action and status. */
  predicate FirstOfKey(history: seq<Record>, drafts: seq<Record>, i: nat)
    requires i < |drafts|
  {
    var e := drafts[i];
    && (forall r :: r in history ==> r.txHash != e.txHash || r.action != e.action || r.status != e.status)
    && (forall j :: 0 <= j < i ==>
          drafts[j].txHash != e.txHash || drafts[j].action != e.action || drafts[j].status != e.status)
  }

  function Firsts(history: seq<Record>, drafts: seq<Record>, n: nat): set<nat>
    requires n <= |drafts|
  {
    set i: nat | i < n && FirstOfKey(history, drafts, i)
  }

  lemma FirstsPrefix(history: seq<Record>, drafts: seq<Record>, m: nat, n: nat)
    requires n <= m <= |drafts|
    ensures Firsts(history, drafts[..m], n) == Firsts(history, drafts, n)
    ensures n < m ==> (FirstOfKey(history, drafts[..m], n) <==> FirstOfKey(history, drafts, n))
  {
  }

  lemma FirstsNext(history: seq<Record>, drafts: seq<Record>, n: nat)
    requires n < |drafts|
    ensures Firsts(history, drafts, n + 1) ==
            if FirstOfKey(history, drafts, n) then Firsts(history, drafts, n) + {n} else Firsts(history, drafts, n)
  {
  }

  lemma FirstIffLetIn(history: seq<Record>, drafts: seq<Record>)
    requires drafts != []
    ensures var n := |drafts| - 1;
            FirstOfKey(history, drafts, n) <==> !Refused(history + Accepted(history, drafts[..n]), drafts[n])
  {
    var n := |drafts| - 1;
    var before, e := drafts[..n], drafts[n];
    AcceptedAre(history, before);
    RefusedConcat(history, Accepted(history, before), e);
    if j :| 0 <= j < n && SameKey(drafts[j], e) {
      assert before[j] in before && Refused(history + Accepted(history, before), before[j]);
      var r :| r in history + Accepted(history, before) && SameKey(r, before[j]);
      assert SameKey(r, e);
    }
  }

  lemma {:induction false} LetInCount(history: seq<Record>, drafts: seq<Record>)
    ensures |Accepted(history, drafts)| == |Firsts(history, drafts, |drafts|)|
  {
    if drafts != [] {
      var n := |drafts| - 1;
      LetInCount(history, drafts[..n]);
      FirstIffLetIn(history, drafts);
      FirstsPrefix(history, drafts, n, n);
      FirstsNext(history, drafts, n);
    }
  }

  /** The index lets in the first draft of every new key, behind the first drafts in front of it. */
  lemma {:induction false} LetInAt(history: seq<Record>, drafts: seq<Record>, i: nat)
    requires i < |drafts| && FirstOfKey(history, drafts, i)
    ensures |Firsts(history, drafts, i)| < |Accepted(history, drafts)|
    ensures Accepted(history, drafts)[|Firsts(history, drafts, i)|] == drafts[i]
  {
    var n := |drafts| - 1;
    FirstsPrefix(history, drafts, n, i);
    FirstIffLetIn(history, drafts);
    if i < n {
      LetInAt(history, drafts[..n], i);
    } else {
      LetInCount(history, drafts[..n]);
      FirstsPrefix(history, drafts, n, n);
    }
  }

  /** No draft repeats the key of a stored record or of another draft. */
  predicate NoCollision(history: seq<Record>, drafts: seq<Record>) {
    (forall e :: e in drafts ==> !Refused(history, e)) && UniqueKeys(drafts)
  }

  lemma {:induction false} AcceptedAll(history: seq<Record>, drafts: seq<Record>)
    requires NoCollision(history, drafts)
    ensures Accepted(history, drafts) == drafts
  {
    if drafts != [] {
      var e, before := drafts[|drafts| - 1], drafts[..|drafts| - 1];
      assert drafts == before + [e];
      AcceptedAll(history, before);
      RefusedConcat(history, before, e);
      assert !Refused(before, e);
    }
  }

  function MeasureOf(e: Record): Measure {
    match e.action
    case Create => Creations
    case Use => Payments
    case Revoke => Endings(e.status)
  }

  lemma {:induction false} AcceptedAtMost(history: seq<Record>, drafts: seq<Record>, m: Measure, granter: Address,
      grantee: Address)
    requires !m.Fees?
    ensures RecordTotal(Accepted(history, drafts), m, granter, grantee) <= RecordTotal(drafts, m, granter, grantee)
  {
    if drafts != [] {
      var e, before := drafts[|drafts| - 1], drafts[..|drafts| - 1];
      AcceptedAtMost(history, before, m, granter, grantee);
      var was := Accepted(history, before);
      assert (was + [e])[..|was|] == was;
    }
  }

  /** A refused draft is missing from the count it belongs to. */
  lemma {:induction false} RefusedIsMissed(history: seq<Record>, drafts: seq<Record>)
    returns (m: Measure, granter: Address, grantee: Address)
    requires !NoCollision(history, drafts)
    ensures RecordTotal(Accepted(history, drafts), m, granter, grantee) < RecordTotal(drafts, m, granter, grantee)
    ensures !m.Fees?
  {
    var e, before := drafts[|drafts| - 1], drafts[..|drafts| - 1];
    var was := Accepted(history, before);
    assert drafts == before + [e];
    if Refused(history + was, e) {
      m, granter, grantee := MeasureOf(e), e.granter, e.grantee;
      AcceptedAtMost(history, before, m, granter, grantee);
    } else {
      if NoCollision(history, before) { StillFree(history, before, e); }
      m, granter, grantee := RefusedIsMissed(history, before);
      assert (was + [e])[..|was|] == was;
    }
  }

  lemma OneMoreKey(before: seq<Record>, e: Record)
    requires UniqueKeys(before) && !Refused(before, e)
    ensures UniqueKeys(before + [e])
  {
  }

  lemma StillFree(history: seq<Record>, before: seq<Record>, e: Record)
    requires NoCollision(history, before)
    requires !Refused(history + Accepted(history, before), e)
    ensures NoCollision(history, before + [e])
  {
    AcceptedAll(history, before);
    RefusedConcat(history, before, e);
    OneMoreKey(before, e);
  }

  ghost predicate CountsKept(history: seq<Record>, list: seq<Activity>) {
    forall m, granter, grantee ::
      RecordTotal(Accepted(history, Drafts(list)), m, granter, grantee) == ChainTotal(list, m, granter, grantee)
  }

  /**
   Fees, payments, endings and creations enter the history exactly as often as they are reported, if and only if no
   two of the records share their transaction, action and status.
   */
  lemma IntakeKeepsCounts(history: seq<Record>, list: seq<Activity>)
    ensures CountsKept(history, list) <==> NoCollision(history, Drafts(list))
  {
    forall m, granter, grantee
      ensures RecordTotal(Drafts(list), m, granter, grantee) == ChainTotal(list, m, granter, grantee)
    {
      DraftsKeepCounts(list, m, granter, grantee);
    }
    if NoCollision(history, Drafts(list)) {
      AcceptedAll(history, Drafts(list));
    } else {
      var m, granter, grantee := RefusedIsMissed(history, Drafts(list));
    }
  }

  /** A transaction of two messages reports its fee twice; the history records it once. */
  lemma TwoMessagesOneFee(d: Activity)
    requires d.action == UseFee
    ensures Accepted([], Drafts([d, d])) == RecordsOf(d)
    ensures !CountsKept([], [d, d])
  {
    assert [d, d][..1] == [d] && [d][..0] == [];
    assert Drafts([d]) == [] + RecordsOf(d) == RecordsOf(d);
    assert Drafts([d, d]) == RecordsOf(d) + RecordsOf(d);
    var e := RecordsOf(d)[0];
    assert RecordsOf(d) == [e] && SameKey(e, e);
    assert [e, e][..1] == [e] && [e][..0] == [] && [] + [e] == [e];
    assert Accepted([], [e]) == [e];
    assert e in [] + [e];
    assert SameKey(Drafts([d, d])[0], Drafts([d, d])[1]);
    IntakeKeepsCounts([], [d, d]);
  }

  /** The grant is the reported one, untouched: all of its limit is left, and it is available if it succeeded. */
  predicate AsReported(g: Grant, d: Activity) {
    && g.granter == d.granter && g.grantee == d.grantee && g.timestamp == d.timestamp && g.result == d.result
    && g.spendLimit == d.spendLimit && g.amount == g.spendLimit && g.expiration == d.expiration
    && (g.status == Available <==> d.result) && (g.status == Fail <==> !d.result)
    && !g.expired && g.revokeTx.None?
  }

  /**
   Every record is of its activity's transaction and time; only creations are linked from the start, to themselves. A
   record has its activity's outcome, except that the fee of a grant or a revocation counts as paid in any case. Only
   the two records of a use-up have its status.
   */
  lemma DraftsAsReported(d: Activity, i: nat)
    requires i < |RecordsOf(d)|
    ensures var e := RecordsOf(d)[i];
            && e.txHash == d.txHash && e.timestamp == d.timestamp
            && e.origin == (if e.action == Create then Some(d.txHash) else None)
            && (e.result <==>
                  d.result || (e.action == Use && (d.action == NewGrantWithFee || d.action == RevokeWithFee)))
            && (e.status == UseUp <==> d.action == UseUpFee)
            && (e.action == Revoke && e.status != UseUp ==> e.status == Revoked)
            && (e.action == Use && e.status != UseUp ==> e.status == Available)
            && (e.action == Create ==> e.status == (if d.result then Available else Fail) && e.amount == d.spendLimit)
            && (e.action == Use ==> e.amount == d.amount)
  {
  }

  lemma {:induction false} NewGrantsEnter(grants: Grants, list: seq<Activity>)
    requires FreshHashes(grants, list)
    ensures forall t :: t in WithNewGrants(grants, list) <==>
            t in grants || exists d :: d in list && Creates(d) && d.txHash == t
    ensures forall t :: t in grants ==> WithNewGrants(grants, list)[t] == grants[t]
    ensures forall d :: d in list && Creates(d) ==> d.txHash in WithNewGrants(grants, list) &&
                                                    WithNewGrants(grants, list)[d.txHash] == GrantOf(d)
  {
    if list != [] {
      var d, before := list[|list| - 1], list[..|list| - 1];
      assert list == before + [d];
      NewGrantsEnter(grants, before);
      forall x | x in before && Creates(x) && Creates(d)
        ensures x.txHash != d.txHash
      {
        var i :| 0 <= i < |before| && before[i] == x;
        assert list[i] == x && list[|list| - 1] == d;
      }
    }
  }

  /** New grants join the ledger under their own hash, as they were reported, and nothing stored changes. */
  lemma {:induction false} NewGrantsJoin(grants: Grants, list: seq<Activity>)
    requires FreshHashes(grants, list)
    ensures forall t :: t in WithNewGrants(grants, list) <==>
            t in grants || exists d :: d in list && Creates(d) && d.txHash == t
    ensures forall t :: t in grants ==> WithNewGrants(grants, list)[t] == grants[t]
    ensures forall d :: d in list && Creates(d) ==> d.txHash in WithNewGrants(grants, list) &&
                                                    WithNewGrants(grants, list)[d.txHash] == GrantOf(d)
    ensures forall d :: d in list && (d.action == NewGrant || d.action == NewGrantWithFee) ==>
              d.txHash in WithNewGrants(grants, list) && AsReported(WithNewGrants(grants, list)[d.txHash], d)
  {
    NewGrantsEnter(grants, list);
  }

  // ----- linking: the grant a record belongs to -----

  /** An available grant of the same pair that is strictly older than the record. */
  predicate Eligible(g: Grant, e: Record) {
    && g.status == Available && g.result
    && g.grantee == e.grantee && g.granter == e.granter
    && g.timestamp < e.timestamp
  }

  /** The youngest eligible grant. */
  predicate IsOrigin(grants: Grants, e: Record, t: TxHash) {
    && t in grants && Eligible(grants[t], e)
    && forall u :: u in grants && Eligible(grants[u], e) ==> grants[u].timestamp <= grants[t].timestamp
  }

  predicate HasOrigin(grants: Grants, e: Record) {
    exists t :: t in grants && Eligible(grants[t], e)
  }

  predicate Unlinked(e: Record) {
    e.origin == None && e.result
  }

  function Unprocessed(records: seq<Record>): seq<Record> {
    if records == [] then []
    else
      var before, e := Unprocessed(records[..|records| - 1]), records[|records| - 1];
      if Unlinked(e) then before + [e] else before
  }

  function Selected(records: seq<Record>): seq<Record> {
    var all := Unprocessed(records);
    if |all| <= FORWARD_LIMIT then all else all[..FORWARD_LIMIT]
  }

  /** `batch` is `selected` without the records that have no origin, each of the others linked to its origin. */
  predicate Links(grants: Grants, selected: seq<Record>, batch: seq<Record>) {
    if selected == [] then batch == []
    else
      var e, before := selected[|selected| - 1], selected[..|selected| - 1];
      if HasOrigin(grants, e) then
        && batch != []
        && LinkOf(grants, e, batch[|batch| - 1])
        && Links(grants, before, batch[..|batch| - 1])
      else Links(grants, before, batch)
  }

  predicate LinkOf(grants: Grants, e: Record, linked: Record) {
    linked.origin.Some? && linked == e.(origin := linked.origin) && IsOrigin(grants, e, linked.origin.value)
  }

  /** The history after the bulk write of a batch's origins. */
  function Marked(records: seq<Record>, batch: seq<Record>): (r: seq<Record>)
    ensures |r| == |records|
  {
    if batch == [] then records
    else
      var m, e := Marked(records, batch[..|batch| - 1]), batch[|batch| - 1];
      if e.id < |m| then m[e.id := m[e.id].(origin := e.origin)] else m
  }

  // ----- the services -----

  function InsertAll(grants: Grants, docs: seq<(TxHash, Grant)>): Grants {
    if docs == [] then grants
    else InsertAll(grants, docs[..|docs| - 1])[docs[|docs| - 1].0 := docs[|docs| - 1].1]
  }

  function Candidates(docs: seq<(TxHash, Grant)>, e: Record): seq<(TxHash, Grant)> {
    if docs == [] then []
    else
      var before, x := Candidates(docs[..|docs| - 1], e), docs[|docs| - 1];
      if x.1.grantee == e.grantee && x.1.granter == e.granter && x.1.timestamp < e.timestamp then before + [x]
      else before
  }

  /** `reduce` to the youngest; of two equally young ones the later in the list. */
  function Youngest(docs: seq<(TxHash, Grant)>): (x: (TxHash, Grant))
    requires docs != []
    ensures x in docs
    ensures forall d :: d in docs ==> d.1.timestamp <= x.1.timestamp
  {
    if |docs| == 1 then docs[0]
    else
      var prev, current := Youngest(docs[..|docs| - 1]), docs[|docs| - 1];
      assert docs == docs[..|docs| - 1] + [current];
      if prev.1.timestamp > current.1.timestamp then prev else current
  }

  lemma {:induction false} CandidatesAre(docs: seq<(TxHash, Grant)>, e: Record)
    ensures forall x :: x in Candidates(docs, e) <==>
              x in docs && x.1.grantee == e.grantee && x.1.granter == e.granter && x.1.timestamp < e.timestamp
  {
    if docs != [] {
      CandidatesAre(docs[..|docs| - 1], e);
      assert docs == docs[..|docs| - 1] + [docs[|docs| - 1]];
    }
  }

  datatype UpdateContent = UpdateContent(amount: int, status: Status)

  function Revokes(list: seq<Record>): seq<Record> {
    if list == [] then []
    else
      var e, before := list[|list| - 1], Revokes(list[..|list| - 1]);
      if PlainRevoke(e) then before + [e] else before
  }

  lemma {:induction false} RevokeTxOfRevokes(list: seq<Record>, t: Option<TxHash>)
    ensures RevokeTx(Revokes(list), t) == RevokeTx(list, t)
  {
    if list != [] {
      var e, revokes := list[|list| - 1], Revokes(list[..|list| - 1]);
      RevokeTxOfRevokes(list[..|list| - 1], t);
      if PlainRevoke(e) { assert (revokes + [e])[..|revokes|] == revokes; }
    }
  }

  /** An update map after the records of `list`. */
  predicate Folded(m: map<Option<TxHash>, UpdateContent>, list: seq<Record>) {
    forall k :: k in m ==> m[k] == UpdateContent(SpentOn(list, k), FinalStatus(list, k))
  }

  lemma FoldOther(m: map<Option<TxHash>, UpdateContent>, list: seq<Record>, e: Record)
    requires Folded(m, list) && e.action == Create
    ensures Folded(m, list + [e])
  {
  }

  lemma FoldUse(m: map<Option<TxHash>, UpdateContent>, list: seq<Record>, e: Record)
    requires Folded(m, list) && e.action == Use && e.amount.Coin? && e.origin in m
    ensures Folded(m[e.origin := UpdateContent(m[e.origin].amount + e.amount.figure, m[e.origin].status)], list + [e])
  {
  }

  lemma FoldRevoke(m: map<Option<TxHash>, UpdateContent>, list: seq<Record>, e: Record)
    requires Folded(m, list) && e.action == Revoke && e.origin in m
    ensures Folded(m[e.origin := UpdateContent(m[e.origin].amount, if e.status == UseUp then UseUp else Revoked)],
            list + [e])
  {
  }

  class FeegrantDb {
    var grants: Grants

    constructor ()
      ensures grants == map[]
    {
      grants := map[];
    }

    /** Marks the available grants whose expiration has passed, and changes nothing else. */
    method HandleJobCheckExpire(now: int)
      modifies this
      ensures grants.Keys == old(grants).Keys
      ensures forall t :: t in grants ==> grants[t] == old(grants)[t].(expired := grants[t].expired)
      ensures grants == Expire(old(grants), now)
    {
      grants := map t | t in grants ::
        if grants[t].expiration.Some? && grants[t].expiration.value <= now && grants[t].status == Available
        then grants[t].(expired := true) else grants[t];
    }

    method Insert(entities: seq<(TxHash, Grant)>)
      modifies this
      ensures grants == InsertAll(old(grants), entities)
    {
      for i := 0 to |entities|
        invariant grants == InsertAll(old(grants), entities[..i])
      {
        grants := grants[entities[i].0 := entities[i].1];
        assert entities[..i + 1][..i] == entities[..i];
      }
      assert entities[..|entities|] == entities;
    }

    /** The available, successful grants of the given (granter, grantee) pairs, in no particular order. */
    method Find(pairs: set<(Address, Address)>) returns (docs: seq<(TxHash, Grant)>)
      ensures forall d :: d in docs <==> d.0 in grants && grants[d.0] == d.1 && d.1.status == Available && d.1.result &&
                                         (d.1.granter, d.1.grantee) in pairs
    {
      docs := [];
      var todo := grants.Keys;
      while todo != {}
        invariant todo <= grants.Keys
        invariant forall d :: d in docs <==> d.0 in grants && d.0 !in todo && grants[d.0] == d.1 &&
                                             d.1.status == Available && d.1.result
                                             && (d.1.granter, d.1.grantee) in pairs
        decreases |todo|
      {
        var t :| t in todo;
        var g := grants[t];
        if g.status == Available && g.result && (g.granter, g.grantee) in pairs {
          docs := docs + [(t, g)];
        }
        todo := todo - {t};
      }
    }

    /** One `feegrant.db` job; `ok` is false when the job throws, which leaves the ledger alone. */
    method HandleJob(list: seq<Record>) returns (ok: bool)
      modifies this
      ensures ok <==> forall e :: e in list && e.action == Use ==> e.amount.Coin?
      ensures grants == Outcome(old(grants), list)
    {
      var mapUpdate := InitUpdates(list);
      var listRevoke;
      ok, mapUpdate, listRevoke := FoldUpdates(list, mapUpdate);
      if !ok {
        return false;
      }
      WriteAmounts(mapUpdate);
      WriteRevokes(listRevoke);
      forall t | t in old(grants)
        ensures grants[t] == ApplyBatch(old(grants), list)[t]
      {
        WrittenTwice(old(grants)[t], list, t);
      }
    }

    /** The two bulk writes together settle a grant. */
    lemma WrittenTwice(g: Grant, list: seq<Record>, t: TxHash)
      ensures var k := Some(t);
              var content := UpdateContent(SpentOn(list, k), FinalStatus(list, k));
              var first := if Touches(list, k) then WithContent(g, content) else g;
              var revoke := RevokeTx(Revokes(list), k);
              var both := if revoke.Some? then first.(revokeTx := revoke) else first;
              both == After(g, list, t)
    {
      RevokeTxOfRevokes(list, Some(t));
      if !Touches(list, Some(t)) { UntouchedSpendsNothing(list, Some(t)); }
    }

    /** The first loop: an entry for every grant the list touches. */
    method InitUpdates(list: seq<Record>) returns (mapUpdate: map<Option<TxHash>, UpdateContent>)
      ensures forall k :: k in mapUpdate <==> Touches(list, k)
      ensures forall k :: k in mapUpdate ==> mapUpdate[k] == UpdateContent(0, Available)
    {
      mapUpdate := map[];
      for i := 0 to |list|
        invariant forall k :: k in mapUpdate <==> Touches(list[..i], k)
        invariant forall k :: k in mapUpdate ==> mapUpdate[k] == UpdateContent(0, Available)
      {
        var e := list[i];
        assert list[..i + 1] == list[..i] + [e];
        if e.action == Use || e.action == Revoke {
          assert Touched(e, e.origin);
          mapUpdate := mapUpdate[e.origin := UpdateContent(0, Available)];
        }
      }
      assert list[..|list|] == list;
    }

    /** The second loop: fees add up, revokes set the status; false when a use carries no figure. */
    method FoldUpdates(list: seq<Record>, init: map<Option<TxHash>, UpdateContent>)
      returns (ok: bool, mapUpdate: map<Option<TxHash>, UpdateContent>, listRevoke: seq<Record>)
      requires forall k :: k in init <==> Touches(list, k)
      requires forall k :: k in init ==> init[k] == UpdateContent(0, Available)
      ensures ok <==> WellFormed(list)
      ensures ok ==> listRevoke == Revokes(list) && forall e :: e in listRevoke ==> PlainRevoke(e)
      ensures ok ==> forall k :: k in mapUpdate <==> Touches(list, k)
      ensures ok ==> forall k :: k in mapUpdate ==>
              mapUpdate[k] == UpdateContent(SpentOn(list, k), FinalStatus(list, k))
    {
      mapUpdate, listRevoke := init, [];
      for i := 0 to |list|
        invariant mapUpdate.Keys == init.Keys && Folded(mapUpdate, list[..i])
        invariant listRevoke == Revokes(list[..i]) && forall e :: e in listRevoke ==> PlainRevoke(e)
        invariant WellFormed(list[..i])
      {
        var e := list[i];
        assert list[..i + 1] == list[..i] + [e] && list[..i + 1][..i] == list[..i];
        assert e in list && (e.action == Use || e.action == Revoke ==> Touched(e, e.origin));
        if e.action == Use && !e.amount.Coin? {
          return false, mapUpdate, listRevoke;
        }
        mapUpdate := FoldOne(mapUpdate, list[..i], e);
        if PlainRevoke(e) {
          listRevoke := listRevoke + [e];
        }
      }
      assert list[..|list|] == list;
      ok := true;
    }

    /** One record of the second loop. */
    method FoldOne(m: map<Option<TxHash>, UpdateContent>, ghost before: seq<Record>, e: Record)
      returns (mapUpdate: map<Option<TxHash>, UpdateContent>)
      requires Folded(m, before) && (e.action == Use ==> e.amount.Coin?)
      requires e.action == Use || e.action == Revoke ==> e.origin in m
      ensures mapUpdate.Keys == m.Keys && Folded(mapUpdate, before + [e])
    {
      mapUpdate := m;
      match e.action {
        case Use =>
          FoldUse(m, before, e);
          mapUpdate := m[e.origin := UpdateContent(m[e.origin].amount + e.amount.figure, m[e.origin].status)];
        case Revoke =>
          FoldRevoke(m, before, e);
          if e.status == UseUp {
            mapUpdate := m[e.origin := UpdateContent(m[e.origin].amount, UseUp)];
          } else {
            mapUpdate := m[e.origin := UpdateContent(m[e.origin].amount, Revoked)];
          }
        case Create =>
          FoldOther(m, before, e);
      }
    }

    /** The first bulk write: new amount and status of every stored grant in the update map. */
    method WriteAmounts(mapUpdate: map<Option<TxHash>, UpdateContent>)
      modifies this
      ensures grants == map t | t in old(grants) ::
                          if Some(t) in mapUpdate then WithContent(old(grants)[t], mapUpdate[Some(t)])
                          else old(grants)[t]
    {
      var originals := grants;
      var todo := set t | t in originals && Some(t) in mapUpdate;
      while todo != {}
        invariant todo <= originals.Keys && grants.Keys == originals.Keys
        invariant forall t :: t in todo ==> Some(t) in mapUpdate
        invariant forall t :: t in originals ==> AmountWritten(originals[t], grants[t], mapUpdate, todo, t)
        decreases |todo|
      {
        var t :| t in todo;
        assert AmountWritten(originals[t], grants[t], mapUpdate, todo, t);
        var updated := WriteAmount(grants[t], mapUpdate[Some(t)]);
        grants := grants[t := updated];
        todo := todo - {t};
      }
      assert forall t :: t in originals ==> AmountWritten(originals[t], grants[t], mapUpdate, todo, t);
    }

    /** A grant in the middle of the bulk write. */
    static predicate AmountWritten(was: Grant, g: Grant, mapUpdate: map<Option<TxHash>, UpdateContent>,
        todo: set<TxHash>, t: TxHash) {
      g == if Some(t) in mapUpdate && t !in todo then WithContent(was, mapUpdate[Some(t)]) else was
    }

    static method WriteAmount(e: Grant, content: UpdateContent) returns (updated: Grant)
      ensures updated == WithContent(e, content)
    {
      updated := e.(status := content.status);
      if !e.amount.NoCoin? {
        updated := updated.(amount := if e.amount.Coin? then Coin(e.amount.figure - content.amount) else BlankCoin);
      }
    }

    static function WithContent(g: Grant, content: UpdateContent): Grant {
      g.(amount := if g.amount.Coin? then Coin(g.amount.figure - content.amount) else g.amount,
         status := content.status)
    }

    /** The second bulk write: the revoking transaction of every plain revoke, in list order. */
    method WriteRevokes(listRevoke: seq<Record>)
      requires forall e :: e in listRevoke ==> PlainRevoke(e)
      modifies this
      ensures grants == map t | t in old(grants) ::
                          if RevokeTx(listRevoke, Some(t)).Some?
                          then old(grants)[t].(revokeTx := RevokeTx(listRevoke, Some(t))) else old(grants)[t]
    {
      for i := 0 to |listRevoke|
        invariant grants == map t | t in old(grants) ::
                              if RevokeTx(listRevoke[..i], Some(t)).Some?
                              then old(grants)[t].(revokeTx := RevokeTx(listRevoke[..i], Some(t))) else old(grants)[t]
      {
        var e := listRevoke[i];
        assert e in listRevoke;
        assert listRevoke[..i + 1][..i] == listRevoke[..i];
        if e.origin.Some? && e.origin.value in grants {
          grants := grants[e.origin.value := grants[e.origin.value].(revokeTx := Some(e.txHash))];
        }
      }
      assert listRevoke[..|listRevoke|] == listRevoke;
    }
  }

  /** Numbering does not change a key. */
  lemma NumberedRefuses(before: seq<Record>, more: seq<Record>, e: Record)
    ensures Refused(before + Numbered(more, |before|), e) <==> Refused(before + more, e)
    ensures Numbered(more + [e], |before|) == Numbered(more, |before|) + [e.(id := |before| + |more|)]
  {
    var numbered := Numbered(more, |before|);
    RefusedConcat(before, numbered, e);
    RefusedConcat(before, more, e);
    if Refused(more, e) {
      var r :| r in more && SameKey(r, e);
      var i :| 0 <= i < |more| && more[i] == r;
      assert SameKey(numbered[i], e);
    }
    if Refused(numbered, e) {
      var r :| r in numbered && SameKey(r, e);
      var i :| 0 <= i < |numbered| && numbered[i] == r;
      assert SameKey(more[i], e);
    }
  }

  class FeegrantHistoryDb {
    const db: FeegrantDb
    var records: seq<Record>

    constructor (db: FeegrantDb)
      ensures this.db == db && records == []
    {
      this.db := db;
      records := [];
    }

    /** Turns a list of chain actions into history records and new grants. */
    method HandleJob(feegrantList: seq<Activity>)
      modifies this, db
      ensures records == old(records) + Numbered(Accepted(old(records), Drafts(feegrantList)), |old(records)|)
      ensures db.grants == WithNewGrants(old(db.grants), feegrantList)
    {
      var drafts: seq<Record>, recordsCreate: seq<(TxHash, Grant)> := [], [];
      for i := 0 to |feegrantList|
        invariant drafts == Drafts(feegrantList[..i])
        invariant InsertAll(db.grants, recordsCreate) == WithNewGrants(db.grants, feegrantList[..i])
        invariant records == old(records) && db.grants == old(db.grants)
      {
        var element := feegrantList[i];
        assert feegrantList[..i + 1][..i] == feegrantList[..i];
        match element.action {
          case NewGrant =>
            drafts := drafts + [CreateRecord(element)];
          case UseFee =>
            drafts := drafts + [FeeRecord(element, element.grantee, element.result, Available)];
          case UseUpFee =>
            drafts := drafts + [FeeRecord(element, element.grantee, element.result, UseUp)];
            drafts := drafts + [RevokeRecord(element, element.payer, UseUp)];
          case RevokeGrant =>
            drafts := drafts + [RevokeRecord(element, element.granter, Revoked)];
          case RevokeWithFee =>
            drafts := drafts + [RevokeRecord(element, element.granter, Revoked)];
            drafts := drafts + [FeeRecord(element, element.granter, true, Available)];
          case NewGrantWithFee =>
            drafts := drafts + [CreateRecord(element)];
            drafts := drafts + [FeeRecord(element, element.granter, true, Available)];
        }
        assert drafts == Drafts(feegrantList[..i]) + RecordsOf(element);
        if Creates(element) {
          var doc := (element.txHash, GrantOf(element));
          assert (recordsCreate + [doc])[..|recordsCreate|] == recordsCreate;
          recordsCreate := recordsCreate + [doc];
        }
      }
      assert feegrantList[..|feegrantList|] == feegrantList;
      db.Insert(recordsCreate);
      InsertMany(drafts);
    }

    /** Every draft is inserted on its own; the unique index refuses some. */
    method InsertMany(drafts: seq<Record>)
      modifies this`records
      ensures records == old(records) + Numbered(Accepted(old(records), drafts), |old(records)|)
    {
      ghost var before := records;
      assert before == before + Numbered(Accepted(before, []), |before|);
      for i := 0 to |drafts|
        invariant records == before + Numbered(Accepted(before, drafts[..i]), |before|)
      {
        assert drafts[..i + 1][..i] == drafts[..i];
        NumberedRefuses(before, Accepted(before, drafts[..i]), drafts[i]);
        if !Refused(records, drafts[i]) {
          records := records + [drafts[i].(id := |records|)];
        }
      }
      assert drafts[..|drafts|] == drafts;
    }

    /** The first 2000 successful records that have no origin yet. */
    method FindUnprocessed() returns (found: seq<Record>)
      ensures found == Selected(records)
    {
      found := [];
      for i := 0 to |records|
        invariant found == Unprocessed(records[..i])
      {
        assert records[..i + 1][..i] == records[..i];
        if records[i].origin == None && records[i].result {
          found := found + [records[i]];
        }
      }
      assert records[..|records|] == records;
      if |found| > FORWARD_LIMIT {
        found := found[..FORWARD_LIMIT];
      }
    }

    /** Sets the origin of every record of the batch, by `_id`. */
    method BulkWrite(batch: seq<Record>)
      modifies this`records
      ensures records == Marked(old(records), batch)
    {
      for i := 0 to |batch|
        invariant records == Marked(old(records), batch[..i])
      {
        assert batch[..i + 1][..i] == batch[..i];
        var e := batch[i];
        if e.id < |records| {
          records := records[e.id := records[e.id].(origin := e.origin)];
        }
      }
      assert batch[..|batch|] == batch;
    }
  }

  class CronjobUpdateOriginGrant {
    const history: FeegrantHistoryDb
    var jobs: seq<seq<Record>>  // every list this service has sent to the `feegrant.db` queue

    constructor (history: FeegrantHistoryDb)
      ensures this.history == history && jobs == []
    {
      this.history := history;
      jobs := [];
    }

    /** Links the unprocessed records to their grants, forwards the linked ones and marks them in the history. */
    method HandleJob() returns (batch: seq<Record>)
      modifies this`jobs, history`records
      ensures Links(history.db.grants, Selected(old(history.records)), batch)
      ensures jobs == old(jobs) + if Selected(old(history.records)) == [] then [] else [batch]
      ensures history.records == Marked(old(history.records), batch)
    {
      batch := [];
      var listUnprocess := history.FindUnprocessed();
      if |listUnprocess| > 0 {
        var pairs := set e | e in listUnprocess :: (e.granter, e.grantee);
        var listOriginalFeegrant := history.db.Find(pairs);
        for i := 0 to |listUnprocess|
          invariant Links(history.db.grants, listUnprocess[..i], batch)
          invariant jobs == old(jobs) && history.records == old(history.records)
        {
          var e := listUnprocess[i];
          assert listUnprocess[..i + 1][..i] == listUnprocess[..i];
          assert e in listUnprocess && (e.granter, e.grantee) in pairs;
          var origin := OriginOf(e, listOriginalFeegrant, pairs);
          if origin.Some? {
            var linked := e.(origin := origin);
            assert (batch + [linked])[..|batch|] == batch;
            batch := batch + [linked];
          }
        }
        assert listUnprocess[..|listUnprocess|] == listUnprocess;
        jobs := jobs + [batch];
        history.BulkWrite(batch);
      }
    }

    /** The youngest of the found grants that are of the record's pair and strictly older. */
    method OriginOf(e: Record, listOriginalFeegrant: seq<(TxHash, Grant)>, ghost pairs: set<(Address, Address)>)
      returns (origin: Option<TxHash>)
      requires (e.granter, e.grantee) in pairs
      requires forall d :: d in listOriginalFeegrant <==>
                 d.0 in history.db.grants && history.db.grants[d.0] == d.1 && d.1.status == Available && d.1.result &&
                 (d.1.granter, d.1.grantee) in pairs
      ensures origin.Some? <==> HasOrigin(history.db.grants, e)
      ensures origin.Some? ==> IsOrigin(history.db.grants, e, origin.value)
    {
      ghost var grants := history.db.grants;
      var suspiciousFeegrants := Candidates(listOriginalFeegrant, e);
      CandidatesAre(listOriginalFeegrant, e);
      assert forall t :: t in grants && Eligible(grants[t], e) ==> (t, grants[t]) in suspiciousFeegrants;
      if |suspiciousFeegrants| == 0 {
        return None;
      }
      var original := Youngest(suspiciousFeegrants);
      assert IsOrigin(grants, e, original.0);
      return Some(original.0);
    }
  }
}
