/** Whole runs of the fee-grant pipeline: intake, cron, ledger jobs and the expiry check, in any order. */
module FeegrantRuns {
  import opened Options
  import opened FeegrantLedger
  import opened FeegrantServices

  /*
   Intake stores the new grants first and the history records later; lists may overtake each other on the way.
   The cron job takes three steps: it links records to the grants it reads, sends the batch to the queue, and writes
   the origins to the history; by the time it sends, what it read may be stale.  Queued jobs may run at any later
   moment and in any order, each once.
   */

  datatype State = State(
    grants: Grants, history: seq<Record>,
    entering: seq<seq<Activity>>,    // lists whose grants are stored and whose records are not yet
    selected: Option<seq<Record>>,   // a batch the cron job has linked but not yet sent
    forwarded: seq<seq<Record>>,     // every job ever sent to `feegrant.db`
    done: set<nat>,                  // those that have run
    applied: set<nat>,               // the history records whose job has run without throwing
    marking: Option<seq<Record>>)    // a batch sent but not yet written to the history

  datatype Event =
    | StoreGrants(list: seq<Activity>) | StoreRecords(k: nat)
    | Select(batch: seq<Record>) | Forward | Mark
    | RunJob(job: nat) | Tick(now: int)

  const INITIAL := State(map[], [], [], None, [], {}, {}, None)

  predicate DistinctIds(batch: seq<Record>) {
    forall i, j :: 0 <= i < j < |batch| ==> batch[i].id != batch[j].id
  }

  /** A batch the cron job may put together: unlinked history records, each linked to its origin. */
  predicate Forwardable(grants: Grants, history: seq<Record>, batch: seq<Record>) {
    && |batch| <= FORWARD_LIMIT && DistinctIds(batch)
    && forall e :: e in batch ==> e.id < |history| && Unlinked(history[e.id]) && LinkOf(grants, history[e.id], e)
  }

  predicate Enabled(s: State, ev: Event) {
    match ev
    case StoreGrants(list) => FreshHashes(s.grants, list)
    case StoreRecords(k) => k < |s.entering|
    case Select(batch) => s.selected.None? && s.marking.None? && Forwardable(s.grants, s.history, batch)
    case Forward => s.selected.Some?
    case Mark => s.marking.Some?
    case RunJob(job) => job < |s.forwarded| && job !in s.done
    case Tick(_) => true
  }

  function IdsOf(batch: seq<Record>): set<nat> {
    set e | e in batch :: e.id
  }

  function Next(s: State, ev: Event): State
    requires Enabled(s, ev)
  {
    match ev
    case StoreGrants(list) => s.(grants := WithNewGrants(s.grants, list), entering := s.entering + [list])
    case StoreRecords(k) => s.(history := s.history + Entering(s, k),
                               entering := s.entering[..k] + s.entering[k + 1..])
    case Select(batch) => s.(selected := Some(batch))
    case Forward => s.(forwarded := s.forwarded + [s.selected.value], marking := s.selected, selected := None)
    case Mark => s.(history := Marked(s.history, s.marking.value), marking := None)
    case RunJob(job) => s.(grants := Outcome(s.grants, s.forwarded[job]), done := s.done + {job},
                           applied := if WellFormed(s.forwarded[job]) then s.applied + IdsOf(s.forwarded[job])
                                      else s.applied)
    case Tick(now) => s.(grants := Expire(s.grants, now))
  }

  /** The records of a list that the history takes in. */
  function Entering(s: State, k: nat): seq<Record>
    requires k < |s.entering|
  {
    Numbered(Accepted(s.history, Drafts(s.entering[k])), |s.history|)
  }

  predicate ValidRun(s: State, evs: seq<Event>)
    decreases |evs|
  {
    evs == [] || (Enabled(s, evs[0]) && ValidRun(Next(s, evs[0]), evs[1..]))
  }

  function Run(s: State, evs: seq<Event>): State
    requires ValidRun(s, evs)
    decreases |evs|
  {
    if evs == [] then s else Run(Next(s, evs[0]), evs[1..])
  }

  /** The history with the batch that is still being marked written to it. */
  function LinkedHistory(s: State): (h: seq<Record>)
    ensures |h| == |s.history|
  {
    if s.marking.Some? then Marked(s.history, s.marking.value) else s.history
  }

  // ----- the cron service forwards forwardable batches -----

  predicate Indexed(history: seq<Record>) {
    forall i :: 0 <= i < |history| ==> history[i].id == i
  }

  lemma {:induction false} UnprocessedAreIndexed(records: seq<Record>)
    requires Indexed(records)
    ensures forall i :: 0 <= i < |Unprocessed(records)| ==>
              var e := Unprocessed(records)[i]; e.id < |records| && records[e.id] == e && Unlinked(e)
    ensures DistinctIds(Unprocessed(records))
  {
    if records != [] {
      UnprocessedAreIndexed(records[..|records| - 1]);
    }
  }

  lemma {:induction false} LinksAreForwardable(grants: Grants, selected: seq<Record>, batch: seq<Record>)
    requires Links(grants, selected, batch) && DistinctIds(selected)
    ensures |batch| <= |selected| && DistinctIds(batch)
    ensures forall e :: e in batch ==> exists x :: x in selected && LinkOf(grants, x, e)
  {
    if selected != [] {
      var e, before := selected[|selected| - 1], selected[..|selected| - 1];
      assert selected == before + [e];
      if HasOrigin(grants, e) {
        var l, rest := batch[|batch| - 1], batch[..|batch| - 1];
        assert batch == rest + [l];
        LinksAreForwardable(grants, before, rest);
        assert LinkOf(grants, e, l);
        forall x | x in rest
          ensures x.id != l.id
        {
          var y :| y in before && LinkOf(grants, y, x);
          var i :| 0 <= i < |before| && before[i] == y;
          assert selected[i].id != selected[|selected| - 1].id;
        }
      } else {
        LinksAreForwardable(grants, before, batch);
      }
    }
  }

  /**
   What `CronjobUpdateOriginGrant.HandleJob` promises is an enabled Select event, even when records have joined
   the history since the job read it.
   */
  lemma CronForwards(s: State, seen: seq<Record>, batch: seq<Record>)
    requires Indexed(s.history) && s.selected.None? && s.marking.None?
    requires seen <= s.history
    requires Links(s.grants, Selected(seen), batch)
    ensures Enabled(s, Select(batch))
  {
    UnprocessedAreIndexed(seen);
    LinksAreForwardable(s.grants, Selected(seen), batch);
    forall e | e in batch
      ensures e.id < |s.history| && Unlinked(s.history[e.id]) && LinkOf(s.grants, s.history[e.id], e)
    {
      var x :| x in Selected(seen) && LinkOf(s.grants, x, e);
      var i :| 0 <= i < |Unprocessed(seen)| && Unprocessed(seen)[i] == x;
    }
  }

  // ----- marking writes the batch, and only the batch -----

  lemma {:induction false} MarkedShape(history: seq<Record>, batch: seq<Record>)
    ensures forall i :: 0 <= i < |history| ==>
              Marked(history, batch)[i] == history[i].(origin := Marked(history, batch)[i].origin)
  {
    if batch != [] { MarkedShape(history, batch[..|batch| - 1]); }
  }

  lemma {:induction false} MarkedAt(history: seq<Record>, batch: seq<Record>)
    requires DistinctIds(batch)
    requires forall e :: e in batch ==> e.id < |history| && e == history[e.id].(origin := e.origin)
    ensures forall e :: e in batch ==> Marked(history, batch)[e.id] == e
    ensures forall i :: 0 <= i < |history| && i !in IdsOf(batch) ==> Marked(history, batch)[i] == history[i]
  {
    if batch != [] {
      var e, before := batch[|batch| - 1], batch[..|batch| - 1];
      assert batch == before + [e];
      assert IdsOf(batch) == IdsOf(before) + {e.id};
      MarkedAt(history, before);
      assert e.id !in IdsOf(before);
    }
  }

  // ----- the sum of what the linked history has spent on a grant -----

  /** Fees of the use records linked to `t` among the history records `ids`. */
  function LinkedSpend(history: seq<Record>, ids: set<nat>, t: TxHash): int {
    if history == [] then 0
    else
      var n := |history| - 1;
      var e := history[n];
      var counts := n in ids && e.action == Use && e.origin == Some(t) && e.amount.Coin?;
      LinkedSpend(history[..n], ids, t) + if counts then e.amount.figure else 0
  }

  lemma {:induction false} SpendAddOne(history: seq<Record>, ids: set<nat>, i: nat, t: TxHash)
    requires i !in ids
    ensures LinkedSpend(history, ids + {i}, t) ==
            LinkedSpend(history, ids, t) + if i < |history| then FeeOn(history[i], Some(t)) else 0
  {
    if history != [] {
      SpendAddOne(history[..|history| - 1], ids, i, t);
    }
  }

  lemma {:induction false} SpendAddBatch(history: seq<Record>, ids: set<nat>, batch: seq<Record>, t: TxHash)
    requires DistinctIds(batch)
    requires forall e :: e in batch ==> e.id < |history| && history[e.id] == e && e.id !in ids
    ensures LinkedSpend(history, ids + IdsOf(batch), t) == LinkedSpend(history, ids, t) + SpentOn(batch, Some(t))
  {
    if batch == [] {
      assert ids + IdsOf(batch) == ids;
    } else {
      var e, before := batch[|batch| - 1], batch[..|batch| - 1];
      assert batch == before + [e];
      SpendAddBatch(history, ids, before, t);
      assert e.id !in IdsOf(before);
      SpendAddOne(history, ids + IdsOf(before), e.id, t);
      assert ids + IdsOf(batch) == ids + IdsOf(before) + {e.id};
    }
  }

  lemma {:induction false} SpendAgrees(h: seq<Record>, k: seq<Record>, ids: set<nat>, t: TxHash)
    requires |h| <= |k|
    requires forall i :: i in ids ==> i < |h| && h[i] == k[i]
    ensures LinkedSpend(h, ids, t) == LinkedSpend(k, ids, t)
  {
    if k != [] {
      var n := |k| - 1;
      if |h| == |k| {
        SpendAgrees(h[..n], k[..n], ids - {n}, t);
        SpendIgnores(h[..n], ids, n, t);
        SpendIgnores(k[..n], ids, n, t);
      } else {
        SpendAgrees(h, k[..n], ids, t);
      }
    }
  }

  lemma {:induction false} SpendIgnores(h: seq<Record>, ids: set<nat>, n: nat, t: TxHash)
    requires |h| <= n
    ensures LinkedSpend(h, ids - {n}, t) == LinkedSpend(h, ids, t)
  {
    if h != [] {
      SpendIgnores(h[..|h| - 1], ids, n, t);
    }
  }

  lemma {:induction false} SpendZero(h: seq<Record>, ids: set<nat>, t: TxHash)
    requires forall i :: i in ids && i < |h| ==> h[i].origin != Some(t)
    ensures LinkedSpend(h, ids, t) == 0
  {
    if h != [] {
      SpendZero(h[..|h| - 1], ids, t);
    }
  }

  // ----- the invariant -----

  /** A forwarded record is the linked history record of the same `_id`, and its origin is a stored grant. */
  ghost predicate FaithfulBatch(linked: seq<Record>, known: set<TxHash>, batch: seq<Record>) {
    forall e :: e in batch ==>
      && e.id < |linked| && linked[e.id] == e
      && e.origin.Some? && e.origin.value in known && e.result && e.action != Create
  }

  ghost predicate Faithful(s: State) {
    forall b :: 0 <= b < |s.forwarded| ==> FaithfulBatch(LinkedHistory(s), s.grants.Keys, s.forwarded[b])
  }

  ghost predicate NoCommonRecord(a: seq<Record>, b: seq<Record>) {
    forall e, f :: e in a && f in b ==> e.id != f.id
  }

  /** No history record is forwarded twice. */
  ghost predicate ForwardedOnce(s: State) {
    && (forall b :: 0 <= b < |s.forwarded| ==> DistinctIds(s.forwarded[b]))
    && (forall b, c :: 0 <= b < c < |s.forwarded| ==> NoCommonRecord(s.forwarded[b], s.forwarded[c]))
  }

  ghost predicate MarkingOk(s: State) {
    s.marking.Some? ==>
      && |s.forwarded| > 0 && s.marking.value == s.forwarded[|s.forwarded| - 1]
      && forall e :: e in s.marking.value ==>
           e.id < |s.history| && e == s.history[e.id].(origin := e.origin) && s.history[e.id].origin == None
  }

  /** A linked batch stays fit to be sent, whatever the grants it was linked to have become. */
  ghost predicate Ready(known: set<TxHash>, history: seq<Record>, batch: seq<Record>) {
    && DistinctIds(batch)
    && forall e :: e in batch ==>
         && e.id < |history| && Unlinked(history[e.id]) && e == history[e.id].(origin := e.origin)
         && e.origin.Some? && e.origin.value in known
  }

  ghost predicate SelectedOk(s: State) {
    s.selected.Some? ==> s.marking.None? && Ready(s.grants.Keys, s.history, s.selected.value)
  }

  ghost predicate AppliedBy(s: State, b: nat, i: nat) {
    b < |s.forwarded| && WellFormed(s.forwarded[b]) && exists e :: e in s.forwarded[b] && e.id == i
  }

  ghost predicate WasApplied(s: State, i: nat) {
    exists b :: b in s.done && AppliedBy(s, b, i)
  }

  ghost predicate AppliedOk(s: State) {
    && (forall b :: b in s.done ==> b < |s.forwarded|)
    && (forall i :: i in s.applied <==> WasApplied(s, i))
  }

  /** A transaction has at most one record of each action and status, and creation records are linked from the start. */
  ghost predicate HistoryOk(s: State) {
    && Indexed(s.history) && UniqueKeys(s.history)
    && forall i :: 0 <= i < |s.history| && s.history[i].action == Create ==> s.history[i].origin.Some?
  }

  /** Limit = what is left + everything the applied, linked history spent; without a limit no figure appears. */
  ghost predicate Conserved(s: State) {
    forall t :: t in s.grants ==> ConservedAt(s, t)
  }

  ghost predicate ConservedAt(s: State, t: TxHash)
    requires t in s.grants
  {
    var g := s.grants[t];
    if g.spendLimit.Coin? then
      g.amount.Coin? && g.spendLimit.figure == g.amount.figure + LinkedSpend(LinkedHistory(s), s.applied, t)
    else g.amount == g.spendLimit
  }

  ghost predicate Inv(s: State) {
    Books(s) && Conserved(s)
  }

  /** Everything but `Conserved`: the records and the queue. */
  ghost predicate Books(s: State) {
    HistoryOk(s) && SelectedOk(s) && MarkingOk(s) && Faithful(s) && ForwardedOnce(s) && AppliedOk(s)
  }

  // ----- each step -----

  lemma AppliedAreLinked(s: State, i: nat)
    requires Books(s) && i in s.applied
    ensures i < |s.history| && LinkedHistory(s)[i].origin.Some? && LinkedHistory(s)[i].origin.value in s.grants
  {
  }

  lemma StoreGrantsStep(s: State, list: seq<Activity>)
    requires Inv(s) && Enabled(s, StoreGrants(list))
    ensures Inv(Next(s, StoreGrants(list)))
  {
    var s' := Next(s, StoreGrants(list));
    assert LinkedHistory(s') == LinkedHistory(s);
    NewGrantsJoin(s.grants, list);
    SameJobs(s, s');
    FaithfulGrows(s, s');
    forall t | t in s'.grants
      ensures ConservedAt(s', t)
    {
      if t in s.grants { assert ConservedAt(s, t); } else { UnknownSpendsNothing(s, t); }
    }
  }

  lemma UnknownSpendsNothing(s: State, t: TxHash)
    requires Books(s) && t !in s.grants
    ensures LinkedSpend(LinkedHistory(s), s.applied, t) == 0
  {
    forall i | i in s.applied
      ensures LinkedHistory(s)[i].origin != Some(t)
    {
      AppliedAreLinked(s, i);
    }
    SpendZero(LinkedHistory(s), s.applied, t);
  }

  lemma StoreRecordsStep(s: State, k: nat)
    requires Inv(s) && Enabled(s, StoreRecords(k))
    ensures Inv(Next(s, StoreRecords(k)))
  {
    var s' := Next(s, StoreRecords(k));
    RecordsKeepBooks(s, k);
    RecordsKeepLinks(s, k);
    forall t | t in s'.grants
      ensures ConservedAt(s', t)
    {
      assert ConservedAt(s, t);
      AppliedSpendAgrees(s, s', t);
    }
  }

  /** What has been applied sums up to the same in a history that agrees on it. */
  lemma AppliedSpendAgrees(s: State, s': State, t: TxHash)
    requires Books(s) && |s.history| <= |s'.history|
    requires forall i :: 0 <= i < |s.history| && LinkedHistory(s)[i].origin.Some? ==>
             LinkedHistory(s)[i] == LinkedHistory(s')[i]
    ensures LinkedSpend(LinkedHistory(s), s.applied, t) == LinkedSpend(LinkedHistory(s'), s.applied, t)
  {
    forall i | i in s.applied
      ensures i < |s.history| && LinkedHistory(s)[i] == LinkedHistory(s')[i]
    {
      AppliedAreLinked(s, i);
    }
    SpendAgrees(LinkedHistory(s), LinkedHistory(s'), s.applied, t);
  }

  lemma RecordsKeepBooks(s: State, k: nat)
    requires Books(s) && Enabled(s, StoreRecords(k))
    ensures Books(Next(s, StoreRecords(k)))
  {
    var s' := Next(s, StoreRecords(k));
    RecordsKeepLinks(s, k);
    SameJobs(s, s');
    FaithfulGrows(s, s');
    EnteringOk(s, k);
  }

  lemma FaithfulGrows(s: State, s': State)
    requires Faithful(s) && s'.forwarded == s.forwarded
    requires LinkedHistory(s) <= LinkedHistory(s') && s.grants.Keys <= s'.grants.Keys
    ensures Faithful(s')
  {
  }

  /** The queue's bookkeeping only looks at the queue. */
  lemma SameJobs(s: State, s': State)
    requires s'.forwarded == s.forwarded && s'.done == s.done && s'.applied == s.applied
    requires AppliedOk(s) && ForwardedOnce(s)
    ensures AppliedOk(s') && ForwardedOnce(s')
  {
  }

  lemma {:induction false} DraftsOk(list: seq<Activity>)
    ensures forall e :: e in Drafts(list) && e.action == Create ==> e.origin.Some?
  {
    if list != [] {
      DraftsOk(list[..|list| - 1]);
    }
  }

  lemma EnteringOk(s: State, k: nat)
    requires HistoryOk(s) && Enabled(s, StoreRecords(k))
    ensures HistoryOk(Next(s, StoreRecords(k)))
  {
    var drafts := Drafts(s.entering[k]);
    var accepted := Accepted(s.history, drafts);
    DraftsOk(s.entering[k]);
    AcceptedAre(s.history, drafts);
    forall i | 0 <= i < |accepted|
      ensures accepted[i] in drafts && !Refused(s.history, accepted[i])
    {
      assert accepted[i] in accepted;
    }
    KeysStayUnique(s.history, accepted);
  }

  lemma KeysStayUnique(history: seq<Record>, accepted: seq<Record>)
    requires UniqueKeys(history) && UniqueKeys(accepted)
    requires forall i :: 0 <= i < |accepted| ==> !Refused(history, accepted[i])
    ensures UniqueKeys(history + Numbered(accepted, |history|))
  {
    var more := history + Numbered(accepted, |history|);
    forall i, j | 0 <= i < j < |more|
      ensures !SameKey(more[i], more[j])
    {
      if i < |history| <= j {
        assert history[i] in history && !Refused(history, accepted[j - |history|]);
      } else if |history| <= i {
        assert !SameKey(accepted[i - |history|], accepted[j - |history|]);
      }
    }
  }

  lemma {:induction false} MarkedPrefix(h: seq<Record>, more: seq<Record>, batch: seq<Record>)
    requires forall e :: e in batch ==> e.id < |h|
    ensures Marked(h + more, batch) == Marked(h, batch) + more
  {
    if batch != [] {
      MarkedPrefix(h, more, batch[..|batch| - 1]);
    }
  }

  lemma RecordsKeepLinks(s: State, k: nat)
    requires Books(s) && Enabled(s, StoreRecords(k))
    ensures LinkedHistory(Next(s, StoreRecords(k))) == LinkedHistory(s) + Entering(s, k)
  {
    if s.marking.Some? {
      MarkedPrefix(s.history, Entering(s, k), s.marking.value);
    }
  }

  lemma SelectStep(s: State, batch: seq<Record>)
    requires Inv(s) && Enabled(s, Select(batch))
    ensures Inv(Next(s, Select(batch)))
  {
    var s' := Next(s, Select(batch));
    assert LinkedHistory(s') == LinkedHistory(s);
    SameJobs(s, s');
    FaithfulGrows(s, s');
    forall t | t in s'.grants
      ensures ConservedAt(s', t)
    {
      assert ConservedAt(s, t);
    }
  }

  lemma ForwardStep(s: State)
    requires Inv(s) && Enabled(s, Forward)
    ensures Inv(Next(s, Forward))
  {
    var s' := Next(s, Forward);
    MarkedAt(s.history, s.selected.value);
    MarkedShape(s.history, s.selected.value);
    ForwardKeepsBooks(s);
    forall t | t in s'.grants
      ensures ConservedAt(s', t)
    {
      assert ConservedAt(s, t);
      AppliedSpendAgrees(s, s', t);
    }
  }

  lemma ForwardKeepsBooks(s: State)
    requires Books(s) && Enabled(s, Forward)
    ensures Books(Next(s, Forward))
  {
    ForwardFaithful(s);
    ForwardOnce(s);
    ForwardApplied(s);
  }

  lemma ForwardApplied(s: State)
    requires Books(s) && Enabled(s, Forward)
    ensures AppliedOk(Next(s, Forward))
  {
  }

  /** What was forwarded before is linked, what is forwarded now was not. */
  lemma ForwardFresh(s: State, b: nat)
    requires Books(s) && Enabled(s, Forward) && b < |s.forwarded|
    ensures NoCommonRecord(s.forwarded[b], s.selected.value)
  {
  }

  lemma ForwardOnce(s: State)
    requires Books(s) && Enabled(s, Forward)
    ensures ForwardedOnce(Next(s, Forward))
  {
    var s' := Next(s, Forward);
    forall b, c | 0 <= b < c < |s'.forwarded|
      ensures NoCommonRecord(s'.forwarded[b], s'.forwarded[c])
    {
      if c == |s.forwarded| { ForwardFresh(s, b); }
    }
  }

  lemma ForwardFaithful(s: State)
    requires Books(s) && Enabled(s, Forward)
    ensures Faithful(Next(s, Forward))
  {
    var s' := Next(s, Forward);
    MarkedAt(s.history, s.selected.value);
    MarkedShape(s.history, s.selected.value);
    forall b | 0 <= b < |s'.forwarded|
      ensures FaithfulBatch(LinkedHistory(s'), s'.grants.Keys, s'.forwarded[b])
    {
      if b < |s.forwarded| {
        ForwardFresh(s, b);
        assert FaithfulBatch(s.history, s.grants.Keys, s.forwarded[b]);
      }
    }
  }

  lemma MarkStep(s: State)
    requires Inv(s) && Enabled(s, Mark)
    ensures Inv(Next(s, Mark))
  {
    var s' := Next(s, Mark);
    MarkedAt(s.history, s.marking.value);
    assert LinkedHistory(s') == LinkedHistory(s);
    MarkingKeepsHistory(s);
    SameJobs(s, s');
    forall t | t in s'.grants
      ensures ConservedAt(s', t)
    {
      assert ConservedAt(s, t);
    }
  }

  /** Origins are no part of a record's key. */
  lemma MarkingKeepsHistory(s: State)
    requires HistoryOk(s) && MarkingOk(s) && Enabled(s, Mark)
    requires DistinctIds(s.marking.value)
    ensures HistoryOk(Next(s, Mark))
  {
    var h, m := s.history, Next(s, Mark).history;
    MarkedAt(h, s.marking.value);
    MarkedShape(h, s.marking.value);
    forall i | 0 <= i < |h|
      ensures m[i] == h[i].(origin := m[i].origin) && (m[i].action == Create ==> m[i].origin.Some?)
    {
      if i in IdsOf(s.marking.value) {
        var e :| e in s.marking.value && e.id == i;
        assert m[e.id] == e;
      }
    }
    forall i, j | 0 <= i < j < |m|
      ensures !SameKey(m[i], m[j])
    {
      assert !SameKey(h[i], h[j]);
    }
  }

  lemma RunJobStep(s: State, job: nat)
    requires Inv(s) && Enabled(s, RunJob(job))
    ensures Inv(Next(s, RunJob(job)))
  {
    var s', batch := Next(s, RunJob(job)), s.forwarded[job];
    assert LinkedHistory(s') == LinkedHistory(s);
    RunJobBooks(s, job);
    forall t | t in s'.grants
      ensures ConservedAt(s', t)
    {
      assert ConservedAt(s, t);
      if WellFormed(batch) {
        forall e | e in batch
          ensures e.id !in s.applied
        {
          JobNotApplied(s, job, e);
        }
        SpendAddBatch(LinkedHistory(s), s.applied, batch, t);
        if !Touches(batch, Some(t)) { UntouchedSpendsNothing(batch, Some(t)); }
      }
    }
  }

  lemma JobNotApplied(s: State, job: nat, e: Record)
    requires Books(s) && Enabled(s, RunJob(job)) && e in s.forwarded[job]
    ensures e.id !in s.applied
  {
  }

  lemma RunJobApplied(s: State, job: nat)
    requires AppliedOk(s) && Enabled(s, RunJob(job))
    ensures AppliedOk(Next(s, RunJob(job)))
  {
  }

  lemma RunJobBooks(s: State, job: nat)
    requires Books(s) && Enabled(s, RunJob(job))
    ensures Books(Next(s, RunJob(job)))
  {
    var s' := Next(s, RunJob(job));
    assert s'.grants.Keys == s.grants.Keys;
    FaithfulGrows(s, s');
    RunJobApplied(s, job);
  }

  lemma TickStep(s: State, now: int)
    requires Inv(s)
    ensures Inv(Next(s, Tick(now)))
  {
    var s' := Next(s, Tick(now));
    assert LinkedHistory(s') == LinkedHistory(s);
    SameJobs(s, s');
    forall t | t in s'.grants
      ensures ConservedAt(s', t)
    {
      assert ConservedAt(s, t);
    }
  }

  /** A check marks the available grants at or past their expiration, and does nothing to records, batches and jobs. */
  lemma TickMarks(s: State, now: int, t: TxHash)
    requires t in s.grants
    ensures var s', g := Next(s, Tick(now)), s.grants[t];
            && s' == s.(grants := s'.grants) && s'.grants.Keys == s.grants.Keys
            && s'.grants[t] ==
                 (if g.status == Available && g.expiration.Some? && g.expiration.value <= now then g.(expired := true)
                  else g)
  {
    ExpireMarksDue(s.grants, now, now);
  }

  lemma Step(s: State, ev: Event)
    requires Inv(s) && Enabled(s, ev)
    ensures Inv(Next(s, ev))
  {
    match ev
    case StoreGrants(list) => StoreGrantsStep(s, list);
    case StoreRecords(k) => StoreRecordsStep(s, k);
    case Select(batch) => SelectStep(s, batch);
    case Forward => ForwardStep(s);
    case Mark => MarkStep(s);
    case RunJob(job) => RunJobStep(s, job);
    case Tick(now) => TickStep(s, now);
  }

  // ----- all runs -----

  lemma {:induction false} RunKeepsInv(s: State, evs: seq<Event>)
    requires Inv(s) && ValidRun(s, evs)
    ensures Inv(Run(s, evs))
    decreases |evs|
  {
    if evs != [] {
      Step(s, evs[0]);
      RunKeepsInv(Next(s, evs[0]), evs[1..]);
    }
  }

  /**
   In every run, from empty collections: money is conserved, no history record is forwarded twice, and each
   transaction has at most one record of an action and status, however many of its messages report it.
   */
  lemma EveryRunConserves(evs: seq<Event>)
    requires ValidRun(INITIAL, evs)
    ensures var s := Run(INITIAL, evs);
            Conserved(s) && ForwardedOnce(s) && Faithful(s) && AppliedOk(s) && UniqueKeys(s.history)
  {
    RunKeepsInv(INITIAL, evs);
  }
}
