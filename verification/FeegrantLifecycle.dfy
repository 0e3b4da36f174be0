/** When an ended grant stays ended. */
module FeegrantLifecycle {
  import opened Options
  import opened FeegrantLedger
  import opened FeegrantServices
  import opened FeegrantRuns

  /*
   A batch resets the status of every grant it touches, so a late batch can reopen a grant.  That cannot happen
   when every forwarded batch has run before the cron job puts together the next one.
   */

  /** A job reopens an ended grant exactly when it runs, uses the grant and does not end it again. */
  lemma ReopensIff(grants: Grants, list: seq<Record>, t: TxHash)
    requires t in grants && Ended(grants[t])
    ensures Outcome(grants, list)[t].status == Available
       <==> WellFormed(list) && Touches(list, Some(t)) && !Ends(list, Some(t))
  {
    EndsIff(list, Some(t));
    if Ends(list, Some(t)) { TouchesConcat(list, [], Some(t)); }
  }

  // ----- the condition: link records only when the queue is empty -----

  predicate AllDone(s: State) {
    forall b :: 0 <= b < |s.forwarded| ==> b in s.done
  }

  predicate InTurn(s: State, ev: Event) {
    Enabled(s, ev) && (ev.Select? ==> AllDone(s))
  }

  predicate ValidTurns(s: State, evs: seq<Event>)
    ensures ValidTurns(s, evs) ==> ValidRun(s, evs)
    decreases |evs|
  {
    evs == [] || (InTurn(s, evs[0]) && ValidTurns(Next(s, evs[0]), evs[1..]))
  }

  predicate OriginsAvailable(grants: Grants, batch: seq<Record>) {
    forall e :: e in batch ==> e.origin.Some? && e.origin.value in grants && grants[e.origin.value].status == Available
  }

  /** At most one batch is linked or waiting, and the grants it touches are available. */
  predicate OneWaiting(s: State) {
    && (forall b :: 0 <= b < |s.forwarded| && b !in s.done ==>
       b == |s.forwarded| - 1 && OriginsAvailable(s.grants, s.forwarded[b]))
    && (s.selected.Some? ==> AllDone(s) && OriginsAvailable(s.grants, s.selected.value))
  }

  predicate EndedUnchanged(before: Grants, after: Grants) {
    forall t :: t in before && Ended(before[t]) ==> t in after && after[t] == before[t]
  }

  lemma EndedUntouched(grants: Grants, batch: seq<Record>)
    requires OriginsAvailable(grants, batch)
    ensures EndedUnchanged(grants, Outcome(grants, batch))
  {
  }

  lemma TurnStep(s: State, ev: Event)
    requires OneWaiting(s) && InTurn(s, ev)
    ensures OneWaiting(Next(s, ev))
    ensures EndedUnchanged(s.grants, Next(s, ev).grants)
  {
    match ev
    case StoreGrants(list) =>
      NewGrantsJoin(s.grants, list);
    case StoreRecords(k) =>
    case Select(batch) =>
    case Forward =>
    case Mark =>
    case RunJob(job) =>
      EndedUntouched(s.grants, s.forwarded[job]);
    case Tick(now) =>
  }

  lemma {:induction false} TurnsKeepEnded(s: State, evs: seq<Event>)
    requires OneWaiting(s) && ValidTurns(s, evs)
    ensures OneWaiting(Run(s, evs))
    ensures EndedUnchanged(s.grants, Run(s, evs).grants)
    decreases |evs|
  {
    if evs != [] {
      TurnStep(s, evs[0]);
      TurnsKeepEnded(Next(s, evs[0]), evs[1..]);
    }
  }

  /** In a run that links in turn, a grant that has ended at any moment is the same grant at every later moment. */
  lemma EndedForGood(first: seq<Event>, later: seq<Event>)
    requires ValidTurns(INITIAL, first) && ValidTurns(Run(INITIAL, first), later)
    ensures EndedUnchanged(Run(INITIAL, first).grants, Run(Run(INITIAL, first), later).grants)
  {
    TurnsKeepEnded(INITIAL, first);
    TurnsKeepEnded(Run(INITIAL, first), later);
  }

  // ----- in any run, a link never crosses pairs or time -----

  predicate LinkKept(grants: Grants, e: Record) {
    && e.origin.Some? && e.origin.value in grants
    && var g := grants[e.origin.value];
       g.granter == e.granter && g.grantee == e.grantee && g.timestamp < e.timestamp && g.result
  }

  predicate LinksKept(s: State) {
    && (forall b, e :: 0 <= b < |s.forwarded| && e in s.forwarded[b] ==> LinkKept(s.grants, e))
    && (s.selected.Some? ==> forall e :: e in s.selected.value ==> LinkKept(s.grants, e))
  }

  /** The pair, time and outcome of a stored grant never change. */
  lemma IdentityKept(s: State, ev: Event, t: TxHash)
    requires Enabled(s, ev) && t in s.grants
    ensures t in Next(s, ev).grants
    ensures var g, g' := s.grants[t], Next(s, ev).grants[t];
            g'.granter == g.granter && g'.grantee == g.grantee && g'.timestamp == g.timestamp && g'.result == g.result
            && g'.spendLimit == g.spendLimit
  {
    if ev.StoreGrants? { NewGrantsJoin(s.grants, ev.list); }
  }

  lemma LinksStep(s: State, ev: Event)
    requires LinksKept(s) && Enabled(s, ev)
    ensures LinksKept(Next(s, ev))
  {
    var s' := Next(s, ev);
    forall e | LinkKept(s.grants, e)
      ensures LinkKept(s'.grants, e)
    {
      IdentityKept(s, ev, e.origin.value);
    }
  }

  /** Every record ever forwarded is linked to an older, successful grant of its own pair. */
  lemma {:induction false} LinksStayTrue(s: State, evs: seq<Event>)
    requires LinksKept(s) && ValidRun(s, evs)
    ensures LinksKept(Run(s, evs))
    decreases |evs|
  {
    if evs != [] {
      LinksStep(s, evs[0]);
      LinksStayTrue(Next(s, evs[0]), evs[1..]);
    }
  }

  // ----- out of turn it does happen -----

  const GRANT := Activity(NewGrant, "", "a", "b", true, 0, NoCoin, Coin(10), "t0", None)
  const REVOKE := Activity(RevokeGrant, "", "a", "b", true, 2, NoCoin, NoCoin, "t1", None)
  const USE := Activity(UseFee, "a", "a", "b", true, 1, Coin(3), NoCoin, "t2", None)

  const REVOKED := RevokeRecord(REVOKE, "a", Revoked).(id := 1, origin := Some("t0"))
  const USED := FeeRecord(USE, "b", true, Available).(id := 2, origin := Some("t0"))

  ghost predicate Reaches(evs: seq<Event>, s: State) {
    ValidRun(INITIAL, evs) && Run(INITIAL, evs) == s
  }

  lemma {:induction false} OneMore(s: State, evs: seq<Event>, ev: Event)
    requires ValidRun(s, evs) && Enabled(Run(s, evs), ev)
    ensures ValidRun(s, evs + [ev]) && Run(s, evs + [ev]) == Next(Run(s, evs), ev)
    decreases |evs|
  {
    if evs == [] {
      assert [ev][1..] == [];
      assert ValidRun(Next(s, ev), []);
    } else {
      assert (evs + [ev])[1..] == evs[1..] + [ev];
      OneMore(Next(s, evs[0]), evs[1..], ev);
    }
  }

  /** The intake of one activity that makes one record. */
  lemma TakeIn(evs: seq<Event>, s: State, d: Activity) returns (more: seq<Event>, after: State)
    requires Reaches(evs, s) && s.entering == [] && |RecordsOf(d)| == 1
    requires d.txHash !in s.grants && forall r :: r in s.history ==> r.txHash != d.txHash
    ensures Reaches(more, after)
    ensures after == s.(grants := if Creates(d) then s.grants[d.txHash := GrantOf(d)] else s.grants,
                        history := s.history + [RecordsOf(d)[0].(id := |s.history|)])
  {
    OneGrantIn(s.grants, d);
    OneDraft(d);
    RecordsShareHash(d);
    OneRecordIn(s.history, Drafts([d]), RecordsOf(d)[0]);
    var first := StoreGrants([d]);
    OneMore(INITIAL, evs, first);
    OneMore(INITIAL, evs + [first], StoreRecords(0));
    more, after := evs + [first] + [StoreRecords(0)], Next(Next(s, first), StoreRecords(0));
    assert [[d]][..0] + [[d]][1..] == [];
  }

  lemma OneGrantIn(grants: Grants, d: Activity)
    requires d.txHash !in grants
    ensures FreshHashes(grants, [d])
    ensures WithNewGrants(grants, [d]) == if Creates(d) then grants[d.txHash := GrantOf(d)] else grants
  {
  }

  lemma RecordsShareHash(d: Activity)
    ensures forall i :: 0 <= i < |RecordsOf(d)| ==> RecordsOf(d)[i].txHash == d.txHash
  {
  }

  lemma OneRecordIn(history: seq<Record>, drafts: seq<Record>, e: Record)
    requires drafts == [e] && forall r :: r in history ==> r.txHash != e.txHash
    ensures Numbered(Accepted(history, drafts), |history|) == [e.(id := |history|)]
  {
    OneAccepted(history, e);
    OneNumbered(e, |history|);
  }

  lemma OneNumbered(e: Record, next: nat)
    ensures Numbered([e], next) == [e.(id := next)]
  {
  }

  lemma OneDraft(d: Activity)
    requires |RecordsOf(d)| == 1
    ensures Drafts([d]) == [RecordsOf(d)[0]]
  {
  }

  lemma OneAccepted(history: seq<Record>, e: Record)
    requires forall r :: r in history ==> r.txHash != e.txHash
    ensures Accepted(history, [e]) == [e]
  {
  }

  /** The cron job links one record, sends it and writes its origin. */
  lemma SendOff(evs: seq<Event>, s: State, e: Record) returns (more: seq<Event>, after: State)
    requires Reaches(evs, s) && Enabled(s, Select([e]))
    ensures Reaches(more, after)
    ensures after == s.(forwarded := s.forwarded + [[e]], history := s.history[e.id := e])
  {
    assert e in [e];
    var sent := Next(Next(s, Select([e])), Forward);
    OneMore(INITIAL, evs, Select([e]));
    OneMore(INITIAL, evs + [Select([e])], Forward);
    OneMore(INITIAL, evs + [Select([e])] + [Forward], Mark);
    more, after := evs + [Select([e])] + [Forward] + [Mark], Next(sent, Mark);
    assert [e][..0] == [] && Marked(s.history, []) == s.history;
  }

  /** The first batch: a grant is made and revoked, and the revoke is sent. */
  lemma RevokeWaiting() returns (evs: seq<Event>, s: State)
    ensures Reaches(evs, s)
    ensures s == State(map["t0" := GrantOf(GRANT)], [CreateRecord(GRANT), REVOKED], [], None, [[REVOKED]], {}, {}, None)
  {
    evs, s := TakeIn([], INITIAL, GRANT);
    evs, s := TakeIn(evs, s, REVOKE);
    assert s.history[1] == RevokeRecord(REVOKE, "a", Revoked).(id := 1);
    evs, s := SendOff(evs, s, REVOKED);
  }

  /** Two batches for one grant wait in the queue: a revoke, then an earlier use whose record arrived late. */
  lemma TwoWaiting() returns (evs: seq<Event>, s: State)
    ensures Reaches(evs, s)
    ensures s.forwarded == [[REVOKED], [USED]] && s.done == {} && s.grants == map["t0" := GrantOf(GRANT)]
  {
    evs, s := RevokeWaiting();
    evs, s := TakeIn(evs, s, USE);
    assert s.history[2] == FeeRecord(USE, "b", true, Available).(id := 2);
    evs, s := SendOff(evs, s, USED);
  }

  /** Out of turn, a revoked grant becomes available again. */
  lemma OutOfTurnReopens() returns (first: seq<Event>, last: Event)
    ensures ValidRun(INITIAL, first) && Enabled(Run(INITIAL, first), last)
    ensures var s := Run(INITIAL, first);
            "t0" in s.grants && s.grants["t0"].status == Revoked &&
            "t0" in Next(s, last).grants && Next(s, last).grants["t0"].status == Available
  {
    var s;
    first, s := TwoWaiting();
    OneMore(INITIAL, first, RunJob(0));
    first, last := first + [RunJob(0)], RunJob(1);
    assert Touched(REVOKED, Some("t0")) && REVOKED in [REVOKED];
    assert Touched(USED, Some("t0")) && USED in [USED];
    assert Next(s, RunJob(0)).grants["t0"].status == Revoked;
    ReopensIff(Next(s, RunJob(0)).grants, [USED], "t0");
  }
}
