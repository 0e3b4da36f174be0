/** What one run of the cron job forwards, record by record of the history. */
module FeegrantSelection {
  import opened Options
  import opened FeegrantLedger
  import opened FeegrantServices
  import opened FeegrantRuns

  /*
   The statements speak of the history the job reads, the grants it reads and the batch it sends, not of how it picks
   and links.
   */

  // ----- the first two thousand waiting records -----

  /** The positions below `n` of the successful records that have no origin. */
  function Waiting(history: seq<Record>, n: nat): set<nat>
    requires n <= |history|
  {
    set j: nat | j < n && history[j].origin == None && history[j].result
  }

  lemma WaitingNext(history: seq<Record>, n: nat)
    requires n < |history|
    ensures Waiting(history, n + 1) ==
            if history[n].origin == None && history[n].result then Waiting(history, n) + {n} else Waiting(history, n)
  {
  }

  lemma WaitingPrefix(history: seq<Record>, m: nat, n: nat)
    requires n <= m <= |history|
    ensures Waiting(history[..m], n) == Waiting(history, n)
  {
  }

  lemma {:induction false} UnprocessedCount(history: seq<Record>)
    ensures |Unprocessed(history)| == |Waiting(history, |history|)|
  {
    if history != [] {
      var n := |history| - 1;
      UnprocessedCount(history[..n]);
      WaitingPrefix(history, n, n);
      WaitingNext(history, n);
    }
  }

  /** A waiting record comes after exactly those that wait in front of it. */
  lemma {:induction false} UnprocessedAt(history: seq<Record>, i: nat)
    requires i < |history| && history[i].origin == None && history[i].result
    ensures |Waiting(history, i)| < |Unprocessed(history)|
    ensures Unprocessed(history)[|Waiting(history, i)|] == history[i]
  {
    var n := |history| - 1;
    WaitingPrefix(history, n, i);
    if i < n {
      UnprocessedAt(history[..n], i);
    } else {
      UnprocessedCount(history[..n]);
      WaitingPrefix(history, n, n);
    }
  }

  predicate AscendingIds(list: seq<Record>) {
    forall j, k :: 0 <= j < k < |list| ==> list[j].id < list[k].id
  }

  lemma {:induction false} UnprocessedAscend(history: seq<Record>)
    requires Indexed(history)
    ensures AscendingIds(Unprocessed(history))
  {
    if history != [] {
      UnprocessedAscend(history[..|history| - 1]);
      UnprocessedAreIndexed(history[..|history| - 1]);
    }
  }

  /** Which records the job looks at. */
  lemma SelectedIff(history: seq<Record>, i: nat)
    requires Indexed(history) && i < |history|
    ensures history[i] in Selected(history) <==>
              history[i].origin == None && history[i].result && |Waiting(history, i)| < 2000
    ensures AscendingIds(Selected(history))
    ensures forall x :: x in Selected(history) ==> x.id < |history| && history[x.id] == x
  {
    var all := Unprocessed(history);
    UnprocessedAscend(history);
    UnprocessedAreIndexed(history);
    forall x | x in Selected(history)
      ensures x.id < |history| && history[x.id] == x && Unlinked(x)
    {
      var k :| 0 <= k < |Selected(history)| && Selected(history)[k] == x;
      assert all[k] == x;
    }
    if history[i].origin == None && history[i].result {
      UnprocessedAt(history, i);
      var k := |Waiting(history, i)|;
      if k < 2000 { assert Selected(history)[k] == history[i]; }
    }
  }

  // ----- the batch made of them -----

  /** A batch holds the linked copy of every selected record that has an origin, and of no other, in their order. */
  lemma {:induction false} LinksAreAll(grants: Grants, selected: seq<Record>, batch: seq<Record>)
    requires Links(grants, selected, batch) && AscendingIds(selected)
    ensures forall x :: x in selected && HasOrigin(grants, x) ==> exists e :: e in batch && LinkOf(grants, x, e)
    ensures forall e :: e in batch ==> exists x :: x in selected && LinkOf(grants, x, e)
    ensures AscendingIds(batch)
  {
    if selected != [] {
      var e, before := selected[|selected| - 1], selected[..|selected| - 1];
      assert selected == before + [e];
      if HasOrigin(grants, e) {
        var l, rest := batch[|batch| - 1], batch[..|batch| - 1];
        assert batch == rest + [l];
        LinksAreAll(grants, before, rest);
        LinkedBehind(grants, before, rest, e, l);
      } else {
        LinksAreAll(grants, before, batch);
      }
    }
  }

  lemma LinkedBehind(grants: Grants, before: seq<Record>, rest: seq<Record>, e: Record, l: Record)
    requires AscendingIds(before + [e]) && AscendingIds(rest) && LinkOf(grants, e, l)
    requires forall x :: x in rest ==> exists y :: y in before && LinkOf(grants, y, x)
    ensures AscendingIds(rest + [l])
  {
    forall k | 0 <= k < |rest|
      ensures rest[k].id < l.id
    {
      assert rest[k] in rest;
      var y :| y in before && LinkOf(grants, y, rest[k]);
      var i :| 0 <= i < |before| && before[i] == y;
      assert (before + [e])[i].id < (before + [e])[|before|].id;
    }
  }

  /**
   Record `i` of the history is forwarded if and only if it succeeded, has no origin, has fewer than 2000 such records
   in front of it, and its pair has an available, successful grant made strictly earlier.  It is forwarded as it stands,
   linked to a youngest such grant, and the batch keeps the order of the history.
   */
  lemma ForwardedIff(history: seq<Record>, grants: Grants, batch: seq<Record>, i: nat)
    requires i < |history| && forall k :: 0 <= k < |history| ==> history[k].id == k
    requires Links(grants, Selected(history), batch)
    ensures (exists e :: e in batch && e.id == i) <==>
              && history[i].origin == None && history[i].result
              && |set j: nat | j < i && history[j].origin == None && history[j].result| < 2000
              && exists t :: t in grants && grants[t].status == Available && grants[t].result
                             && grants[t].granter == history[i].granter && grants[t].grantee == history[i].grantee
                             && grants[t].timestamp < history[i].timestamp
    ensures forall e :: e in batch && e.id == i ==>
              && e.origin.Some? && e == history[i].(origin := e.origin) && e.origin.value in grants
              && var g := grants[e.origin.value];
                 && g.status == Available && g.result && g.timestamp < e.timestamp
                 && g.granter == e.granter && g.grantee == e.grantee
                 && forall u :: (u in grants && grants[u].status == Available && grants[u].result
                                 && grants[u].granter == e.granter && grants[u].grantee == e.grantee
                                 && grants[u].timestamp < e.timestamp) ==> grants[u].timestamp <= g.timestamp
    ensures forall j, k :: 0 <= j < k < |batch| ==> batch[j].id < batch[k].id
    ensures forall e :: e in batch ==> e.id < |history|
  {
    var selected := Selected(history);
    SelectedIff(history, i);
    LinksAreAll(grants, selected, batch);
    assert Waiting(history, i) == set j: nat | j < i && history[j].origin == None && history[j].result;
    if history[i] in selected && HasOrigin(grants, history[i]) {
      var e :| e in batch && LinkOf(grants, history[i], e);
      assert e.id == i;
    }
    forall e | e in batch
      ensures e.id < |history| && history[e.id] in selected && LinkOf(grants, history[e.id], e)
    {
      var x :| x in selected && LinkOf(grants, x, e);
    }
    if e :| e in batch && e.id == i {
      assert Eligible(grants[e.origin.value], history[i]);
    } else if t :| t in grants && Eligible(grants[t], history[i]) {
      assert HasOrigin(grants, history[i]);
    }
  }

  /** A job is sent exactly when some record waits, even if none of them has an origin. */
  lemma SentIff(history: seq<Record>)
    ensures Selected(history) != [] <==>
            exists i :: 0 <= i < |history| && history[i].origin == None && history[i].result
  {
    UnprocessedCount(history);
    if i :| 0 <= i < |history| && history[i].origin == None && history[i].result {
      UnprocessedAt(history, i);
    } else {
      assert Waiting(history, |history|) == {};
    }
  }
}
