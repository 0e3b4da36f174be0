/**
 The delay-job services: the timer collection, the periodic handler that takes up expired timers, and one
 unbonding or redelegation crawl.
 */
module DelayJobs {
  import opened Options
  import opened DelayJobRuns
  import opened Sequences

  const PAGE := 100
  const ENOUGH := 1000

  datatype Doc = Doc(id: nat, timer: Timer)

  datatype CrawlQueue = Balances | SpendableBalances | Unbonds | Redelegates

  datatype Enqueued = Enqueued(queue: CrawlQueue, address: Address)

  predicate Ordered(docs: seq<Doc>) {
    forall i, j :: 0 <= i < j < |docs| ==> docs[i].timer.expireTime <= docs[j].timer.expireTime
  }

  predicate DistinctDocs(docs: seq<Doc>) {
    forall i, j :: 0 <= i < j < |docs| ==> docs[i].id != docs[j].id
  }

  predicate Expired(d: Doc, now: int) {
    d.timer.expireTime + GRACE < now
  }

  /** The crawls that one expired timer asks for. */
  function CrawlsFor(t: Timer): seq<Enqueued> {
    match t.kind
    case CrawlTimer(Redelegate) => [Enqueued(Redelegates, t.address)]
    case CrawlTimer(Unbond) =>
      [Enqueued(Balances, t.address), Enqueued(SpendableBalances, t.address), Enqueued(Unbonds, t.address)]
    case DelayedVesting => [Enqueued(SpendableBalances, t.address)]
  }

  function QueueOf(kind: Kind): CrawlQueue {
    if kind == Unbond then Unbonds else Redelegates
  }

  /** The queues the protocol's crawls run in are those the handler feeds, and no other timer feeds them. */
  lemma HandlerFeedsCrawler(t: Timer, kind: Kind, a: Address)
    ensures Enqueued(QueueOf(kind), a) in CrawlsFor(t) <==> t.kind == CrawlTimer(kind) && t.address == a
  {
  }

  /** A timer asks once for each crawl of its own address that its type calls for, and for no other. */
  lemma TimerAsksFor(t: Timer, q: CrawlQueue, a: Address)
    ensures multiset(CrawlsFor(t))[Enqueued(q, a)] ==
            if t.address != a then 0
            else
              match t.kind
              case CrawlTimer(Unbond) => if q == Redelegates then 0 else 1
              case CrawlTimer(Redelegate) => if q == Redelegates then 1 else 0
              case DelayedVesting => if q == SpendableBalances then 1 else 0
  {
  }

  function CrawlsForAll(docs: seq<Doc>): seq<Enqueued> {
    if docs == [] then [] else CrawlsForAll(docs[..|docs| - 1]) + CrawlsFor(docs[|docs| - 1].timer)
  }

  function CountExpired(docs: seq<Doc>, now: int): (r: nat)
    ensures r <= |docs|
  {
    if docs == [] then 0
    else CountExpired(docs[..|docs| - 1], now) + if Expired(docs[|docs| - 1], now) then 1 else 0
  }

  /** In expiry order the expired timers come first. */
  lemma {:induction false} ExpiredComeFirst(docs: seq<Doc>, now: int)
    requires Ordered(docs)
    ensures forall i :: 0 <= i < |docs| ==> (Expired(docs[i], now) <==> i < CountExpired(docs, now))
  {
    if docs != [] {
      var n := |docs| - 1;
      ExpiredComeFirst(docs[..n], now);
      if Expired(docs[n], now) && n > 0 {
        assert docs[n - 1].timer.expireTime <= docs[n].timer.expireTime;
        assert Expired(docs[..n][n - 1], now);
      }
    }
  }

  /** How many timers one handler run takes up. */
  function Taken(docs: seq<Doc>, now: int): (r: nat)
    ensures r <= |docs| && r <= ENOUGH
  {
    Min(ENOUGH, CountExpired(docs, now))
  }

  /** The timers of an address whose type calls for a crawl. */
  function Asking(docs: seq<Doc>, n: nat, q: CrawlQueue, a: Address): set<nat>
    requires n <= |docs|
  {
    set i: nat | i < n && docs[i].timer.address == a && CallsFor(docs[i].timer.kind, q)
  }

  predicate CallsFor(kind: TimerType, q: CrawlQueue) {
    match q
    case Balances => kind == CrawlTimer(Unbond)
    case SpendableBalances => kind == CrawlTimer(Unbond) || kind == DelayedVesting
    case Unbonds => kind == CrawlTimer(Unbond)
    case Redelegates => kind == CrawlTimer(Redelegate)
  }

  /** A run asks for a crawl as often as there are timers of its address whose type calls for it. */
  lemma {:induction false} RunAsksFor(docs: seq<Doc>, q: CrawlQueue, a: Address)
    ensures multiset(CrawlsForAll(docs))[Enqueued(q, a)] == |Asking(docs, |docs|, q, a)|
  {
    if docs != [] {
      var before, last := docs[..|docs| - 1], docs[|docs| - 1];
      assert docs == before + [last];
      RunAsksFor(before, q, a);
      LastAsks(before, last, q, a);
      LastAsking(before, last, q, a);
    }
  }

  function Asks(t: Timer, q: CrawlQueue, a: Address): nat {
    if t.address == a && CallsFor(t.kind, q) then 1 else 0
  }

  lemma {:induction false} LastAsks(before: seq<Doc>, last: Doc, q: CrawlQueue, a: Address)
    ensures multiset(CrawlsForAll(before + [last]))[Enqueued(q, a)] ==
            multiset(CrawlsForAll(before))[Enqueued(q, a)] + Asks(last.timer, q, a)
  {
    CrawlsForLast(before, last);
    CountsAdd(CrawlsForAll(before), CrawlsFor(last.timer), Enqueued(q, a));
    AsksOnce(last.timer, q, a);
  }

  lemma {:induction false} CrawlsForLast(before: seq<Doc>, last: Doc)
    ensures CrawlsForAll(before + [last]) == CrawlsForAll(before) + CrawlsFor(last.timer)
  {
    assert (before + [last])[..|before|] == before;
  }

  lemma AsksOnce(t: Timer, q: CrawlQueue, a: Address)
    ensures multiset(CrawlsFor(t))[Enqueued(q, a)] == Asks(t, q, a)
  {
    TimerAsksFor(t, q, a);
  }

  lemma {:induction false} LastAsking(before: seq<Doc>, last: Doc, q: CrawlQueue, a: Address)
    ensures |Asking(before + [last], |before + [last]|, q, a)| ==
            |Asking(before, |before|, q, a)| + Asks(last.timer, q, a)
  {
    AskingFirst(before, last, q, a);
    AskingNext(before + [last], |before|, q, a);
  }

  lemma AskingFirst(before: seq<Doc>, last: Doc, q: CrawlQueue, a: Address)
    ensures Asking(before + [last], |before|, q, a) == Asking(before, |before|, q, a)
  {
  }

  lemma AskingWith(docs: seq<Doc>, n: nat, q: CrawlQueue, a: Address)
    requires n < |docs|
    ensures Asking(docs, n + 1, q, a) == Asking(docs, n, q, a) + if Asks(docs[n].timer, q, a) == 1 then {n} else {}
  {
  }

  lemma AskingNext(docs: seq<Doc>, n: nat, q: CrawlQueue, a: Address)
    requires n < |docs|
    ensures |Asking(docs, n + 1, q, a)| == |Asking(docs, n, q, a)| + Asks(docs[n].timer, q, a)
  {
    AskingWith(docs, n, q, a);
    assert n !in Asking(docs, n, q, a);
  }

  lemma CountsAdd(x: seq<Enqueued>, y: seq<Enqueued>, e: Enqueued)
    ensures multiset(x + y)[e] == multiset(x)[e] + multiset(y)[e]
  {
  }

  /** A run takes exactly those of the first 1000 timers that expired more than seven seconds ago. */
  lemma TakenIff(docs: seq<Doc>, now: int, i: nat)
    requires forall j, k :: 0 <= j < k < |docs| ==> docs[j].timer.expireTime <= docs[k].timer.expireTime
    requires i < |docs|
    ensures i < Taken(docs, now) <==> i < 1000 && docs[i].timer.expireTime + 7000 < now
  {
    ExpiredComeFirst(docs, now);
  }

  function AfterRuns(docs: seq<Doc>, now: int, runs: nat): seq<Doc> {
    if runs == 0 then docs else AfterRuns(docs[Taken(docs, now)..], now, runs - 1)
  }

  lemma CountDrop(docs: seq<Doc>, now: int, k: nat)
    requires Ordered(docs) && k <= CountExpired(docs, now)
    ensures CountExpired(docs[k..], now) == CountExpired(docs, now) - k
  {
    ExpiredComeFirst(docs, now);
    ExpiredComeFirst(docs[k..], now);
    var c, d := CountExpired(docs, now), CountExpired(docs[k..], now);
    if k + d < |docs| {
      assert docs[k..][d] == docs[k + d];
    }
    if d > 0 {
      assert docs[k..][d - 1] == docs[k + d - 1];
    }
  }

  lemma {:induction false} AfterRunsIs(docs: seq<Doc>, now: int, runs: nat)
    requires Ordered(docs) && CountExpired(docs, now) <= 1000 * runs
    ensures AfterRuns(docs, now, runs) == docs[CountExpired(docs, now)..]
  {
    if runs > 0 {
      var rest := docs[Taken(docs, now)..];
      AfterOneRun(docs, now, runs);
      AfterRunsIs(rest, now, runs - 1);
      OneRunFirst(docs, now, runs, rest, rest[CountExpired(rest, now)..]);
    }
  }

  lemma {:induction false} OneRunFirst(docs: seq<Doc>, now: int, runs: nat, rest: seq<Doc>, after: seq<Doc>)
    requires runs > 0 && rest == docs[Taken(docs, now)..] && AfterRuns(rest, now, runs - 1) == after
    ensures AfterRuns(docs, now, runs) == after
  {
  }

  lemma {:induction false} AfterOneRun(docs: seq<Doc>, now: int, runs: nat)
    requires Ordered(docs) && runs > 0 && CountExpired(docs, now) <= 1000 * runs
    ensures var rest := docs[Taken(docs, now)..];
            && Ordered(rest) && CountExpired(rest, now) <= 1000 * (runs - 1)
            && rest[CountExpired(rest, now)..] == docs[CountExpired(docs, now)..]
  {
    var k, c := Taken(docs, now), CountExpired(docs, now);
    CountDrop(docs, now, k);
    LessToExpire(c, k, runs);
    DropTwice(docs, k, c);
  }

  lemma LessToExpire(c: nat, k: nat, runs: nat)
    requires runs > 0 && c <= 1000 * runs && (k == c || k == ENOUGH)
    ensures c - k <= 1000 * (runs - 1)
  {
  }

  lemma DropTwice(docs: seq<Doc>, k: nat, c: nat)
    requires k <= c <= |docs|
    ensures docs[k..][c - k..] == docs[c..]
  {
  }

  /** No starvation: every run clears 1000 expired timers, so enough runs leave none, and take no other timer. */
  lemma NoStarvation(docs: seq<Doc>, now: int, runs: nat)
    requires Ordered(docs) && CountExpired(docs, now) <= 1000 * runs
    ensures AfterRuns(docs, now, runs) == docs[CountExpired(docs, now)..]
    ensures forall d :: d in AfterRuns(docs, now, runs) ==> !Expired(d, now)
  {
    AfterRunsIs(docs, now, runs);
    NoneExpiredBehind(docs, now);
  }

  lemma NoneExpiredBehind(docs: seq<Doc>, now: int)
    requires Ordered(docs)
    ensures forall d :: d in docs[CountExpired(docs, now)..] ==> !Expired(d, now)
  {
  }

  /** A run takes up only expired timers, the earliest ones, and leaves an expired one only when it took 1000. */
  lemma EarliestGoFirst(docs: seq<Doc>, now: int, i: nat, j: nat)
    requires Ordered(docs) && i < Taken(docs, now) <= j < |docs|
    ensures Expired(docs[i], now) && docs[i].timer.expireTime <= docs[j].timer.expireTime
    ensures Expired(docs[j], now) ==> Taken(docs, now) == ENOUGH
  {
    ExpiredComeFirst(docs, now);
  }

  lemma InsertOrdered(a: seq<Doc>, d: Doc, b: seq<Doc>)
    requires Ordered(a + b)
    requires forall x :: x in a ==> x.timer.expireTime <= d.timer.expireTime
    requires b != [] ==> d.timer.expireTime < b[0].timer.expireTime
    ensures Ordered(a + [d] + b)
  {
    var w := a + b;
    forall j | 0 <= j < |b|
      ensures d.timer.expireTime < b[j].timer.expireTime
    {
      assert b[0] == w[|a|] && b[j] == w[|a| + j];
    }
    forall i, j | 0 <= i < j < |a + [d] + b|
      ensures (a + [d] + b)[i].timer.expireTime <= (a + [d] + b)[j].timer.expireTime
    {
      var v := a + [d] + b;
      if i < |a| { assert v[i] == w[i] && v[i] in a; } else if i > |a| { assert v[i] == w[i - 1]; }
      if j < |a| { assert v[j] == w[j]; } else if j > |a| { assert v[j] == w[j - 1] == b[j - 1 - |a|]; }
    }
  }

  lemma InsertDistinct(a: seq<Doc>, d: Doc, b: seq<Doc>)
    requires DistinctDocs(a + b)
    requires forall x :: x in a + b ==> x.id != d.id
    ensures DistinctDocs(a + [d] + b)
  {
    var v, w := a + [d] + b, a + b;
    forall i, j | 0 <= i < j < |v|
      ensures v[i].id != v[j].id
    {
      var x, y := if i <= |a| then i else i - 1, if j <= |a| then j else j - 1;
      if i != |a| { assert v[i] == w[x] && w[x] in w; }
      if j != |a| { assert v[j] == w[y] && w[y] in w; }
    }
  }

  lemma RestStaysOrdered(docs: seq<Doc>, i: nat)
    requires i < |docs| && Ordered(docs) && DistinctDocs(docs)
    ensures var rest := docs[..i] + docs[i + 1..];
            Ordered(rest) && DistinctDocs(rest) && forall d :: d in rest ==> d in docs
  {
  }

  class DelayJobService {
    var docs: seq<Doc>  // the collection in expire_time order
    var nextId: nat

    ghost predicate Valid()
      reads this
    {
      Ordered(docs) && DistinctDocs(docs) && forall d :: d in docs ==> d.id < nextId
    }

    constructor ()
      ensures Valid() && docs == []
    {
      docs, nextId := [], 0;
    }

    /** One page of the collection sorted by expire_time. */
    method Find(limit: nat, offset: nat) returns (jobs: seq<Doc>)
      ensures jobs == docs[Min(offset, |docs|)..Min(offset + limit, |docs|)]
    {
      jobs := docs[Min(offset, |docs|)..Min(offset + limit, |docs|)];
    }

    /** Pages through the collection until it has 1000 timers or runs out. */
    method FindPendingJobs() returns (result: seq<Doc>)
      ensures result == docs[..Min(ENOUGH, |docs|)]
    {
      result := [];
      var done, offset := false, 0;
      while !done
        invariant 0 <= offset <= ENOUGH && offset % PAGE == 0
        invariant result == docs[..Min(offset, |docs|)]
        invariant !done ==> offset < ENOUGH || |docs| < ENOUGH
        invariant done ==> offset == ENOUGH || |docs| <= offset
        decreases !done, ENOUGH - offset
      {
        var jobs := Find(PAGE, offset);
        if |jobs| > 0 {
          result := result + jobs;
          offset := offset + PAGE;
        } else {
          done := true;
        }
        if |result| >= ENOUGH {
          done := true;
        }
      }
    }

    method AddNewJob(timer: Timer)
      requires Valid()
      modifies this
      ensures Valid() && nextId == old(nextId) + 1
      ensures multiset(docs) == multiset(old(docs)) + multiset{Doc(old(nextId), timer)}
    {
      var d := Doc(nextId, timer);
      var i := 0;
      while i < |docs| && docs[i].timer.expireTime <= timer.expireTime
        invariant 0 <= i <= |docs|
        invariant forall j :: 0 <= j < i ==> docs[j].timer.expireTime <= timer.expireTime
      {
        i := i + 1;
      }
      ghost var before := docs;
      assert before == before[..i] + before[i..];
      InsertOrdered(before[..i], d, before[i..]);
      InsertDistinct(before[..i], d, before[i..]);
      docs := docs[..i] + [d] + docs[i..];
      nextId := nextId + 1;
    }

    /** `removeById`; `at` is where the document was, if it was there. */
    method DeleteFinishedJob(id: nat) returns (at: Option<nat>)
      requires Valid()
      modifies this`docs
      ensures Valid()
      ensures at.None? ==> docs == old(docs) && forall d :: d in docs ==> d.id != id
      ensures at.Some? ==> at.value < |old(docs)| && old(docs)[at.value].id == id &&
                           docs == old(docs)[..at.value] + old(docs)[at.value + 1..]
    {
      var i := 0;
      while i < |docs| && docs[i].id != id
        invariant 0 <= i <= |docs|
        invariant forall j :: 0 <= j < i ==> docs[j].id != id
      {
        i := i + 1;
      }
      if i < |docs| {
        RestStaysOrdered(docs, i);
        docs := docs[..i] + docs[i + 1..];
        return Some(i);
      }
      return None;
    }
  }

  class HandleDelayJobService {
    const timers: DelayJobService
    var enqueued: seq<Enqueued>  // every crawl this service has asked for

    constructor (timers: DelayJobService)
      ensures this.timers == timers && enqueued == []
    {
      this.timers := timers;
      enqueued := [];
    }

    /** Takes up the expired ones among the first 1000 timers: their crawls are enqueued, then they are deleted. */
    method HandleJob(now: int)
      requires timers.Valid()
      modifies this`enqueued, timers`docs
      ensures timers.Valid()
      ensures timers.docs == old(timers.docs)[Taken(old(timers.docs), now)..]
      ensures enqueued == old(enqueued) + CrawlsForAll(old(timers.docs)[..Taken(old(timers.docs), now)])
    {
      ghost var all := timers.docs;
      var currentJobs := timers.FindPendingJobs();
      ExpiredComeFirst(all, now);
      var finished := EnqueueExpired(currentJobs, now, all, CountExpired(all, now));
      DeleteAll(finished);
    }

    /** Deletes the timers at the front of the collection, one by one. */
    method DeleteAll(finished: seq<nat>)
      requires timers.Valid() && |finished| <= |timers.docs|
      requires forall j :: 0 <= j < |finished| ==> finished[j] == timers.docs[j].id
      modifies timers`docs
      ensures timers.Valid() && timers.docs == old(timers.docs)[|finished|..]
    {
      ghost var all := timers.docs;
      for i := 0 to |finished|
        invariant timers.Valid() && timers.docs == all[i..]
      {
        assert timers.docs[0] == all[i];
        DeleteFirst(finished[i]);
        assert all[i..][1..] == all[i + 1..];
      }
    }

    method DeleteFirst(id: nat)
      requires timers.Valid() && |timers.docs| > 0 && timers.docs[0].id == id
      modifies timers`docs
      ensures timers.Valid() && timers.docs == old(timers.docs)[1..]
    {
      var at := timers.DeleteFinishedJob(id);
    }

    /** The first loop; the first `count` timers of the collection are expired. */
    method EnqueueExpired(currentJobs: seq<Doc>, now: int, ghost all: seq<Doc>, ghost count: nat)
      returns (finished: seq<nat>)
      requires currentJobs == all[..Min(ENOUGH, |all|)] && count <= |all|
      requires forall i :: 0 <= i < |all| ==> (Expired(all[i], now) <==> i < count)
      modifies this`enqueued
      ensures |finished| == Min(ENOUGH, count) && forall j :: 0 <= j < |finished| ==> finished[j] == all[j].id
      ensures enqueued == old(enqueued) + CrawlsForAll(all[..|finished|])
    {
      finished := [];
      ghost var before := enqueued;
      for i := 0 to |currentJobs|
        invariant |finished| <= count && (|finished| == i || (|finished| == count && count < i))
        invariant forall j :: 0 <= j < |finished| ==> finished[j] == all[j].id
        invariant enqueued == before + CrawlsForAll(all[..|finished|])
      {
        var job := currentJobs[i];
        assert job == all[i];
        if job.timer.expireTime + GRACE < now {
          CrawlsOneMore(all, i);
          Enqueue(job.timer);
          finished := finished + [job.id];
        }
      }
    }

    lemma CrawlsOneMore(all: seq<Doc>, i: nat)
      requires i < |all|
      ensures CrawlsForAll(all[..i + 1]) == CrawlsForAll(all[..i]) + CrawlsFor(all[i].timer)
    {
      assert all[..i + 1][..i] == all[..i];
    }

    method Enqueue(timer: Timer)
      modifies this`enqueued
      ensures enqueued == old(enqueued) + CrawlsFor(timer)
    {
      match timer.kind {
        case CrawlTimer(Redelegate) =>
          enqueued := enqueued + [Enqueued(Redelegates, timer.address)];
        case CrawlTimer(Unbond) =>
          enqueued := enqueued + [Enqueued(Balances, timer.address)];
          enqueued := enqueued + [Enqueued(SpendableBalances, timer.address)];
          enqueued := enqueued + [Enqueued(Unbonds, timer.address)];
        case DelayedVesting =>
          enqueued := enqueued + [Enqueued(SpendableBalances, timer.address)];
      }
    }
  }
}
