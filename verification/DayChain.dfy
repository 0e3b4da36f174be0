/** Job chains over a day of transactions, for account statistics and for the daily transaction count. */
module DayChain {
  import opened Options
  import opened Sequences
  import opened TransferStats
  import opened RawTransfers

  /*
   Each job reads the next hundred transactions after its `_id` and sends the next job to the queue, until a job
   finds none.
   */

  const PAGE := 100

  /** `addresses` are the account addresses in the transaction's coin_received and coin_spent events. */
  datatype Tx = Tx(id: nat, messages: seq<Raw>, addresses: seq<Address>)

  predicate Ascending(day: seq<Tx>) {
    forall i, j :: 0 <= i < j < |day| ==> day[i].id < day[j].id
  }

  predicate Later(tx: Tx, cursor: Option<nat>) {
    cursor.Some? ==> cursor.value < tx.id
  }

  function After(day: seq<Tx>, cursor: Option<nat>): seq<Tx> {
    if day == [] then []
    else After(day[..|day| - 1], cursor) + if Later(day[|day| - 1], cursor) then [day[|day| - 1]] else []
  }

  /** The answer to `_id > cursor`, sorted by `_id`, limit 100. */
  function Page(day: seq<Tx>, cursor: Option<nat>): seq<Tx> {
    var all := After(day, cursor);
    if |all| <= PAGE then all else all[..PAGE]
  }

  function CursorAt(day: seq<Tx>, k: nat): Option<nat>
    requires k <= |day|
  {
    if k == 0 then None else Some(day[k - 1].id)
  }

  lemma {:induction false} AfterIsRest(day: seq<Tx>, k: nat, whole: seq<Tx>)
    requires Ascending(whole) && day <= whole && k <= |whole|
    ensures After(day, CursorAt(whole, k)) == if k <= |day| then day[k..] else []
  {
    if day != [] {
      var n := |day| - 1;
      AfterIsRest(day[..n], k, whole);
      assert day[n] == whole[n];
      if k <= n { assert day[k..] == day[..n][k..] + [day[n]]; }
    }
  }

  /** The job that starts behind the first `k` transactions reads the next hundred of them. */
  lemma PageIsNext(day: seq<Tx>, k: nat)
    requires Ascending(day) && k <= |day|
    ensures Page(day, if k == 0 then None else Some(day[k - 1].id)) == day[k..Min(k + 100, |day|)]
  {
    AfterIsRest(day, k, day);
  }

  function Messages(txs: seq<Tx>): seq<Raw> {
    if txs == [] then [] else Messages(txs[..|txs| - 1]) + txs[|txs| - 1].messages
  }

  function Addresses(txs: seq<Tx>): seq<Address> {
    if txs == [] then [] else Addresses(txs[..|txs| - 1]) + txs[|txs| - 1].addresses
  }

  lemma {:induction false} MessagesConcat(a: seq<Tx>, b: seq<Tx>)
    ensures Messages(a + b) == Messages(a) + Messages(b)
  {
    if b == [] {
      assert a + b == a;
    } else {
      assert (a + b)[..|a + b| - 1] == a + b[..|b| - 1];
      MessagesConcat(a, b[..|b| - 1]);
    }
  }

  lemma {:induction false} AddressesConcat(a: seq<Tx>, b: seq<Tx>)
    ensures Addresses(a + b) == Addresses(a) + Addresses(b)
  {
    if b == [] {
      assert a + b == a;
    } else {
      assert (a + b)[..|a + b| - 1] == a + b[..|b| - 1];
      AddressesConcat(a, b[..|b| - 1]);
    }
  }

  lemma {:induction false} AddressesAre(txs: seq<Tx>, a: Address)
    ensures a in Addresses(txs) <==> exists i :: 0 <= i < |txs| && a in txs[i].addresses
  {
    if txs != [] {
      var n := |txs| - 1;
      AddressesAre(txs[..n], a);
      if i :| 0 <= i < n && a in txs[..n][i].addresses { assert a in txs[i].addresses; }
      if i :| 0 <= i < |txs| && a in txs[i].addresses && i < n { assert a in txs[..n][i].addresses; }
    }
  }

  /** The addresses of a day are those of its transactions. */
  lemma AddressSet(txs: seq<Tx>)
    ensures (set a | a in Addresses(txs)) == set i, a | 0 <= i < |txs| && a in txs[i].addresses :: a
  {
    forall a
      ensures a in Addresses(txs) <==> exists i :: 0 <= i < |txs| && a in txs[i].addresses
    {
      AddressesAre(txs, a);
    }
  }

  // ----- distinct addresses -----

  method OnlyUnique(s: seq<Address>) returns (r: seq<Address>)
    ensures r == Unique(s)
  {
    r := [];
    for i := 0 to |s|
      invariant r == Unique(s[..i])
    {
      UniqueMembers(s[..i]);
      assert s[..i + 1][..i] == s[..i];
      if s[i] !in r {
        r := r + [s[i]];
      }
    }
    assert s[..|s|] == s;
  }

  /** Enough jobs for `n` transactions, a hundred each, and no more. */
  predicate Enough(n: nat, jobs: nat) {
    n <= jobs * PAGE && (jobs == 0 || (jobs - 1) * PAGE < n)
  }

  // ----- account statistics -----

  datatype StatsJob = StatsJob(id: Option<nat>, listData: seq<Item>)

  class CrawlAccountStatsChain {
    const day: seq<Tx>
    var queue: seq<StatsJob>
    var consumed: seq<Tx>              // every transaction a job has processed, in order
    var finished: Option<seq<Item>>    // `listData` of the job that found nothing

    constructor (day: seq<Tx>)
      ensures this.day == day && queue == [StatsJob(None, [])] && consumed == [] && finished == None
    {
      this.day := day;
      queue, consumed, finished := [StatsJob(None, [])], [], None;
    }

    method HandleJob(job: StatsJob)
      modifies this
      ensures var page := Page(day, job.id);
              if page == [] then
                queue == old(queue) && finished == Some(job.listData) && consumed == old(consumed)
              else
                && queue == old(queue) + [StatsJob(Some(page[|page| - 1].id), FoldPage(job.listData, Messages(page)))]
                && finished == old(finished) && consumed == old(consumed) + page
    {
      var dailyTxs := Page(day, job.id);
      if |dailyTxs| > 0 {
        var listData := HandleTxs(job.listData, dailyTxs);
        consumed := consumed + dailyTxs;
        var newId := dailyTxs[|dailyTxs| - 1].id;
        queue := queue + [StatsJob(Some(newId), listData)];
      } else {
        finished := Some(job.listData);
      }
    }

    /** The only job of the queue starts behind the first `k` transactions, which have been consumed. */
    ghost predicate Waiting(k: nat)
      reads this
    {
      k <= |day| && consumed == day[..k] && |queue| == 1 && JobAt(day, queue[0], k)
    }

    ghost predicate Finished()
      reads this
    {
      queue == [] && consumed == day && finished == Some(FoldDay([], day))
    }

    method TakeJob(ghost k: nat)
      requires Ascending(day) && Waiting(k)
      modifies this
      ensures k == |day| ==> Finished()
      ensures k < |day| ==> Waiting(Min(k + PAGE, |day|))
    {
      var job := queue[0];
      queue := queue[1..];
      PageStep(day, k);
      FoldStep(day, k, job.listData);
      assert day[..|day|] == day;
      HandleJob(job);
    }

    /** The queue's worker: takes job after job until the queue is empty. */
    method RunDay() returns (jobs: nat)
      requires Ascending(day)
      requires queue == [StatsJob(None, [])] && consumed == [] && finished == None
      modifies this
      ensures queue == [] && consumed == day
      ensures finished == Some(FoldDay([], day))
      ensures jobs > 0 && Enough(|day|, jobs - 1)
    {
      jobs := 0;
      ghost var k := 0;
      NothingFolded(day);
      while queue != []
        invariant if queue == [] then Finished() && jobs > 0 && Enough(|day|, jobs - 1)
                  else Waiting(k) && if k < |day| then k == jobs * PAGE else Enough(|day|, jobs)
        decreases |day| - k, |queue|
      {
        TakeJob(k);
        jobs := jobs + 1;
        k := Min(k + PAGE, |day|);
      }
    }
  }

  /** The day folded page by page. */
  function FoldDay(list: seq<Item>, txs: seq<Tx>): seq<Item>
    decreases |txs|
  {
    if txs == [] then list
    else FoldDay(FoldPage(list, Messages(txs[..Min(PAGE, |txs|)])), txs[Min(PAGE, |txs|)..])
  }

  /** The job behind the first `k` transactions: what it goes on to makes the fold of the whole day. */
  ghost predicate JobAt(day: seq<Tx>, job: StatsJob, k: nat)
    requires k <= |day|
  {
    job.id == CursorAt(day, k) && FoldDay([], day) == FoldDay(job.listData, day[k..])
  }

  lemma NothingFolded(day: seq<Tx>)
    ensures JobAt(day, StatsJob(None, []), 0) && day[..0] == []
  {
  }

  /** The page behind the first `k` transactions, and the cursor behind it. */
  lemma PageStep(day: seq<Tx>, k: nat)
    requires Ascending(day) && k <= |day|
    ensures var n := Min(k + PAGE, |day|);
            && Page(day, CursorAt(day, k)) == day[k..n]
            && (k < n ==> Some(day[k..n][n - k - 1].id) == CursorAt(day, n))
            && day[..k] + day[k..n] == day[..n]
  {
    PageIsNext(day, k);
  }

  lemma FoldStep(day: seq<Tx>, k: nat, list: seq<Item>)
    requires k <= |day|
    ensures var n := Min(k + PAGE, |day|);
            FoldDay(list, day[k..]) == if k == n then list else FoldDay(FoldPage(list, Messages(day[k..n])), day[n..])
  {
    var n, rest := Min(k + PAGE, |day|), day[k..];
    if k < n {
      assert Min(PAGE, |rest|) == n - k;
      assert rest[..n - k] == day[k..n] && rest[n - k..] == day[n..];
    }
  }

  // ----- one pass -----

  /** What the day's jobs read: each page up to the first message that throws. */
  function ReadDay(txs: seq<Tx>): seq<Message>
    decreases |txs|
  {
    if txs == [] then []
    else Read(Messages(txs[..Min(PAGE, |txs|)])) + ReadDay(txs[Min(PAGE, |txs|)..])
  }

  function BrokenPages(txs: seq<Tx>): nat
    decreases |txs|
  {
    if txs == [] then 0
    else (if AllReadable(Messages(txs[..Min(PAGE, |txs|)])) then 0 else 1) + BrokenPages(txs[Min(PAGE, |txs|)..])
  }

  /** On a day of readable messages the job chain is one pass over all of them. */
  lemma {:induction false} OnePass(list: seq<Item>, txs: seq<Tx>)
    requires AllReadable(Messages(txs))
    ensures FoldDay(list, txs) == Fold(list, ReadDay(txs)) && ReadDay(txs) == Read(Messages(txs))
    decreases |txs|
  {
    if txs != [] {
      var n := Min(PAGE, |txs|);
      var page, rest := txs[..n], txs[n..];
      assert txs == page + rest;
      MessagesConcat(page, rest);
      ReadConcat(Messages(page), Messages(rest));
      FoldReadable(list, Messages(page));
      OnePass(FoldPage(list, Messages(page)), rest);
      FoldConcat(list, Read(Messages(page)), ReadDay(rest));
    }
  }

  /**
   On any day the amounts of every address are exactly those of the messages read, and a transaction count exceeds
   theirs by no more than one per broken page.
   */
  lemma {:induction false} DayCounts(list: seq<Item>, txs: seq<Tx>, a: Address, f: Figure)
    requires Distinct(list)
    ensures Distinct(FoldDay(list, txs))
    ensures var extra := FigureOf(FoldDay(list, txs), a, f) - FigureOf(list, a, f) - Contributions(ReadDay(txs), a, f);
            0 <= extra <= (if f == SentAmount || f == ReceivedAmount then 0 else BrokenPages(txs))
    decreases |txs|
  {
    if txs != [] {
      var n := Min(PAGE, |txs|);
      var page, rest := txs[..n], txs[n..];
      PageCounts(list, Messages(page), a, f);
      DayCounts(FoldPage(list, Messages(page)), rest, a, f);
      ContributionsConcat(Read(Messages(page)), ReadDay(rest), a, f);
    }
  }

  /** Everything up to transaction `n` of a page has been folded, and nothing has thrown. */
  ghost predicate FoldedTo(listData: seq<Item>, txs: seq<Tx>, n: nat, list: seq<Item>)
    requires n <= |txs|
  {
    list == FoldPage(listData, Messages(txs[..n])) && AllReadable(Messages(txs[..n]))
  }

  /** The loops over the transactions of a page and their messages, inside one `try`. */
  method HandleTxs(listData: seq<Item>, txs: seq<Tx>) returns (list: seq<Item>)
    ensures list == FoldPage(listData, Messages(txs))
  {
    list := listData;
    for i := 0 to |txs|
      invariant FoldedTo(listData, txs, i, list)
    {
      var ok;
      ok, list := HandleTx(listData, txs, i, list);
      if !ok {
        return;
      }
    }
    assert txs[..|txs|] == txs;
  }

  method HandleTx(ghost listData: seq<Item>, txs: seq<Tx>, i: nat, before: seq<Item>)
    returns (ok: bool, list: seq<Item>)
    requires i < |txs| && FoldedTo(listData, txs, i, before)
    ensures ok ==> FoldedTo(listData, txs, i + 1, list)
    ensures !ok ==> list == FoldPage(listData, Messages(txs))
  {
    ok, list := HandleMessages(before, txs[i].messages);
    TxRead(listData, txs, i);
    if !ok { PageEnds(listData, txs, i + 1); }
  }

  /** The next transaction of a page, when nothing has thrown before it. */
  lemma TxRead(list: seq<Item>, txs: seq<Tx>, i: nat)
    requires i < |txs| && AllReadable(Messages(txs[..i]))
    ensures FoldPage(list, Messages(txs[..i + 1])) == FoldPage(FoldPage(list, Messages(txs[..i])), txs[i].messages)
    ensures AllReadable(Messages(txs[..i + 1])) <==> AllReadable(txs[i].messages)
  {
    assert txs[..i + 1][..i] == txs[..i];
    FoldPageConcat(list, Messages(txs[..i]), txs[i].messages);
    ReadConcat(Messages(txs[..i]), txs[i].messages);
  }

  /** When a message of a page throws, the transactions behind it add nothing. */
  lemma PageEnds(list: seq<Item>, txs: seq<Tx>, n: nat)
    requires n <= |txs| && !AllReadable(Messages(txs[..n]))
    ensures FoldPage(list, Messages(txs)) == FoldPage(list, Messages(txs[..n]))
  {
    assert txs == txs[..n] + txs[n..];
    MessagesConcat(txs[..n], txs[n..]);
    FoldPageConcat(list, Messages(txs[..n]), Messages(txs[n..]));
  }

  // ----- daily transactions -----

  datatype DailyJob = DailyJob(id: Option<nat>, txCount: nat, activeAddrs: seq<Address>)

  class CrawlDailyTxChain {
    const day: seq<Tx>
    var queue: seq<DailyJob>
    var finished: Option<(nat, nat)>  // daily_txs and daily_active_addresses

    constructor (day: seq<Tx>)
      ensures this.day == day && queue == [DailyJob(None, 0, [])] && finished == None
    {
      this.day := day;
      queue, finished := [DailyJob(None, 0, [])], None;
    }

    method HandleJob(job: DailyJob)
      modifies this
      ensures var page := Page(day, job.id);
              if page == [] then
                queue == old(queue) && finished == Some((job.txCount, |Unique(job.activeAddrs)|))
              else
                && finished == old(finished)
                && queue == old(queue) + [DailyJob(Some(page[|page| - 1].id), job.txCount + |page|,
                                                   Unique(job.activeAddrs + Addresses(page)))]
    {
      var dailyTxs := Page(day, job.id);
      if |dailyTxs| > 0 {
        var listAddresses: seq<Address> := [];
        for i := 0 to |dailyTxs|
          invariant queue == old(queue) && finished == old(finished)
          invariant listAddresses == Addresses(dailyTxs[..i])
        {
          assert dailyTxs[..i + 1][..i] == dailyTxs[..i];
          listAddresses := listAddresses + dailyTxs[i].addresses;
        }
        assert dailyTxs[..|dailyTxs|] == dailyTxs;
        var activeAddrs := OnlyUnique(job.activeAddrs + listAddresses);
        var newId := dailyTxs[|dailyTxs| - 1].id;
        queue := queue + [DailyJob(Some(newId), job.txCount + |dailyTxs|, activeAddrs)];
      } else {
        var unique := OnlyUnique(job.activeAddrs);
        finished := Some((job.txCount, |unique|));
      }
    }

    /** Takes the only job of the queue, the one that starts behind the first `k` transactions. */
    method TakeJob(ghost k: nat)
      requires Ascending(day) && k <= |day| && |queue| == 1 && DailyJobAt(day, queue[0], k)
      modifies this
      ensures k == |day| ==> queue == [] && finished == Some((|day|, |Unique(Addresses(day))|))
      ensures k < |day| ==> |queue| == 1 && DailyJobAt(day, queue[0], Min(k + PAGE, |day|)) && finished == old(finished)
    {
      var job := queue[0];
      queue := queue[1..];
      DailyStep(day, k);
      HandleJob(job);
    }

    /** The day's count is its number of transactions and of distinct addresses. */
    method RunDay()
      requires Ascending(day)
      requires queue == [DailyJob(None, 0, [])] && finished == None
      modifies this
      ensures queue == []
      ensures finished == Some((|day|, |set i, a | 0 <= i < |day| && a in day[i].addresses :: a|))
    {
      ghost var k := 0;
      while queue != []
        invariant 0 <= k <= |day|
        invariant queue == [] ==> finished == Some((|day|, |Unique(Addresses(day))|))
        invariant queue != [] ==> |queue| == 1 && DailyJobAt(day, queue[0], k)
        decreases |day| - k, |queue|
      {
        TakeJob(k);
        k := Min(k + PAGE, |day|);
      }
      UniqueCounts(Addresses(day));
      AddressSet(day);
    }
  }

  /** The job that has counted the first `k` transactions. */
  ghost predicate DailyJobAt(day: seq<Tx>, job: DailyJob, k: nat)
    requires k <= |day|
  {
    job.id == CursorAt(day, k) && job.txCount == k && job.activeAddrs == Unique(Addresses(day[..k]))
  }

  lemma DailyStep(day: seq<Tx>, k: nat)
    requires Ascending(day) && k <= |day|
    ensures var n := Min(k + PAGE, |day|);
            && Page(day, CursorAt(day, k)) == day[k..n]
            && (k < n ==> Some(day[k..n][n - k - 1].id) == CursorAt(day, n))
            && Unique(Unique(Addresses(day[..k])) + Addresses(day[k..n])) == Unique(Addresses(day[..n]))
            && Unique(Unique(Addresses(day[..k]))) == Unique(Addresses(day[..k]))
            && day[..|day|] == day
  {
    var n := Min(k + PAGE, |day|);
    PageStep(day, k);
    assert day[..k] + day[k..n] == day[..n];
    AddressesConcat(day[..k], day[k..n]);
    UniqueInTwoGoes(Addresses(day[..k]), Addresses(day[k..n]));
    UniqueTwice(Addresses(day[..k]));
  }
}
