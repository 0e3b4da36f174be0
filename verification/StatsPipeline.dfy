/** The whole account-statistics pipeline, from the messages of each day to the windows of each account. */
module StatsPipeline {
  import opened Options
  import opened TransferStats
  import opened DayChain
  import opened DayMeaning
  import opened SlidingWindows

  /*
   The job chain folds each day's transactions, and the last job of the chain advances the windows; in the end every
   window speaks of the messages themselves.
   */

  /** What a day says of an address, page after page. */
  function Activity(txs: seq<Tx>, a: Address): Counters {
    Counters(DayFigure(txs, a, SentTxs, false), DayFigure(txs, a, ReceivedTxs, false),
             DayFigure(txs, a, SentAmount, false), DayFigure(txs, a, ReceivedAmount, false))
  }

  /** The history of an address, day by day, from the first day that involves it. */
  function History(days: seq<seq<Tx>>, a: Address): seq<Counters> {
    if days == [] then []
    else
      var before, today := History(days[..|days| - 1], a), days[|days| - 1];
      if before != [] || DayInvolves(today, a) then before + [Activity(today, a)] else []
  }

  /** On a day of whole messages it is what all its messages say, and those who are involved are those they concern. */
  lemma WholeDayActivity(txs: seq<Tx>, a: Address)
    requires WholeDay(txs)
    ensures Activity(txs, a) == Counters(DaySum(txs, a, SentTxs), DaySum(txs, a, ReceivedTxs),
                                         DaySum(txs, a, SentAmount), DaySum(txs, a, ReceivedAmount))
    ensures DayInvolves(txs, a) <==> SomeConcerns(txs, a)
  {
    WholeDayMeans(txs, a, SentTxs, false);
    WholeDayMeans(txs, a, ReceivedTxs, false);
    WholeDayMeans(txs, a, SentAmount, false);
    WholeDayMeans(txs, a, ReceivedAmount, false);
  }

  /** What the fold of a day says of an address is what its messages say. */
  lemma FoldedDay(txs: seq<Tx>, a: Address)
    ensures Distinct(FoldDay([], txs)) && DayOf(FoldDay([], txs), a) == Activity(txs, a)
    ensures a in AddressesOf(FoldDay([], txs)) <==> DayInvolves(txs, a)
  {
    DayMeans([], txs, a, SentTxs);
    DayMeans([], txs, a, ReceivedTxs);
    DayMeans([], txs, a, SentAmount);
    DayMeans([], txs, a, ReceivedAmount);
    ListedIsMember(FoldDay([], txs), a);
  }

  function Folds(days: seq<seq<Tx>>): (r: seq<seq<Item>>)
    ensures |r| == |days|
  {
    if days == [] then [] else Folds(days[..|days| - 1]) + [FoldDay([], days[|days| - 1])]
  }

  /** The series the windows summarise are the histories the messages tell. */
  lemma {:induction false} SeriesAreHistories(days: seq<seq<Tx>>, a: Address)
    ensures DailySeries(Folds(days), a) == History(days, a)
  {
    if days != [] {
      var before := days[..|days| - 1];
      SeriesAreHistories(before, a);
      FoldedDay(days[|days| - 1], a);
      assert Folds(days)[..|before|] == Folds(before);
    }
  }

  lemma OneMoreFold(days: seq<seq<Tx>>, i: nat)
    requires i < |days|
    ensures AfterDays(Folds(days[..i + 1])) == NextDay(AfterDays(Folds(days[..i])), FoldDay([], days[i]))
  {
    assert days[..i + 1][..i] == days[..i];
    assert Folds(days[..i + 1])[..i] == Folds(days[..i]);
  }

  lemma StoredTellHistories(stored: seq<Account>, series: Series, days: seq<seq<Tx>>)
    requires Coherent(stored, series) && series == AfterDays(Folds(days))
    ensures forall a :: a in Known(stored) <==> History(days, a) != []
    ensures forall i :: 0 <= i < |stored| ==> Summarises(stored[i], History(days, stored[i].address))
  {
    forall a ensures a in series <==> History(days, a) != [] {
      AfterDaysIs(Folds(days), a);
      SeriesAreHistories(days, a);
    }
    forall i | 0 <= i < |stored|
      ensures Summarises(stored[i], History(days, stored[i].address))
    {
      SummariseAt(stored, series, i);
      AfterDaysIs(Folds(days), stored[i].address);
      SeriesAreHistories(days, stored[i].address);
    }
  }

  /** One day: the chain of jobs over its transactions, and the last job's update of the windows. */
  method RunOneDay(service: AccountStatsService, day: seq<Tx>)
    requires service.Settled() && Ascending(day)
    modifies service
    ensures service.Settled()
    ensures service.series == NextDay(old(service.series), FoldDay([], day))
  {
    var chain := new CrawlAccountStatsChain(day);
    var jobs := chain.RunDay();
    FoldedDay(day, "");
    service.FinishDay(chain.finished.value);
  }

  /**
   After any days, started from nothing: the stored accounts are the addresses their messages involve, and each
   account's windows summarise what the messages say of it, day by day.
   */
  method RunPipeline(days: seq<seq<Tx>>) returns (service: AccountStatsService)
    requires forall d :: d in days ==> Ascending(d)
    ensures fresh(service) && service.Settled()
    ensures forall a :: a in Known(service.stored) <==> History(days, a) != []
    ensures forall i :: 0 <= i < |service.stored| ==>
              Summarises(service.stored[i], History(days, service.stored[i].address))
  {
    service := new AccountStatsService();
    for i := 0 to |days|
      invariant fresh(service) && service.Settled()
      invariant service.series == AfterDays(Folds(days[..i]))
    {
      assert days[i] in days;
      OneMoreFold(days, i);
      RunOneDay(service, days[i]);
    }
    assert days[..|days|] == days;
    StoredTellHistories(service.stored, service.series, days);
  }
}
