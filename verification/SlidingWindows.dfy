/**
 The account-statistics windows, updated in place once a day, against the full daily history they summarise.
 */
module SlidingWindows {
  import opened Options
  import opened Sequences
  import opened TransferStats
  import opened Percentages

  const WEEK := 7
  const THREE := 3

  type Series = map<Address, seq<Counters>>

  function LastN(s: seq<Counters>, n: nat): (r: seq<Counters>)
    ensures |r| == if |s| < n then |s| else n
  {
    if |s| <= n then s else s[|s| - n..]
  }

  function SumOf(days: seq<Counters>, f: Figure): int {
    if days == [] then 0 else SumOf(days[..|days| - 1], f) + Value(days[|days| - 1], f)
  }

  function Sums(days: seq<Counters>): Counters {
    Counters(SumOf(days, SentTxs), SumOf(days, ReceivedTxs), SumOf(days, SentAmount), SumOf(days, ReceivedAmount))
  }

  lemma SumsOfOne(day: Counters)
    ensures Sums([day]) == day
  {
    SumOfOne(day, SentTxs);
    SumOfOne(day, ReceivedTxs);
    SumOfOne(day, SentAmount);
    SumOfOne(day, ReceivedAmount);
  }

  lemma SumOfOne(day: Counters, f: Figure)
    ensures SumOf([day], f) == Value(day, f)
  {
  }

  /** A window of a window is a window of the whole. */
  lemma WindowOfWindow(s: seq<Counters>, day: Counters)
    ensures var w := LastN(s, WEEK);
            var shifted := if |w| == WEEK then w[1..] else w;
            shifted + [day] == LastN(s + [day], WEEK)
    ensures LastN(LastN(s, WEEK), THREE) == LastN(s, THREE)
  {
  }

  /** The document of an account. */
  datatype Account = Account(
    address: Address, perDay: seq<Counters>, oneDay: Counters, threeDays: Counters, sevenDays: Counters)

  /** The windows that summarise a whole history. */
  predicate Summarises(account: Account, days: seq<Counters>) {
    && days != []
    && account.perDay == LastN(days, WEEK)
    && account.oneDay == days[|days| - 1]
    && account.threeDays == Sums(LastN(days, THREE))
    && account.sevenDays == Sums(LastN(days, WEEK))
  }

  lemma {:induction false} SumOfConcat(days: seq<Counters>, more: seq<Counters>, f: Figure)
    ensures SumOf(days + more, f) == SumOf(days, f) + SumOf(more, f)
  {
    if more == [] {
      assert days + more == days;
    } else {
      assert (days + more)[..|days + more| - 1] == days + more[..|more| - 1];
      SumOfConcat(days, more[..|more| - 1], f);
    }
  }

  /** The day `k` days before the last, idle before the first. */
  function Ago(days: seq<Counters>, k: nat): Counters {
    if k < |days| then days[|days| - 1 - k] else Counters(0, 0, 0, 0)
  }

  /** One day more in a window, when there is one. */
  lemma LastOneMore(days: seq<Counters>, n: nat, f: Figure)
    ensures SumOf(LastN(days, n + 1), f) == SumOf(LastN(days, n), f) + Value(Ago(days, n), f)
  {
    if n < |days| {
      var oldest := [days[|days| - 1 - n]];
      assert LastN(days, n + 1) == oldest + LastN(days, n);
      SumOfConcat(oldest, LastN(days, n), f);
      SumOfOne(oldest[0], f);
    }
  }

  lemma SumOfThree(days: seq<Counters>, f: Figure)
    ensures SumOf(LastN(days, 3), f) == Value(Ago(days, 0), f) + Value(Ago(days, 1), f) + Value(Ago(days, 2), f)
  {
    LastOneMore(days, 0, f);
    LastOneMore(days, 1, f);
    LastOneMore(days, 2, f);
    assert LastN(days, 0) == [];
  }

  lemma SumOfSeven(days: seq<Counters>, f: Figure)
    ensures SumOf(LastN(days, 7), f) ==
            SumOf(LastN(days, 3), f)
            + Value(Ago(days, 3), f) + Value(Ago(days, 4), f) + Value(Ago(days, 5), f) + Value(Ago(days, 6), f)
  {
    LastOneMore(days, 3, f);
    LastOneMore(days, 4, f);
    LastOneMore(days, 5, f);
    LastOneMore(days, 6, f);
  }

  /** The windows figure by figure, read off the last seven days. */
  lemma {:induction false} WindowsInFigures(account: Account, days: seq<Counters>)
    requires Summarises(account, days)
    ensures |account.perDay| == Min(7, |days|) && account.oneDay == days[|days| - 1]
    ensures forall i :: 0 <= i < |account.perDay| ==>
              account.perDay[i] == days[|days| - |account.perDay| + i]
    ensures var a, b, c, three := Ago(days, 0), Ago(days, 1), Ago(days, 2), account.threeDays;
            && three.sentTxs == a.sentTxs + b.sentTxs + c.sentTxs
            && three.receivedTxs == a.receivedTxs + b.receivedTxs + c.receivedTxs
            && three.sentAmount == a.sentAmount + b.sentAmount + c.sentAmount
            && three.receivedAmount == a.receivedAmount + b.receivedAmount + c.receivedAmount
    ensures var d, e, f, g := Ago(days, 3), Ago(days, 4), Ago(days, 5), Ago(days, 6);
            var three, seven := account.threeDays, account.sevenDays;
            && seven.sentTxs == three.sentTxs + d.sentTxs + e.sentTxs + f.sentTxs + g.sentTxs
            && seven.receivedTxs == three.receivedTxs + d.receivedTxs + e.receivedTxs + f.receivedTxs + g.receivedTxs
            && seven.sentAmount == three.sentAmount + d.sentAmount + e.sentAmount + f.sentAmount + g.sentAmount
            && seven.receivedAmount ==
                 three.receivedAmount + d.receivedAmount + e.receivedAmount + f.receivedAmount + g.receivedAmount
  {
    forall f: Figure
      ensures account.perDay == LastN(days, 7)
      ensures SumOf(LastN(days, 3), f) == Value(Ago(days, 0), f) + Value(Ago(days, 1), f) + Value(Ago(days, 2), f)
      ensures SumOf(LastN(days, 7), f) ==
              SumOf(LastN(days, 3), f)
              + Value(Ago(days, 3), f) + Value(Ago(days, 4), f) + Value(Ago(days, 5), f) + Value(Ago(days, 6), f)
    {
      SumOfThree(days, f);
      SumOfSeven(days, f);
    }
  }

  method Reduce(days: seq<Counters>) returns (r: Counters)
    ensures r == Sums(days)
  {
    var a, b, c, d := 0, 0, 0, 0;
    for i := 0 to |days|
      invariant Counters(a, b, c, d) == Sums(days[..i])
    {
      assert days[..i + 1][..i] == days[..i];
      a, b := a + days[i].sentTxs, b + days[i].receivedTxs;
      c, d := c + days[i].sentAmount, d + days[i].receivedAmount;
    }
    assert days[..|days|] == days;
    r := Counters(a, b, c, d);
  }

  /** A new account: its first day fills every window. */
  method NewAccount(address: Address, day: Counters) returns (account: Account)
    ensures account.address == address && Summarises(account, [day])
  {
    SumsOfOne(day);
    account := Account(address, [day], day, day, day);
  }

  /** One more day: the oldest of seven leaves, the new one enters, the sums are taken again. */
  method Advance(account: Account, day: Counters, ghost days: seq<Counters>) returns (r: Account)
    requires Summarises(account, days)
    ensures r.address == account.address && Summarises(r, days + [day])
  {
    WindowOfWindow(days, day);
    WindowOfWindow(days + [day], day);
    var perDay := account.perDay;
    if |perDay| == WEEK {
      perDay := perDay[1..];
    }
    perDay := perDay + [day];
    var lastThreeDays := if |perDay| > THREE then perDay[|perDay| - THREE..] else perDay;
    var threeDays := Reduce(lastThreeDays);
    var sevenDays := Reduce(perDay);
    r := Account(account.address, perDay, day, threeDays, sevenDays);
  }

  /** What a day adds to an address: its listed counters, or an idle day. */
  function DayOf(listData: seq<Item>, a: Address): Counters {
    Counters(FigureOf(listData, a, SentTxs), FigureOf(listData, a, ReceivedTxs),
             FigureOf(listData, a, SentAmount), FigureOf(listData, a, ReceivedAmount))
  }

  function HistoryOf(series: Series, a: Address): seq<Counters> {
    if a in series then series[a] else []
  }

  function OneDayMore(series: Series, a: Address, day: Counters): Series {
    series[a := HistoryOf(series, a) + [day]]
  }

  function AddressesOf(listData: seq<Item>): set<Address> {
    set item | item in listData :: item.address
  }

  /** Every known or newly listed account gets exactly one more day. */
  function NextDay(series: Series, listData: seq<Item>): Series {
    map a | a in series.Keys + AddressesOf(listData) :: HistoryOf(series, a) + [DayOf(listData, a)]
  }

  lemma DayOfItem(listData: seq<Item>, i: nat)
    requires Distinct(listData) && i < |listData|
    ensures DayOf(listData, listData[i].address) == listData[i].counters
  {
    FigureAt(listData, i, SentTxs);
    FigureAt(listData, i, ReceivedTxs);
    FigureAt(listData, i, SentAmount);
    FigureAt(listData, i, ReceivedAmount);
  }

  lemma IdleDay(listData: seq<Item>, a: Address)
    requires !Has(listData, a)
    ensures DayOf(listData, a) == Counters(0, 0, 0, 0)
  {
    FigureAbsent(listData, a, SentTxs);
    FigureAbsent(listData, a, ReceivedTxs);
    FigureAbsent(listData, a, SentAmount);
    FigureAbsent(listData, a, ReceivedAmount);
  }

  predicate SameList(a: seq<Account>, b: seq<Account>) {
    |a| == |b| && forall i :: 0 <= i < |a| ==> a[i].address == b[i].address
  }

  predicate DistinctAccounts(accounts: seq<Account>) {
    forall i, j :: 0 <= i < j < |accounts| ==> accounts[i].address != accounts[j].address
  }

  function Known(accounts: seq<Account>): set<Address> {
    if accounts == [] then {} else Known(accounts[..|accounts| - 1]) + {accounts[|accounts| - 1].address}
  }

  lemma {:induction false} KnownIs(accounts: seq<Account>, a: Address)
    ensures a in Known(accounts) <==> exists i :: 0 <= i < |accounts| && accounts[i].address == a
  {
    if accounts != [] {
      var n := |accounts| - 1;
      KnownIs(accounts[..n], a);
      if a in Known(accounts[..n]) {
        var i :| 0 <= i < n && accounts[..n][i].address == a;
        assert accounts[i].address == a;
      }
    }
  }

  lemma {:induction false} KnownSame(accounts: seq<Account>, updated: seq<Account>)
    requires SameList(accounts, updated)
    ensures Known(accounts) == Known(updated)
  {
    if accounts != [] {
      KnownSame(accounts[..|accounts| - 1], updated[..|accounts| - 1]);
    }
  }

  predicate AllSummarise(accounts: seq<Account>, series: Series) {
    accounts == [] || (
      var last := accounts[|accounts| - 1];
      last.address in series && Summarises(last, series[last.address]) &&
        AllSummarise(accounts[..|accounts| - 1], series))
  }

  lemma {:induction false} SummariseAt(accounts: seq<Account>, series: Series, k: nat)
    requires AllSummarise(accounts, series) && k < |accounts|
    ensures accounts[k].address in series && Summarises(accounts[k], series[accounts[k].address])
  {
    if k < |accounts| - 1 { SummariseAt(accounts[..|accounts| - 1], series, k); }
  }

  lemma {:induction false} SummariseUpdate(accounts: seq<Account>, series: Series, k: nat, account: Account,
      days: seq<Counters>)
    requires AllSummarise(accounts, series) && DistinctAccounts(accounts) && k < |accounts|
    requires account.address == accounts[k].address && Summarises(account, days)
    ensures AllSummarise(accounts[k := account], series[account.address := days])
  {
    var n := |accounts| - 1;
    if k < n {
      SummariseUpdate(accounts[..n], series, k, account, days);
      assert accounts[k := account][..n] == accounts[..n][k := account];
    } else {
      assert accounts[k := account][..n] == accounts[..n];
      SummariseElsewhere(accounts[..n], series, account.address, days);
    }
  }

  lemma {:induction false} SummariseElsewhere(accounts: seq<Account>, series: Series, a: Address, days: seq<Counters>)
    requires AllSummarise(accounts, series) && forall i :: 0 <= i < |accounts| ==> accounts[i].address != a
    ensures AllSummarise(accounts, series[a := days])
  {
    if accounts != [] {
      SummariseElsewhere(accounts[..|accounts| - 1], series, a, days);
    }
  }

  /** One account per known address, each summarising its history. */
  ghost predicate Coherent(accounts: seq<Account>, series: Series) {
    DistinctAccounts(accounts) && Known(accounts) == series.Keys && AllSummarise(accounts, series)
  }

  lemma CoherentUpdate(accounts: seq<Account>, series: Series, k: nat, account: Account, days: seq<Counters>)
    requires Coherent(accounts, series) && k < |accounts|
    requires account.address == accounts[k].address && Summarises(account, days)
    ensures Coherent(accounts[k := account], series[account.address := days])
  {
    KnownSame(accounts, accounts[k := account]);
    SummariseAt(accounts, series, k);
    assert series[account.address := days].Keys == series.Keys;
    SummariseUpdate(accounts, series, k, account, days);
  }

  lemma CoherentExtend(accounts: seq<Account>, series: Series, account: Account, days: seq<Counters>)
    requires Coherent(accounts, series) && account.address !in series && Summarises(account, days)
    ensures Coherent(accounts + [account], series[account.address := days])
  {
    var more := accounts + [account];
    assert more[..|accounts|] == accounts;
    forall i | 0 <= i < |accounts|
      ensures accounts[i].address != account.address
    {
      SummariseAt(accounts, series, i);
    }
    SummariseElsewhere(accounts, series, account.address, days);
    assert series[account.address := days].Keys == series.Keys + {account.address};
  }

  // ----- percentages -----

  datatype Span = OneDay | ThreeDays | SevenDays

  /** What the service stores where a total is zero is NaN. */
  datatype Percent = NaN | Percent(value: real)

  /** The percentages of one account. */
  type Row = map<(Span, Figure), Percent>

  function WindowOf(account: Account, span: Span): Counters {
    match span
    case OneDay => account.oneDay
    case ThreeDays => account.threeDays
    case SevenDays => account.sevenDays
  }

  function Amounts(accounts: seq<Account>, span: Span, f: Figure): (r: seq<int>)
    ensures |r| == |accounts|
  {
    if accounts == [] then []
    else Amounts(accounts[..|accounts| - 1], span, f) + [Value(WindowOf(accounts[|accounts| - 1], span), f)]
  }

  function PercentOf(account: Account, span: Span, f: Figure, total: int): Percent {
    if total == 0 then NaN else Percent(Share(Value(WindowOf(account, span), f), total))
  }

  function TotalOf(accounts: seq<Account>, span: Span, f: Figure): int {
    Sum(Amounts(accounts, span, f))
  }

  lemma TotalOneMore(all: seq<Account>, i: nat, span: Span, f: Figure)
    requires i < |all|
    ensures TotalOf(all[..i + 1], span, f) == TotalOf(all[..i], span, f) + Value(WindowOf(all[i], span), f)
  {
    assert all[..i + 1][..i] == all[..i];
    var before, x := Amounts(all[..i], span, f), Value(WindowOf(all[i], span), f);
    assert (before + [x])[..|before|] == before;
  }

  /** A figure of a window relative to its total over `all`. */
  predicate InRow(row: Row, account: Account, all: seq<Account>, span: Span, f: Figure) {
    (span, f) in row && row[(span, f)] == PercentOf(account, span, f, TotalOf(all, span, f))
  }

  predicate RowOf(row: Row, account: Account, all: seq<Account>) {
    forall span, f :: InRow(row, account, all, span, f)
  }

  lemma {:induction false} AmountsAre(all: seq<Account>, span: Span, f: Figure)
    ensures Amounts(all, span, f) == seq(|all|, i requires 0 <= i < |all| => Value(WindowOf(all[i], span), f))
  {
    if all != [] { AmountsAre(all[..|all| - 1], span, f); }
  }

  /** A percentage times the sum of its window over all accounts is a hundred times the account's own, or it is NaN. */
  lemma {:induction false} RowReads(row: Row, account: Account, all: seq<Account>, f: Figure)
    requires RowOf(row, account, all)
    ensures var total := Sum(seq(|all|, i requires 0 <= i < |all| => Value(all[i].oneDay, f)));
            (OneDay, f) in row && IsPercent(row[(OneDay, f)], Value(account.oneDay, f), total)
    ensures var total := Sum(seq(|all|, i requires 0 <= i < |all| => Value(all[i].threeDays, f)));
            (ThreeDays, f) in row && IsPercent(row[(ThreeDays, f)], Value(account.threeDays, f), total)
    ensures var total := Sum(seq(|all|, i requires 0 <= i < |all| => Value(all[i].sevenDays, f)));
            (SevenDays, f) in row && IsPercent(row[(SevenDays, f)], Value(account.sevenDays, f), total)
  {
    forall span
      ensures (span, f) in row
      ensures IsPercent(row[(span, f)], Value(WindowOf(account, span), f), TotalOf(all, span, f))
    {
      assert InRow(row, account, all, span, f);
      PercentIs(account, span, f, TotalOf(all, span, f));
    }
    AmountsAre(all, OneDay, f);
    AmountsAre(all, ThreeDays, f);
    AmountsAre(all, SevenDays, f);
    assert Amounts(all, OneDay, f) == seq(|all|, i requires 0 <= i < |all| => Value(all[i].oneDay, f));
    assert Amounts(all, ThreeDays, f) == seq(|all|, i requires 0 <= i < |all| => Value(all[i].threeDays, f));
    assert Amounts(all, SevenDays, f) == seq(|all|, i requires 0 <= i < |all| => Value(all[i].sevenDays, f));
  }

  predicate IsPercent(p: Percent, amount: int, total: int) {
    if total == 0 then p == NaN else p.Percent? && p.value * total as real == amount as real * 100.0
  }

  lemma PercentIs(account: Account, span: Span, f: Figure, total: int)
    ensures IsPercent(PercentOf(account, span, f, total), Value(WindowOf(account, span), f), total)
  {
    if total != 0 {
      var amount := Value(WindowOf(account, span), f);
      ShareIs(amount, total, Share(amount, total));
    }
  }

  predicate PercentsOf(accounts: seq<Account>, percents: map<Address, Row>, all: seq<Account>) {
    forall i :: 0 <= i < |accounts| ==>
      accounts[i].address in percents && RowOf(percents[accounts[i].address], accounts[i], all)
  }

  function NumberIn(row: Row, span: Span, f: Figure): real {
    if (span, f) in row && row[(span, f)].Percent? then row[(span, f)].value else 0.0
  }

  /** The sum of one percentage over the accounts, as far as it is a number. */
  function PercentSum(accounts: seq<Account>, percents: map<Address, Row>, span: Span, f: Figure): real {
    if accounts == [] then 0.0
    else
      var n := |accounts| - 1;
      PercentSum(accounts[..n], percents, span, f) +
      if accounts[n].address in percents then NumberIn(percents[accounts[n].address], span, f) else 0.0
  }

  lemma {:induction false} PercentSumIs(accounts: seq<Account>, percents: map<Address, Row>, all: seq<Account>,
      span: Span, f: Figure)
    requires PercentsOf(accounts, percents, all) && TotalOf(all, span, f) != 0
    ensures PercentSum(accounts, percents, span, f) == ShareSum(Amounts(accounts, span, f), TotalOf(all, span, f))
  {
    if accounts != [] {
      var n := |accounts| - 1;
      PercentSumIs(accounts[..n], percents, all, span, f);
      assert Amounts(accounts, span, f)[..n] == Amounts(accounts[..n], span, f);
      assert InRow(percents[accounts[n].address], accounts[n], all, span, f);
    }
  }

  /** The percentages of a figure in a window add up to exactly 100 over all accounts, unless its total is zero. */
  lemma PercentsAreComplete(accounts: seq<Account>, percents: map<Address, Row>, span: Span, f: Figure)
    requires PercentsOf(accounts, percents, accounts) && TotalOf(accounts, span, f) != 0
    ensures PercentSum(accounts, percents, span, f) == 100.0
  {
    PercentSumIs(accounts, percents, accounts, span, f);
    SharesAreComplete(Amounts(accounts, span, f));
  }

  class AccountStatsService {
    var stored: seq<Account>     // the collection; the `_id` of a document is its position
    var percents: map<Address, Row>   // the percentages stored with the documents
    var accounts: seq<Account>   // `listAccountStats` of the job
    ghost var series: Series     // the whole daily history of every known account

    /** While a job works on the list of all accounts. */
    ghost predicate Valid()
      reads this
    {
      Coherent(accounts, series)
    }

    /** Between two days. */
    ghost predicate Settled()
      reads this
    {
      Coherent(stored, series) && PercentsOf(stored, percents, stored)
    }

    constructor ()
      ensures Settled() && stored == [] && series == map[]
    {
      stored, percents, accounts, series := [], map[], [], map[];
    }

    /** One page of the collection: the next hundred documents after an `_id`. */
    method FindAfter(id: Option<nat>) returns (result: seq<Account>)
      ensures var first := if id.Some? then id.value + 1 else 0;
              result == if first <= |stored| then stored[first..Min(first + 100, |stored|)] else []
    {
      var first := if id.Some? then id.value + 1 else 0;
      result := if first <= |stored| then stored[first..Min(first + 100, |stored|)] else [];
    }

    /** Pages through the collection until a page is empty. */
    method ReadAll() returns (listAccountStats: seq<Account>)
      ensures listAccountStats == stored
    {
      listAccountStats := [];
      var check, accountStatsId: Option<nat> := true, None;
      while check
        invariant listAccountStats <= stored
        invariant accountStatsId == if listAccountStats == [] then None else Some(|listAccountStats| - 1)
        invariant !check ==> listAccountStats == stored
        decreases check, |stored| - |listAccountStats|
      {
        var result := FindAfter(accountStatsId);
        if |result| > 0 {
          listAccountStats := listAccountStats + result;
          accountStatsId := Some(|listAccountStats| - 1);
        } else {
          check := false;
        }
      }
    }

    /** Updates the documents that have an `_id` and inserts the others. */
    method WriteBack()
      requires |stored| <= |accounts|
      modifies this`stored
      ensures stored == accounts
    {
      ghost var before := stored;
      for i := 0 to |accounts|
        invariant stored == accounts[..i] + if i <= |before| then before[i..] else []
      {
        if i < |stored| {
          stored := stored[i := accounts[i]];
        } else {
          stored := stored + [accounts[i]];
        }
      }
    }

    method Total(span: Span, f: Figure) returns (total: int)
      ensures total == TotalOf(accounts, span, f)
    {
      total := 0;
      var all := accounts;
      for i := 0 to |all|
        invariant total == TotalOf(all[..i], span, f)
      {
        TotalOneMore(all, i, span, f);
        total := total + Value(WindowOf(all[i], span), f);
      }
      assert all[..|all|] == all;
    }

    /** The percentages of all accounts, account by account. */
    method SetPercentages()
      requires DistinctAccounts(accounts)
      modifies this`percents
      ensures PercentsOf(accounts, percents, accounts)
    {
      for i := 0 to |accounts|
        invariant PercentsOf(accounts[..i], percents, accounts)
      {
        var row := Percentages(accounts[i]);
        percents := percents[accounts[i].address := row];
      }
      assert accounts[..|accounts|] == accounts;
    }

    /** Four figures of three windows. */
    method Percentages(element: Account) returns (row: Row)
      ensures RowOf(row, element, accounts)
    {
      row := map[];
      row := FigurePercentages(row, element, SentTxs);
      row := FigurePercentages(row, element, ReceivedTxs);
      row := FigurePercentages(row, element, SentAmount);
      row := FigurePercentages(row, element, ReceivedAmount);
      forall span, f
        ensures InRow(row, element, accounts, span, f)
      {
        assert f == SentTxs || f == ReceivedTxs || f == SentAmount || f == ReceivedAmount;
      }
    }

    method FigurePercentages(before: Row, element: Account, f: Figure) returns (row: Row)
      ensures forall span :: InRow(row, element, accounts, span, f)
      ensures forall span, g :: g != f && InRow(before, element, accounts, span, g) ==>
              InRow(row, element, accounts, span, g)
    {
      var oneDay := Total(OneDay, f);
      var threeDays := Total(ThreeDays, f);
      var sevenDays := Total(SevenDays, f);
      row := before[(OneDay, f) := PercentOf(element, OneDay, f, oneDay)]
                   [(ThreeDays, f) := PercentOf(element, ThreeDays, f, threeDays)]
                   [(SevenDays, f) := PercentOf(element, SevenDays, f, sevenDays)];
      forall span
        ensures InRow(row, element, accounts, span, f)
      {
        assert span == OneDay || span == ThreeDays || span == SevenDays;
      }
    }

    method FindAccount(a: Address) returns (k: nat)
      ensures k <= |accounts|
      ensures k < |accounts| ==> accounts[k].address == a
      ensures k == |accounts| ==> forall i :: 0 <= i < |accounts| ==> accounts[i].address != a
    {
      k := 0;
      while k < |accounts| && accounts[k].address != a
        invariant k <= |accounts|
        invariant forall i :: 0 <= i < k ==> accounts[i].address != a
      {
        k := k + 1;
      }
    }

    method AdvanceAt(k: nat, day: Counters)
      requires Valid() && k < |accounts|
      modifies this`accounts, this`series
      ensures Valid() && AddressList(accounts) == AddressList(old(accounts))
      ensures series == OneDayMore(old(series), old(accounts)[k].address, day)
    {
      ghost var a := accounts[k].address;
      SummariseAt(accounts, series, k);
      var account := Advance(accounts[k], day, series[a]);
      CoherentUpdate(accounts, series, k, account, series[a] + [day]);
      accounts := accounts[k := account];
      series := series[a := series[a] + [day]];
    }

    /** A listed address: its account advances by the listed counters, or is created with them. */
    method Active(item: Item)
      requires Valid()
      modifies this`accounts, this`series
      ensures Valid() && |old(accounts)| <= |accounts|
      ensures series == OneDayMore(old(series), item.address, item.counters)
    {
      var k := FindAccount(item.address);
      if k < |accounts| {
        AdvanceAt(k, item.counters);
      } else {
        KnownIs(accounts, item.address);
        assert item.address !in series && [] + [item.counters] == [item.counters];
        var account := NewAccount(item.address, item.counters);
        CoherentExtend(accounts, series, account, [item.counters]);
        accounts := accounts + [account];
        series := series[item.address := [item.counters]];
      }
    }

    /** The first pass, over `listData`. */
    method AdvanceListed(listData: seq<Item>)
      requires Valid() && Distinct(listData)
      modifies this`accounts, this`series
      ensures Valid() && |old(accounts)| <= |accounts|
      ensures series == Progress(old(series), listData, AddressesOf(listData), AddressesOf(listData))
    {
      for i := 0 to |listData|
        invariant Valid() && |old(accounts)| <= |accounts|
        invariant series == Progress(old(series), listData, AddressesOf(listData[..i]), AddressesOf(listData[..i]))
      {
        ghost var seen := AddressesOf(listData[..i]);
        DayOfItem(listData, i);
        NotYetListed(listData, i);
        ProgressStep(old(series), listData, seen, seen, listData[i].address);
        Active(listData[i]);
      }
      assert listData[..|listData|] == listData;
    }

    /** The second pass, over all accounts: those that are not listed have an idle day. */
    method AdvanceIdle(listData: seq<Item>, ghost before: Series)
      requires Valid()
      requires series == Progress(before, listData, AddressesOf(listData), AddressesOf(listData))
      modifies this`accounts, this`series
      ensures Valid() && |accounts| == |old(accounts)|
      ensures series == NextDay(before, listData)
    {
      ghost var addresses := AddressList(accounts);
      AddressListIs(accounts);
      IdleIsNextDay(before, listData, addresses);
      VisitAll(listData, addresses);
    }

    method VisitAll(listData: seq<Item>, ghost addresses: seq<Address>)
      requires Valid() && AddressList(accounts) == addresses
      modifies this`accounts, this`series
      ensures Valid() && AddressList(accounts) == addresses
      ensures series == AfterIdle(old(series), AddressesOf(listData), addresses)
    {
      ghost var start, listed := series, AddressesOf(listData);
      var n := |accounts|;
      for k := 0 to n
        invariant Valid() && AddressList(accounts) == addresses
        invariant series == AfterIdle(start, listed, addresses[..k])
      {
        OneMoreIdle(start, listed, addresses, k);
        IdleOne(listData, k);
      }
      assert addresses[..|addresses|] == addresses;
    }

    method IdleOne(listData: seq<Item>, k: nat)
      requires Valid() && k < |AddressList(accounts)|
      modifies this`accounts, this`series
      ensures Valid() && AddressList(accounts) == AddressList(old(accounts))
      ensures series == MaybeIdle(old(series), AddressesOf(listData), AddressList(old(accounts))[k])
    {
      var found := IsListed(listData, accounts[k].address);
      if !found {
        AdvanceAt(k, Counters(0, 0, 0, 0));
      }
    }

    method IsListed(listData: seq<Item>, a: Address) returns (found: bool)
      ensures found <==> Has(listData, a)
      ensures found <==> a in AddressesOf(listData)
    {
      found := false;
      for i := 0 to |listData|
        invariant found <==> Has(listData[..i], a)
      {
        assert listData[..i + 1] == listData[..i] + [listData[i]];
        ListedOneMore(listData[..i], listData[i], a);
        if listData[i].address == a {
          found := true;
        }
      }
      assert listData[..|listData|] == listData;
      ListedIsMember(listData, a);
    }

    /** The last job of the day: every account, new, active or idle, advances by exactly one day. */
    method FinishDay(listData: seq<Item>)
      requires Settled() && Distinct(listData)
      modifies this
      ensures Settled()
      ensures series == NextDay(old(series), listData)
    {
      accounts := ReadAll();
      AdvanceAll(listData);
      SetPercentages();
      WriteBack();
    }

    method AdvanceAll(listData: seq<Item>)
      requires Valid() && Distinct(listData)
      modifies this`accounts, this`series
      ensures Valid() && |old(accounts)| <= |accounts|
      ensures series == NextDay(old(series), listData)
    {
      AdvanceListed(listData);
      AdvanceIdle(listData, old(series));
    }
  }

  /** The histories part-way through a run: those of `known` accounts, the `moved` ones already a day longer. */
  ghost function Progress(before: Series, listData: seq<Item>, known: set<Address>, moved: set<Address>): Series {
    map a | a in before.Keys + known ::
      if a in moved then HistoryOf(before, a) + [DayOf(listData, a)] else HistoryOf(before, a)
  }

  lemma NotYetListed(listData: seq<Item>, i: nat)
    requires Distinct(listData) && i < |listData|
    ensures listData[i].address !in AddressesOf(listData[..i])
    ensures AddressesOf(listData[..i + 1]) == AddressesOf(listData[..i]) + {listData[i].address}
  {
  }

  lemma ProgressStep(before: Series, listData: seq<Item>, known: set<Address>, moved: set<Address>, a: Address)
    requires a !in moved
    ensures OneDayMore(Progress(before, listData, known, moved), a, DayOf(listData, a)) ==
            Progress(before, listData, known + {a}, moved + {a})
  {
  }

  ghost function MaybeIdle(series: Series, listed: set<Address>, a: Address): Series {
    if a in listed then series else OneDayMore(series, a, Counters(0, 0, 0, 0))
  }

  /** The second pass over accounts with these addresses. */
  ghost function AfterIdle(series: Series, listed: set<Address>, addresses: seq<Address>): Series {
    if addresses == [] then series
    else MaybeIdle(AfterIdle(series, listed, addresses[..|addresses| - 1]), listed, addresses[|addresses| - 1])
  }

  lemma OneMoreIdle(series: Series, listed: set<Address>, addresses: seq<Address>, k: nat)
    requires k < |addresses|
    ensures AfterIdle(series, listed, addresses[..k + 1]) ==
            MaybeIdle(AfterIdle(series, listed, addresses[..k]), listed, addresses[k])
  {
    assert addresses[..k + 1][..k] == addresses[..k];
  }

  function AddressList(accounts: seq<Account>): (r: seq<Address>)
    ensures |r| == |accounts| && forall i :: 0 <= i < |r| ==> r[i] == accounts[i].address
  {
    seq(|accounts|, i requires 0 <= i < |accounts| => accounts[i].address)
  }

  lemma AddressListIs(accounts: seq<Account>)
    requires DistinctAccounts(accounts)
    ensures NoAddressTwice(AddressList(accounts))
    ensures forall a :: a in AddressList(accounts) <==> a in Known(accounts)
  {
  }

  predicate NoAddressTwice(addresses: seq<Address>) {
    forall i, j :: 0 <= i < j < |addresses| ==> addresses[i] != addresses[j]
  }

  function Members(addresses: seq<Address>): set<Address> {
    set a | a in addresses
  }

  lemma {:induction false} IdleIsProgress(before: Series, listData: seq<Item>, listed: set<Address>,
      addresses: seq<Address>)
    requires NoAddressTwice(addresses) && listed == AddressesOf(listData)
    requires forall a :: a in addresses ==> a in before || a in listed
    ensures AfterIdle(Progress(before, listData, listed, listed), listed, addresses) ==
            Progress(before, listData, listed, listed + Members(addresses))
  {
    if addresses == [] {
      assert listed + Members(addresses) == listed;
    } else {
      var first, a := addresses[..|addresses| - 1], addresses[|addresses| - 1];
      assert addresses == first + [a];
      IdleIsProgress(before, listData, listed, first);
      IdleStep(before, listData, listed, listed + Members(first), a);
      assert listed + Members(addresses) == listed + Members(first) + {a};
    }
  }

  lemma IdleStep(before: Series, listData: seq<Item>, listed: set<Address>, moved: set<Address>, a: Address)
    requires listed == AddressesOf(listData) && listed <= moved
    requires a in listed || (a !in moved && a in before)
    ensures MaybeIdle(Progress(before, listData, listed, moved), listed, a) ==
            Progress(before, listData, listed, moved + {a})
  {
    if a in listed {
      assert moved + {a} == moved;
    } else {
      ListedIsMember(listData, a);
      IdleDay(listData, a);
      ProgressIdle(before, listData, listed, moved, a);
    }
  }

  lemma IdleIsNextDay(before: Series, listData: seq<Item>, addresses: seq<Address>)
    requires NoAddressTwice(addresses)
    requires var listed := AddressesOf(listData);
             forall a :: a in addresses <==> a in Progress(before, listData, listed, listed)
    ensures var listed := AddressesOf(listData);
            AfterIdle(Progress(before, listData, listed, listed), listed, addresses) == NextDay(before, listData)
  {
    IdleIsProgress(before, listData, AddressesOf(listData), addresses);
    ProgressDone(before, listData, Members(addresses));
  }

  lemma ProgressIdle(before: Series, listData: seq<Item>, known: set<Address>, moved: set<Address>, a: Address)
    requires a !in moved && a in before
    ensures OneDayMore(Progress(before, listData, known, moved), a, DayOf(listData, a)) ==
            Progress(before, listData, known, moved + {a})
  {
  }

  lemma ProgressDone(before: Series, listData: seq<Item>, visited: set<Address>)
    requires before.Keys + AddressesOf(listData) <= visited
    ensures Progress(before, listData, AddressesOf(listData), AddressesOf(listData) + visited) ==
            NextDay(before, listData)
  {
  }

  lemma ListedOneMore(listData: seq<Item>, item: Item, a: Address)
    ensures Has(listData + [item], a) <==> Has(listData, a) || item.address == a
  {
    if Has(listData, a) {
      var i :| 0 <= i < |listData| && listData[i].address == a;
      assert (listData + [item])[i].address == a;
    }
    assert (listData + [item])[|listData|] == item;
  }

  lemma ListedIsMember(listData: seq<Item>, a: Address)
    ensures Has(listData, a) <==> a in AddressesOf(listData)
  {
  }

  // ----- many days -----

  /** The history of an account over a run of days: zeros when idle, from the first day it is listed. */
  function DailySeries(days: seq<seq<Item>>, a: Address): seq<Counters> {
    if days == [] then []
    else
      var before, today := DailySeries(days[..|days| - 1], a), days[|days| - 1];
      if before != [] || a in AddressesOf(today) then before + [DayOf(today, a)] else []
  }

  function AfterDays(days: seq<seq<Item>>): Series {
    if days == [] then map[] else NextDay(AfterDays(days[..|days| - 1]), days[|days| - 1])
  }

  /** After any days the known accounts are those listed so far, each with its own daily series. */
  lemma {:induction false} AfterDaysIs(days: seq<seq<Item>>, a: Address)
    ensures a in AfterDays(days) <==> DailySeries(days, a) != []
    ensures HistoryOf(AfterDays(days), a) == DailySeries(days, a)
  {
    if days != [] {
      AfterDaysIs(days[..|days| - 1], a);
    }
  }

  /**
   A service run from empty over any number of days has stored, for every account, the windows of its whole series,
   and percentages that add up.
   */
  method RunDays(days: seq<seq<Item>>) returns (service: AccountStatsService)
    requires forall d :: d in days ==> Distinct(d)
    ensures fresh(service) && service.Settled() && service.series == AfterDays(days)
    ensures forall i :: 0 <= i < |service.stored| ==>
              Summarises(service.stored[i], DailySeries(days, service.stored[i].address))
    ensures forall span, f :: TotalOf(service.stored, span, f) != 0 ==>
              PercentSum(service.stored, service.percents, span, f) == 100.0
  {
    service := new AccountStatsService();
    for i := 0 to |days|
      invariant fresh(service) && service.Settled()
      invariant service.series == AfterDays(days[..i])
    {
      assert days[..i + 1][..i] == days[..i] && days[i] in days;
      service.FinishDay(days[i]);
    }
    assert days[..|days|] == days;
    forall i | 0 <= i < |service.stored|
      ensures Summarises(service.stored[i], DailySeries(days, service.stored[i].address))
    {
      SummariseAt(service.stored, service.series, i);
      AfterDaysIs(days, service.stored[i].address);
    }
    forall span, f | TotalOf(service.stored, span, f) != 0
      ensures PercentSum(service.stored, service.percents, span, f) == 100.0
    {
      PercentsAreComplete(service.stored, service.percents, span, f);
    }
  }
}
