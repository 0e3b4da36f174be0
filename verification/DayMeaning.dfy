/**
 What a whole day of transactions means for an address, exactly, read off its messages.
 */
module DayMeaning {
  import opened Options
  import opened Sequences
  import opened TransferStats
  import opened RawTransfers
  import opened TransferMeaning
  import opened DayChain

  // ----- the messages and addresses of a day -----

  /** With `MessagesConcat` this leaves no other choice for the messages of a day. */
  lemma MessagesOfOne(tx: Tx)
    ensures Messages([]) == [] && Messages([tx]) == tx.messages
  {
    assert [tx][..0] == [] && [] + tx.messages == tx.messages;
  }

  // ----- any day -----

  /** A day's figure of an address: page after page of a hundred transactions. */
  function DayFigure(txs: seq<Tx>, a: Address, f: Figure, listed: bool): int
    decreases |txs|
  {
    if txs == [] then 0
    else
      var page, rest := Messages(txs[..Min(100, |txs|)]), txs[Min(100, |txs|)..];
      PageMeaning(page, a, f) + PageSlip(page, a, f, listed) + DayFigure(rest, a, f, listed || PageInvolves(page, a))
  }

  predicate DayInvolves(txs: seq<Tx>, a: Address)
    decreases |txs|
  {
    txs != [] && (PageInvolves(Messages(txs[..Min(100, |txs|)]), a) || DayInvolves(txs[Min(100, |txs|)..], a))
  }

  /** The figures the day's jobs leave, exactly, and the addresses they list. */
  lemma {:induction false} DayMeans(list: seq<Item>, txs: seq<Tx>, a: Address, f: Figure)
    requires Distinct(list)
    ensures Distinct(FoldDay(list, txs))
    ensures FigureOf(FoldDay(list, txs), a, f) == FigureOf(list, a, f) + DayFigure(txs, a, f, Has(list, a))
    ensures Has(FoldDay(list, txs), a) <==> Has(list, a) || DayInvolves(txs, a)
    decreases |txs|
  {
    if txs != [] {
      var page, rest := Messages(txs[..Min(100, |txs|)]), txs[Min(100, |txs|)..];
      PageMeans(list, page, a, f);
      DayMeans(FoldPage(list, page), rest, a, f);
    }
  }

  // ----- a day of whole messages -----

  predicate WholeDay(txs: seq<Tx>) {
    forall i :: 0 <= i < |txs| ==> AllWhole(txs[i].messages)
  }

  /** Message by message, transaction by transaction. */
  function Sum(raws: seq<Raw>, a: Address, f: Figure): int {
    if raws == [] then 0 else Sum(raws[..|raws| - 1], a, f) + Meaning(raws[|raws| - 1], a, f)
  }

  function DaySum(txs: seq<Tx>, a: Address, f: Figure): int {
    if txs == [] then 0 else DaySum(txs[..|txs| - 1], a, f) + Sum(txs[|txs| - 1].messages, a, f)
  }

  lemma {:induction false} SumConcat(x: seq<Raw>, y: seq<Raw>, a: Address, f: Figure)
    ensures Sum(x + y, a, f) == Sum(x, a, f) + Sum(y, a, f)
  {
    if y == [] {
      assert x + y == x;
    } else {
      assert (x + y)[..|x + y| - 1] == x + y[..|y| - 1];
      SumConcat(x, y[..|y| - 1], a, f);
    }
  }

  lemma {:induction false} DaySumConcat(x: seq<Tx>, y: seq<Tx>, a: Address, f: Figure)
    ensures DaySum(x + y, a, f) == DaySum(x, a, f) + DaySum(y, a, f)
  {
    if y == [] {
      assert x + y == x;
    } else {
      assert (x + y)[..|x + y| - 1] == x + y[..|y| - 1];
      DaySumConcat(x, y[..|y| - 1], a, f);
    }
  }

  lemma {:induction false} PageIsSum(raws: seq<Raw>, a: Address, f: Figure)
    requires AllWhole(raws)
    ensures PageMeaning(raws, a, f) == Sum(raws, a, f)
  {
    if raws != [] {
      PageIsSum(raws[1..], a, f);
      SumConcat([raws[0]], raws[1..], a, f);
      assert [raws[0]] + raws[1..] == raws && [raws[0]][..0] == [];
    }
  }

  /** The messages of transactions, one by one: their sum, and whom they involve. */
  lemma {:induction false} MessagesAre(txs: seq<Tx>, a: Address, f: Figure)
    ensures Sum(Messages(txs), a, f) == DaySum(txs, a, f)
    ensures WholeDay(txs) ==> AllWhole(Messages(txs))
  {
    if txs != [] {
      var n := |txs| - 1;
      MessagesAre(txs[..n], a, f);
      SumConcat(Messages(txs[..n]), txs[n].messages, a, f);
    }
  }

  predicate Concerns(raws: seq<Raw>, a: Address) {
    exists j :: 0 <= j < |raws| && Involves(raws[j], a)
  }

  lemma ConcernsConcat(x: seq<Raw>, y: seq<Raw>, a: Address)
    ensures Concerns(x + y, a) <==> Concerns(x, a) || Concerns(y, a)
  {
    if j :| 0 <= j < |x| && Involves(x[j], a) { assert Involves((x + y)[j], a); }
    if j :| 0 <= j < |y| && Involves(y[j], a) { assert Involves((x + y)[|x| + j], a); }
    if j :| 0 <= j < |x + y| && Involves((x + y)[j], a) && j >= |x| { assert Involves(y[j - |x|], a); }
  }

  predicate SomeConcerns(txs: seq<Tx>, a: Address) {
    exists i :: 0 <= i < |txs| && Concerns(txs[i].messages, a)
  }

  lemma SomeConcat(x: seq<Tx>, y: seq<Tx>, a: Address)
    ensures SomeConcerns(x + y, a) <==> SomeConcerns(x, a) || SomeConcerns(y, a)
  {
    if i :| 0 <= i < |x| && Concerns(x[i].messages, a) { assert Concerns((x + y)[i].messages, a); }
    if i :| 0 <= i < |y| && Concerns(y[i].messages, a) { assert Concerns((x + y)[|x| + i].messages, a); }
    if i :| 0 <= i < |x + y| && Concerns((x + y)[i].messages, a) && i >= |x| {
      assert Concerns(y[i - |x|].messages, a);
    }
  }

  lemma {:induction false} MessagesConcern(txs: seq<Tx>, a: Address)
    ensures Concerns(Messages(txs), a) <==> SomeConcerns(txs, a)
  {
    if txs != [] {
      var before, last := txs[..|txs| - 1], txs[|txs| - 1];
      MessagesConcern(before, a);
      ConcernsConcat(Messages(before), last.messages, a);
      SomeConcat(before, [last], a);
      assert before + [last] == txs;
      assert SomeConcerns([last], a) <==> Concerns(last.messages, a) by { assert [last][0] == last; }
    }
  }

  /** On a day of whole messages each figure is the sum over all messages, and those they involve are listed. */
  lemma {:induction false} WholeDayMeans(txs: seq<Tx>, a: Address, f: Figure, listed: bool)
    requires WholeDay(txs)
    ensures DayFigure(txs, a, f, listed) == DaySum(txs, a, f)
    ensures DayInvolves(txs, a) <==> SomeConcerns(txs, a)
    decreases |txs|
  {
    if txs != [] {
      var page, rest := txs[..Min(100, |txs|)], txs[Min(100, |txs|)..];
      assert txs == page + rest;
      MessagesAre(page, a, f);
      MessagesConcern(page, a);
      WholePage(Messages(page), a, f, listed);
      PageIsSum(Messages(page), a, f);
      WholeDayMeans(rest, a, f, listed || PageInvolves(Messages(page), a));
      DaySumConcat(page, rest, a, f);
      SomeConcat(page, rest, a);
    }
  }
}
