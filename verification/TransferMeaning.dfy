/** What bank messages mean for an address: the figures of a page, exactly, and who is listed after it. */
module TransferMeaning {
  import opened Options
  import opened TransferStats
  import opened RawTransfers

  /*
   Everything is read off the messages as they come; nothing here goes through what the fold makes of a message.
   */

  /** No amount, input or coin is missing. */
  predicate Whole(r: Raw) {
    match r
    case RawSend(_, _, amount) => amount.Some?
    case RawMultiSend(input, coin, outputs) =>
      input.Some? && coin.Some? && forall i :: 0 <= i < |outputs| ==> outputs[i].coin.Some?
    case RawOther => true
  }

  /** Some output to the address stands in front of the first one without a coin. */
  predicate ReadPays(outputs: seq<RawOutput>, a: Address) {
    exists i :: 0 <= i < |outputs| && outputs[i].address == a && forall k :: 0 <= k <= i ==> outputs[k].coin.Some?
  }

  /** What these outputs pay the address. */
  function ReadPaid(outputs: seq<RawOutput>, a: Address): int {
    if outputs == [] || outputs[0].coin.None? then 0
    else (if outputs[0].address == a then outputs[0].coin.value else 0) + ReadPaid(outputs[1..], a)
  }

  /**
   What a message adds to a figure of an address: a send its sender's and its receiver's side; a multi-send the first
   input's side with its first coin, and one received transaction, however many outputs, with all its outputs pay.
   */
  function Meaning(r: Raw, a: Address, f: Figure): int {
    match r
    case RawSend(from, to, Some(amount)) =>
      (match f
       case SentTxs => if a == from then 1 else 0
       case ReceivedTxs => if a == to then 1 else 0
       case SentAmount => if a == from then amount else 0
       case ReceivedAmount => if a == to then amount else 0)
    case RawMultiSend(Some(input), Some(coin), outputs) =>
      (match f
       case SentTxs => if a == input then 1 else 0
       case ReceivedTxs => if ReadPays(outputs, a) then 1 else 0
       case SentAmount => if a == input then coin else 0
       case ReceivedAmount => ReadPaid(outputs, a))
    case _ => 0
  }

  predicate Involves(r: Raw, a: Address) {
    match r
    case RawSend(from, to, Some(_)) => a == from || a == to
    case RawMultiSend(Some(input), Some(_), outputs) => a == input || ReadPays(outputs, a)
    case _ => false
  }

  /**
   A message that throws has counted one transaction first, if the address it was at was listed: the sender's, or
   that of the output without a coin unless an output in front of it went to the same address.
   */
  function Slip(r: Raw, a: Address, f: Figure, listed: bool): int {
    match r
    case RawSend(from, _, None) => if a == from && f == SentTxs && listed then 1 else 0
    case RawMultiSend(Some(input), None, _) => if a == input && f == SentTxs && listed then 1 else 0
    case RawMultiSend(Some(input), Some(_), outputs) =>
      if f == ReceivedTxs && ThrowsAt(outputs, a) && !ReadPays(outputs, a) && (listed || a == input) then 1 else 0
    case _ => 0
  }

  /** The first output without a coin goes to the address. */
  predicate ThrowsAt(outputs: seq<RawOutput>, a: Address) {
    exists n :: 0 <= n < |outputs| && outputs[n].coin.None? && outputs[n].address == a
                && forall k :: 0 <= k < n ==> outputs[k].coin.Some?
  }

  // ----- one message -----

  lemma WholeIsReadable(r: Raw)
    ensures Readable(r) <==> Whole(r)
  {
  }

  lemma {:induction false} ReadableIs(outputs: seq<RawOutput>, i: nat)
    requires i < |outputs|
    ensures i < ReadableOutputs(outputs) <==> forall k :: 0 <= k <= i ==> outputs[k].coin.Some?
  {
  }

  lemma PaysIs(outputs: seq<RawOutput>, a: Address)
    ensures Pays(Outputs(outputs[..ReadableOutputs(outputs)]), a) <==> ReadPays(outputs, a)
  {
    var n := ReadableOutputs(outputs);
    var read := Outputs(outputs[..n]);
    if Pays(read, a) {
      var o :| o in read && o.address == a;
      var i :| 0 <= i < n && read[i] == o;
      assert outputs[i].address == a;
    }
    if ReadPays(outputs, a) {
      var i :| 0 <= i < |outputs| && outputs[i].address == a && forall k :: 0 <= k <= i ==> outputs[k].coin.Some?;
      assert read[i] in read && read[i].address == a;
    }
  }

  lemma {:induction false} PaidConcat(x: seq<Output>, y: seq<Output>, a: Address)
    ensures Paid(x + y, a) == Paid(x, a) + Paid(y, a)
  {
    if y == [] {
      assert x + y == x;
    } else {
      assert (x + y)[..|x + y| - 1] == x + y[..|y| - 1];
      PaidConcat(x, y[..|y| - 1], a);
    }
  }

  lemma {:induction false} PaidIs(outputs: seq<RawOutput>, a: Address)
    ensures Paid(Outputs(outputs[..ReadableOutputs(outputs)]), a) == ReadPaid(outputs, a)
  {
    var n := ReadableOutputs(outputs);
    if n > 0 {
      var first := Output(outputs[0].address, outputs[0].coin.value);
      PaidIs(outputs[1..], a);
      assert outputs[..n] == [outputs[0]] + outputs[1..][..n - 1];
      assert Outputs(outputs[..n]) == [first] + Outputs(outputs[1..][..n - 1]);
      PaidConcat([first], Outputs(outputs[1..][..n - 1]), a);
      assert [first][..0] == [];
    } else {
      assert outputs[..n] == [];
    }
  }

  lemma PartMeans(r: Raw, a: Address, f: Figure)
    ensures Contribution(Part(r), a, f) == Meaning(r, a, f)
  {
    if r.RawMultiSend? {
      PaysIs(r.outputs, a);
      PaidIs(r.outputs, a);
    }
  }

  // ----- who is listed -----

  lemma {:induction false} BumpedAreListed(list: seq<Item>, ds: seq<Delta>, a: Address)
    ensures Has(BumpAll(list, ds), a) <==> Has(list, a) || exists d :: d in ds && d.address == a
  {
    if ds != [] {
      var before, d := ds[..|ds| - 1], ds[|ds| - 1];
      assert ds == before + [d];
      BumpedAreListed(list, before, a);
      BumpListed(BumpAll(list, before), d, a);
    }
  }

  lemma {:induction false} OutputsDelta(outputs: seq<Output>, a: Address)
    ensures (exists d :: d in OutputDeltas(outputs) && d.address == a) <==> Pays(outputs, a)
  {
    if outputs != [] {
      var before, o := outputs[..|outputs| - 1], outputs[|outputs| - 1];
      assert outputs == before + [o];
      PaysOneMore(before, o);
      OutputsDelta(before, a);
      DeltasOf(OutputDeltas(before), [OutputDelta(before, o)], a);
      assert OutputDelta(before, o) in [OutputDelta(before, o)];
    }
  }

  lemma DeltasOf(a: seq<Delta>, b: seq<Delta>, x: Address)
    ensures (exists d :: d in a + b && d.address == x) <==>
            (exists d :: d in a && d.address == x) || exists d :: d in b && d.address == x
  {
  }

  lemma MessageDelta(m: Message, a: Address)
    ensures (exists d :: d in Deltas(m) && d.address == a) <==>
              match m
              case Send(from, to, _) => a == from || a == to
              case MultiSend(input, _, outputs) => a == input || Pays(outputs, a)
              case Other => false
  {
    match m
    case Send(from, to, amount) =>
      assert Deltas(m)[0] in Deltas(m) && Deltas(m)[1] in Deltas(m);
    case MultiSend(input, coin, outputs) =>
      var first := [Delta(input, Counters(1, 0, coin, 0))];
      assert first[0] in first;
      OutputsDelta(outputs, a);
      DeltasOf(first, OutputDeltas(outputs), a);
    case Other =>
  }

  lemma PartListed(list: seq<Item>, r: Raw, a: Address)
    ensures Has(BumpAll(list, Deltas(Part(r))), a) <==> Has(list, a) || Involves(r, a)
  {
    BumpedAreListed(list, Deltas(Part(r)), a);
    MessageDelta(Part(r), a);
    if r.RawMultiSend? { PaysIs(r.outputs, a); }
  }

  lemma IndexIffListed(list: seq<Item>, a: Address)
    ensures IndexOf(list, a) < |list| <==> Has(list, a)
  {
  }

  lemma SumForOne(d: Delta, a: Address, f: Figure)
    ensures SumFor([], a, f) == 0 && SumFor([d], a, f) == if d.address == a then Value(d.added, f) else 0
  {
    assert [d][..0] == [];
  }

  /** The slip of a message that throws, after the part that was read. */
  lemma StumbleMeans(list: seq<Item>, r: Raw, a: Address, f: Figure)
    ensures SumFor(Stumble(BumpAll(list, Deltas(Part(r))), r), a, f) == Slip(r, a, f, Has(list, a))
  {
    var read := BumpAll(list, Deltas(Part(r)));
    PartListed(list, r, a);
    IndexIffListed(read, a);
    match r
    case RawSend(from, _, amount) =>
      SumForOne(Delta(from, Counters(1, 0, 0, 0)), a, f);
    case RawMultiSend(input, coin, outputs) =>
      if input.Some? && coin.None? {
        SumForOne(Delta(input.value, Counters(1, 0, 0, 0)), a, f);
      } else if input.Some? && ReadableOutputs(outputs) < |outputs| {
        SumForOne(Delta(outputs[ReadableOutputs(outputs)].address, Counters(0, 1, 0, 0)), a, f);
        PaysIs(outputs, a);
        ThrowsAtIs(outputs, a);
      } else {
        ThrowsAtIs(outputs, a);
      }
    case RawOther =>
  }

  lemma ThrowsAtIs(outputs: seq<RawOutput>, a: Address)
    ensures ThrowsAt(outputs, a) <==>
              ReadableOutputs(outputs) < |outputs| && outputs[ReadableOutputs(outputs)].address == a
  {
    var n := ReadableOutputs(outputs);
    if m :| 0 <= m < |outputs| && outputs[m].coin.None? && outputs[m].address == a
            && forall k :: 0 <= k < m ==> outputs[k].coin.Some? {
      assert m == n;
    }
  }

  lemma {:induction false} StumbleListed(list: seq<Item>, r: Raw, a: Address)
    ensures Has(BumpAll(list, Stumble(list, r)), a) <==> Has(list, a)
  {
    BumpedAreListed(list, Stumble(list, r), a);
    forall d | d in Stumble(list, r)
      ensures Has(list, d.address)
    {
      IndexIffListed(list, d.address);
    }
  }

  /** What one message does to an address, exactly, and whom it lists. */
  lemma HandledMeans(list: seq<Item>, r: Raw, a: Address, f: Figure)
    requires Distinct(list)
    ensures Distinct(Handled(list, r))
    ensures FigureOf(Handled(list, r), a, f) == FigureOf(list, a, f) + Meaning(r, a, f) + Slip(r, a, f, Has(list, a))
    ensures Has(Handled(list, r), a) <==> Has(list, a) || Involves(r, a)
  {
    var read := BumpAll(list, Deltas(Part(r)));
    BumpAllCounts(list, Deltas(Part(r)), a, f);
    MessageMeans(Part(r), a, f);
    PartMeans(r, a, f);
    BumpAllCounts(read, Stumble(read, r), a, f);
    StumbleMeans(list, r, a, f);
    StumbleListed(read, r, a);
    PartListed(list, r, a);
  }

  // ----- a page -----

  /** The meaning of a page's messages, up to and including the first that throws. */
  function PageMeaning(raws: seq<Raw>, a: Address, f: Figure): int {
    if raws == [] then 0
    else Meaning(raws[0], a, f) + if Whole(raws[0]) then PageMeaning(raws[1..], a, f) else 0
  }

  predicate PageInvolves(raws: seq<Raw>, a: Address) {
    raws != [] && (Involves(raws[0], a) || (Whole(raws[0]) && PageInvolves(raws[1..], a)))
  }

  /** The slip of a page's first message that throws. */
  function PageSlip(raws: seq<Raw>, a: Address, f: Figure, listed: bool): int {
    if raws == [] then 0
    else if Whole(raws[0]) then PageSlip(raws[1..], a, f, listed || Involves(raws[0], a))
    else Slip(raws[0], a, f, listed)
  }

  /** The figures a page leaves, exactly, and the addresses it lists. */
  lemma {:induction false} PageMeans(list: seq<Item>, raws: seq<Raw>, a: Address, f: Figure)
    requires Distinct(list)
    ensures Distinct(FoldPage(list, raws))
    ensures FigureOf(FoldPage(list, raws), a, f) ==
            FigureOf(list, a, f) + PageMeaning(raws, a, f) + PageSlip(raws, a, f, Has(list, a))
    ensures Has(FoldPage(list, raws), a) <==> Has(list, a) || PageInvolves(raws, a)
    decreases |raws|
  {
    if raws != [] {
      HandledMeans(list, raws[0], a, f);
      WholeIsReadable(raws[0]);
      if Whole(raws[0]) {
        WholeDoesNotSlip(raws[0], a, f, Has(list, a));
        PageMeans(Handled(list, raws[0]), raws[1..], a, f);
      }
    }
  }

  lemma WholeDoesNotSlip(r: Raw, a: Address, f: Figure, listed: bool)
    requires Whole(r)
    ensures Slip(r, a, f, listed) == 0
  {
  }

  predicate AllWhole(raws: seq<Raw>) {
    forall i :: 0 <= i < |raws| ==> Whole(raws[i])
  }

  lemma {:induction false} WholePage(raws: seq<Raw>, a: Address, f: Figure, listed: bool)
    requires AllWhole(raws)
    ensures AllReadable(raws) && PageSlip(raws, a, f, listed) == 0
    ensures PageInvolves(raws, a) <==> exists i :: 0 <= i < |raws| && Involves(raws[i], a)
  {
    if raws != [] {
      WholeIsReadable(raws[0]);
      WholePage(raws[1..], a, f, listed || Involves(raws[0], a));
      if i :| 0 <= i < |raws[1..]| && Involves(raws[1..][i], a) { assert Involves(raws[i + 1], a); }
      if i :| 0 <= i < |raws| && Involves(raws[i], a) && i > 0 { assert Involves(raws[1..][i - 1], a); }
    }
  }

  // ----- in plain figures -----

  /** A send: its sender sent it, its receiver received it, nobody else is concerned. */
  lemma SendMeans(list: seq<Item>, from: Address, to: Address, amount: int, a: Address)
    requires Distinct(list)
    ensures var after := FoldPage(list, [RawSend(from, to, Some(amount))]);
            && FigureOf(after, a, SentTxs) == FigureOf(list, a, SentTxs) + (if a == from then 1 else 0)
            && FigureOf(after, a, ReceivedTxs) == FigureOf(list, a, ReceivedTxs) + (if a == to then 1 else 0)
            && FigureOf(after, a, SentAmount) == FigureOf(list, a, SentAmount) + (if a == from then amount else 0)
            && FigureOf(after, a, ReceivedAmount) == FigureOf(list, a, ReceivedAmount) + (if a == to then amount else 0)
  {
    OneWhole(list, RawSend(from, to, Some(amount)), a, SentTxs);
    OneWhole(list, RawSend(from, to, Some(amount)), a, ReceivedTxs);
    OneWhole(list, RawSend(from, to, Some(amount)), a, SentAmount);
    OneWhole(list, RawSend(from, to, Some(amount)), a, ReceivedAmount);
  }

  lemma OneWhole(list: seq<Item>, r: Raw, a: Address, f: Figure)
    requires Distinct(list) && Whole(r)
    ensures FigureOf(FoldPage(list, [r]), a, f) == FigureOf(list, a, f) + Meaning(r, a, f)
  {
    PageMeans(list, [r], a, f);
    WholeDoesNotSlip(r, a, f, Has(list, a));
    assert [r][1..] == [];
  }

  /** A multi-send of two outputs: its first input sent its first coin, and each output's address received its own. */
  lemma MultiSendMeans(list: seq<Item>, input: Address, coin: int, x: Address, p: int, y: Address, q: int, a: Address)
    requires Distinct(list)
    ensures var outputs := [RawOutput(x, Some(p)), RawOutput(y, Some(q))];
            var after := FoldPage(list, [RawMultiSend(Some(input), Some(coin), outputs)]);
            && FigureOf(after, a, SentTxs) == FigureOf(list, a, SentTxs) + (if a == input then 1 else 0)
            && FigureOf(after, a, ReceivedTxs) == FigureOf(list, a, ReceivedTxs) + (if a == x || a == y then 1 else 0)
            && FigureOf(after, a, SentAmount) == FigureOf(list, a, SentAmount) + (if a == input then coin else 0)
            && FigureOf(after, a, ReceivedAmount) ==
                 FigureOf(list, a, ReceivedAmount) + (if a == x then p else 0) + (if a == y then q else 0)
  {
    var outputs := [RawOutput(x, Some(p)), RawOutput(y, Some(q))];
    var r := RawMultiSend(Some(input), Some(coin), outputs);
    OneWhole(list, r, a, SentTxs);
    OneWhole(list, r, a, ReceivedTxs);
    OneWhole(list, r, a, SentAmount);
    OneWhole(list, r, a, ReceivedAmount);
    assert ReadPays(outputs, a) <==> a == x || a == y by {
      assert outputs[0].address == x && outputs[1].address == y;
    }
    assert outputs[1..] == [outputs[1]] && [outputs[1]][1..] == [];
    assert ReadPaid([outputs[1]], a) == if a == y then q else 0;
  }

  /** A page that lists a first pair of addresses. */
  lemma FiveFromAToB()
    ensures FoldPage([], [RawSend("a", "b", Some(5))]) ==
            [Item("a", Counters(1, 0, 5, 0)), Item("b", Counters(0, 1, 0, 5))]
  {
    var r := RawSend("a", "b", Some(5));
    var first, second := Delta("a", Counters(1, 0, 5, 0)), Delta("b", Counters(0, 1, 0, 5));
    assert [r][1..] == [];
    BumpAllTwo([], first, second);
    assert Deltas(Part(r)) == [first, second] && Bump([], first) == [Item("a", first.added)];
    assert IndexOf([Item("a", first.added)], "b") == 1;
  }
}
