/**
 The fold of the account statistics over bank messages that can be read: who sent and received how often and how
 much.

 The list of addresses grows as the messages mention them; an address keeps its place.
 */
module TransferStats {
  type Address = string

  datatype Output = Output(address: Address, amount: int)

  /** A multi-send counts its first input and that input's first coin, as the service does. */
  datatype Message =
    | Send(from: Address, to: Address, amount: int)
    | MultiSend(input: Address, coin: int, outputs: seq<Output>)
    | Other

  datatype Counters = Counters(sentTxs: int, receivedTxs: int, sentAmount: int, receivedAmount: int)

  datatype Figure = SentTxs | ReceivedTxs | SentAmount | ReceivedAmount

  function Value(c: Counters, f: Figure): int {
    match f
    case SentTxs => c.sentTxs
    case ReceivedTxs => c.receivedTxs
    case SentAmount => c.sentAmount
    case ReceivedAmount => c.receivedAmount
  }

  function Plus(a: Counters, b: Counters): Counters {
    Counters(a.sentTxs + b.sentTxs, a.receivedTxs + b.receivedTxs,
             a.sentAmount + b.sentAmount, a.receivedAmount + b.receivedAmount)
  }

  datatype Item = Item(address: Address, counters: Counters)

  predicate Distinct(list: seq<Item>) {
    forall i, j :: 0 <= i < j < |list| ==> list[i].address != list[j].address
  }

  predicate Has(list: seq<Item>, a: Address) {
    exists i :: 0 <= i < |list| && list[i].address == a
  }

  /** A figure of an address; zero while it is not listed. */
  function FigureOf(list: seq<Item>, a: Address, f: Figure): int {
    if list == [] then 0
    else if list[|list| - 1].address == a then Value(list[|list| - 1].counters, f)
    else FigureOf(list[..|list| - 1], a, f)
  }

  function Total(list: seq<Item>, f: Figure): int {
    if list == [] then 0 else Total(list[..|list| - 1], f) + Value(list[|list| - 1].counters, f)
  }

  // ----- what a message means for an address -----

  function Paid(outputs: seq<Output>, a: Address): int {
    if outputs == [] then 0
    else
      var before, o := outputs[..|outputs| - 1], outputs[|outputs| - 1];
      Paid(before, a) + if o.address == a then o.amount else 0
  }

  predicate Pays(outputs: seq<Output>, a: Address) {
    exists o :: o in outputs && o.address == a
  }

  function Contribution(m: Message, a: Address, f: Figure): int {
    match m
    case Send(from, to, amount) =>
      (match f
       case SentTxs => if a == from then 1 else 0
       case ReceivedTxs => if a == to then 1 else 0
       case SentAmount => if a == from then amount else 0
       case ReceivedAmount => if a == to then amount else 0)
    case MultiSend(input, coin, outputs) =>
      (match f
       case SentTxs => if a == input then 1 else 0
       case ReceivedTxs => if Pays(outputs, a) then 1 else 0
       case SentAmount => if a == input then coin else 0
       case ReceivedAmount => Paid(outputs, a))
    case Other => 0
  }

  function Contributions(ms: seq<Message>, a: Address, f: Figure): int {
    if ms == [] then 0 else Contributions(ms[..|ms| - 1], a, f) + Contribution(ms[|ms| - 1], a, f)
  }

  // ----- the fold -----

  function IndexOf(list: seq<Item>, a: Address): (i: nat)
    ensures i <= |list|
    ensures i < |list| ==> list[i].address == a
    ensures forall j :: 0 <= j < i ==> list[j].address != a
  {
    if list == [] || list[0].address == a then 0 else 1 + IndexOf(list[1..], a)
  }

  datatype Delta = Delta(address: Address, added: Counters)

  /** Adds to the listed address, or lists it. */
  function Bump(list: seq<Item>, d: Delta): seq<Item> {
    var i := IndexOf(list, d.address);
    if i < |list| then list[i := Item(d.address, Plus(list[i].counters, d.added))]
    else list + [Item(d.address, d.added)]
  }

  function BumpAll(list: seq<Item>, ds: seq<Delta>): seq<Item> {
    if ds == [] then list else Bump(BumpAll(list, ds[..|ds| - 1]), ds[|ds| - 1])
  }

  /** A repeated output address of one message counts as received once. */
  function OutputDelta(before: seq<Output>, o: Output): Delta {
    Delta(o.address, Counters(0, if Pays(before, o.address) then 0 else 1, 0, o.amount))
  }

  function OutputDeltas(outputs: seq<Output>): seq<Delta> {
    if outputs == [] then []
    else OutputDeltas(outputs[..|outputs| - 1]) + [OutputDelta(outputs[..|outputs| - 1], outputs[|outputs| - 1])]
  }

  /** The updates one message makes to `listData`, in order. */
  function Deltas(m: Message): seq<Delta> {
    match m
    case Send(from, to, amount) => [Delta(from, Counters(1, 0, amount, 0)), Delta(to, Counters(0, 1, 0, amount))]
    case MultiSend(input, coin, outputs) => [Delta(input, Counters(1, 0, coin, 0))] + OutputDeltas(outputs)
    case Other => []
  }

  function AllDeltas(ms: seq<Message>): seq<Delta> {
    if ms == [] then [] else AllDeltas(ms[..|ms| - 1]) + Deltas(ms[|ms| - 1])
  }

  function Fold(list: seq<Item>, ms: seq<Message>): seq<Item> {
    BumpAll(list, AllDeltas(ms))
  }

  lemma {:induction false} BumpAllConcat(list: seq<Item>, a: seq<Delta>, b: seq<Delta>)
    ensures BumpAll(list, a + b) == BumpAll(BumpAll(list, a), b)
  {
    if b == [] {
      assert a + b == a;
    } else {
      assert (a + b)[..|a + b| - 1] == a + b[..|b| - 1];
      BumpAllConcat(list, a, b[..|b| - 1]);
    }
  }

  lemma AssocDeltas(a: seq<Delta>, b: seq<Delta>, c: seq<Delta>)
    ensures a + b + c == a + (b + c)
  {
  }

  lemma {:induction false} AllDeltasConcat(a: seq<Message>, b: seq<Message>)
    ensures AllDeltas(a + b) == AllDeltas(a) + AllDeltas(b)
  {
    if b == [] {
      assert a + b == a;
    } else {
      var before, last := b[..|b| - 1], Deltas(b[|b| - 1]);
      assert (a + b)[..|a + b| - 1] == a + before;
      AllDeltasConcat(a, before);
      AssocDeltas(AllDeltas(a), AllDeltas(before), last);
    }
  }

  /** Folding in two goes is folding in one. */
  lemma FoldConcat(list: seq<Item>, a: seq<Message>, b: seq<Message>)
    ensures Fold(list, a + b) == Fold(Fold(list, a), b)
  {
    AllDeltasConcat(a, b);
    BumpAllConcat(list, AllDeltas(a), AllDeltas(b));
  }

  // ----- the fold counts what the messages say -----

  lemma {:induction false} FigureAt(list: seq<Item>, i: nat, f: Figure)
    requires Distinct(list) && i < |list|
    ensures FigureOf(list, list[i].address, f) == Value(list[i].counters, f)
  {
    if i < |list| - 1 { FigureAt(list[..|list| - 1], i, f); }
  }

  lemma {:induction false} FigureElsewhere(list: seq<Item>, i: nat, c: Counters, b: Address, f: Figure)
    requires i < |list| && b != list[i].address
    ensures FigureOf(list[i := Item(list[i].address, c)], b, f) == FigureOf(list, b, f)
  {
    var n := |list| - 1;
    var updated := list[i := Item(list[i].address, c)];
    if i < n {
      assert updated[..n] == list[..n][i := Item(list[i].address, c)];
      FigureElsewhere(list[..n], i, c, b, f);
    } else {
      assert updated[..n] == list[..n];
    }
  }

  lemma {:induction false} FigureAbsent(list: seq<Item>, a: Address, f: Figure)
    requires forall i :: 0 <= i < |list| ==> list[i].address != a
    ensures FigureOf(list, a, f) == 0
  {
    if list != [] {
      FigureAbsent(list[..|list| - 1], a, f);
    }
  }

  lemma BumpCounts(list: seq<Item>, d: Delta, b: Address, f: Figure)
    requires Distinct(list)
    ensures Distinct(Bump(list, d))
    ensures FigureOf(Bump(list, d), b, f) == FigureOf(list, b, f) + if d.address == b then Value(d.added, f) else 0
  {
    var i, r := IndexOf(list, d.address), Bump(list, d);
    if i < |list| {
      assert forall j :: 0 <= j < |r| ==> r[j].address == list[j].address;
      if d.address == b {
        FigureAt(list, i, f);
        FigureAt(r, i, f);
      } else {
        FigureElsewhere(list, i, Plus(list[i].counters, d.added), b, f);
      }
    } else {
      assert r[..|r| - 1] == list;
      if d.address == b { FigureAbsent(list, b, f); }
    }
  }

  function SumFor(ds: seq<Delta>, a: Address, f: Figure): int {
    if ds == [] then 0
    else SumFor(ds[..|ds| - 1], a, f) + if ds[|ds| - 1].address == a then Value(ds[|ds| - 1].added, f) else 0
  }

  lemma {:induction false} SumForConcat(a: seq<Delta>, b: seq<Delta>, x: Address, f: Figure)
    ensures SumFor(a + b, x, f) == SumFor(a, x, f) + SumFor(b, x, f)
  {
    if b == [] {
      assert a + b == a;
    } else {
      assert (a + b)[..|a + b| - 1] == a + b[..|b| - 1];
      SumForConcat(a, b[..|b| - 1], x, f);
    }
  }

  lemma {:induction false} BumpAllCounts(list: seq<Item>, ds: seq<Delta>, a: Address, f: Figure)
    requires Distinct(list)
    ensures Distinct(BumpAll(list, ds))
    ensures FigureOf(BumpAll(list, ds), a, f) == FigureOf(list, a, f) + SumFor(ds, a, f)
  {
    if ds != [] {
      BumpAllCounts(list, ds[..|ds| - 1], a, f);
      BumpCounts(BumpAll(list, ds[..|ds| - 1]), ds[|ds| - 1], a, f);
    }
  }

  lemma PaysOneMore(before: seq<Output>, o: Output)
    ensures forall a :: Pays(before + [o], a) <==> Pays(before, a) || a == o.address
  {
  }

  /** One received transaction per paid address, however often the message pays it. */
  lemma {:induction false} OutputsMean(outputs: seq<Output>, a: Address, f: Figure)
    ensures SumFor(OutputDeltas(outputs), a, f) ==
            match f
            case SentTxs => 0
            case ReceivedTxs => if Pays(outputs, a) then 1 else 0
            case SentAmount => 0
            case ReceivedAmount => Paid(outputs, a)
  {
    if outputs != [] {
      var before, o := outputs[..|outputs| - 1], outputs[|outputs| - 1];
      assert outputs == before + [o];
      PaysOneMore(before, o);
      OutputsMean(before, a, f);
      assert (OutputDeltas(before) + [OutputDelta(before, o)])[..|OutputDeltas(before)|] == OutputDeltas(before);
    }
  }

  lemma SumForTwo(d: Delta, e: Delta, a: Address, f: Figure)
    ensures SumFor([d], a, f) == if d.address == a then Value(d.added, f) else 0
    ensures SumFor([d, e], a, f) ==
            (if d.address == a then Value(d.added, f) else 0) + if e.address == a then Value(e.added, f) else 0
  {
  }

  lemma MessageMeans(m: Message, a: Address, f: Figure)
    ensures SumFor(Deltas(m), a, f) == Contribution(m, a, f)
  {
    match m
    case Send(from, to, amount) =>
      SumForTwo(Deltas(m)[0], Deltas(m)[1], a, f);
    case MultiSend(input, coin, outputs) =>
      var d := Delta(input, Counters(1, 0, coin, 0));
      SumForConcat([d], OutputDeltas(outputs), a, f);
      OutputsMean(outputs, a, f);
      SumForTwo(d, d, a, f);
    case Other =>
  }

  lemma {:induction false} MessagesMean(ms: seq<Message>, a: Address, f: Figure)
    ensures SumFor(AllDeltas(ms), a, f) == Contributions(ms, a, f)
  {
    if ms != [] {
      MessagesMean(ms[..|ms| - 1], a, f);
      MessageMeans(ms[|ms| - 1], a, f);
      SumForConcat(AllDeltas(ms[..|ms| - 1]), Deltas(ms[|ms| - 1]), a, f);
    }
  }

  /** After any messages each figure of each address is its old value plus what the messages say of it. */
  lemma FoldCounts(list: seq<Item>, ms: seq<Message>, a: Address, f: Figure)
    requires Distinct(list)
    ensures Distinct(Fold(list, ms))
    ensures FigureOf(Fold(list, ms), a, f) == FigureOf(list, a, f) + Contributions(ms, a, f)
  {
    BumpAllCounts(list, AllDeltas(ms), a, f);
    MessagesMean(ms, a, f);
  }

  // ----- what is sent is received -----

  lemma {:induction false} TotalUpdate(list: seq<Item>, i: nat, c: Counters, f: Figure)
    requires i < |list|
    ensures Total(list[i := Item(list[i].address, c)], f) == Total(list, f) - Value(list[i].counters, f) + Value(c, f)
  {
    var n := |list| - 1;
    var updated := list[i := Item(list[i].address, c)];
    if i < n {
      assert updated[..n] == list[..n][i := Item(list[i].address, c)];
      TotalUpdate(list[..n], i, c, f);
    } else {
      assert updated[..n] == list[..n];
    }
  }

  lemma BumpTotal(list: seq<Item>, d: Delta, f: Figure)
    ensures Total(Bump(list, d), f) == Total(list, f) + Value(d.added, f)
  {
    var i := IndexOf(list, d.address);
    if i < |list| {
      TotalUpdate(list, i, Plus(list[i].counters, d.added), f);
    } else {
      assert Bump(list, d)[..|list|] == list;
    }
  }

  function SumAll(ds: seq<Delta>, f: Figure): int {
    if ds == [] then 0 else SumAll(ds[..|ds| - 1], f) + Value(ds[|ds| - 1].added, f)
  }

  lemma {:induction false} BumpAllTotal(list: seq<Item>, ds: seq<Delta>, f: Figure)
    ensures Total(BumpAll(list, ds), f) == Total(list, f) + SumAll(ds, f)
  {
    if ds != [] {
      BumpAllTotal(list, ds[..|ds| - 1], f);
      BumpTotal(BumpAll(list, ds[..|ds| - 1]), ds[|ds| - 1], f);
    }
  }

  lemma {:induction false} SumAllConcat(a: seq<Delta>, b: seq<Delta>, f: Figure)
    ensures SumAll(a + b, f) == SumAll(a, f) + SumAll(b, f)
  {
    if b == [] {
      assert a + b == a;
    } else {
      assert (a + b)[..|a + b| - 1] == a + b[..|b| - 1];
      SumAllConcat(a, b[..|b| - 1], f);
    }
  }

  function PaidToAll(outputs: seq<Output>): int {
    if outputs == [] then 0 else PaidToAll(outputs[..|outputs| - 1]) + outputs[|outputs| - 1].amount
  }

  /** How much more the first coin of a multi-send's first input is than what its outputs receive. */
  function Excess(m: Message): int {
    if m.MultiSend? then m.coin - PaidToAll(m.outputs) else 0
  }

  function Imbalance(ms: seq<Message>): int {
    if ms == [] then 0 else Imbalance(ms[..|ms| - 1]) + Excess(ms[|ms| - 1])
  }

  lemma {:induction false} OutputsSum(outputs: seq<Output>)
    ensures SumAll(OutputDeltas(outputs), SentAmount) == 0
    ensures SumAll(OutputDeltas(outputs), ReceivedAmount) == PaidToAll(outputs)
  {
    if outputs != [] {
      var before, o := outputs[..|outputs| - 1], outputs[|outputs| - 1];
      OutputsSum(before);
      assert (OutputDeltas(before) + [OutputDelta(before, o)])[..|OutputDeltas(before)|] == OutputDeltas(before);
    }
  }

  lemma SumAllTwo(d: Delta, e: Delta, f: Figure)
    ensures SumAll([d], f) == Value(d.added, f) && SumAll([d, e], f) == Value(d.added, f) + Value(e.added, f)
  {
  }

  lemma MessageSum(m: Message)
    ensures SumAll(Deltas(m), SentAmount) - SumAll(Deltas(m), ReceivedAmount) == Excess(m)
  {
    match m
    case Send(from, to, amount) =>
      SumAllTwo(Deltas(m)[0], Deltas(m)[1], SentAmount);
      SumAllTwo(Deltas(m)[0], Deltas(m)[1], ReceivedAmount);
    case MultiSend(input, coin, outputs) =>
      var d := Delta(input, Counters(1, 0, coin, 0));
      SumAllConcat([d], OutputDeltas(outputs), SentAmount);
      SumAllConcat([d], OutputDeltas(outputs), ReceivedAmount);
      OutputsSum(outputs);
      SumAllTwo(d, d, SentAmount);
      SumAllTwo(d, d, ReceivedAmount);
    case Other =>
  }

  lemma {:induction false} MessagesSum(ms: seq<Message>)
    ensures SumAll(AllDeltas(ms), SentAmount) - SumAll(AllDeltas(ms), ReceivedAmount) == Imbalance(ms)
  {
    if ms != [] {
      MessagesSum(ms[..|ms| - 1]);
      MessageSum(ms[|ms| - 1]);
      SumAllConcat(AllDeltas(ms[..|ms| - 1]), Deltas(ms[|ms| - 1]), SentAmount);
      SumAllConcat(AllDeltas(ms[..|ms| - 1]), Deltas(ms[|ms| - 1]), ReceivedAmount);
    }
  }

  /** Total sent minus total received over all addresses is exactly the imbalance of the multi-sends. */
  lemma SentMinusReceived(ms: seq<Message>)
    ensures Total(Fold([], ms), SentAmount) - Total(Fold([], ms), ReceivedAmount) == Imbalance(ms)
    ensures (forall m :: m in ms ==> Excess(m) == 0) ==> Imbalance(ms) == 0
  {
    BumpAllTotal([], AllDeltas(ms), SentAmount);
    BumpAllTotal([], AllDeltas(ms), ReceivedAmount);
    MessagesSum(ms);
    if forall m :: m in ms ==> Excess(m) == 0 { NoImbalance(ms); }
  }

  lemma {:induction false} NoImbalance(ms: seq<Message>)
    requires forall m :: m in ms ==> Excess(m) == 0
    ensures Imbalance(ms) == 0
  {
    if ms != [] {
      assert ms[|ms| - 1] in ms;
      NoImbalance(ms[..|ms| - 1]);
    }
  }

  // ----- the service's loops -----

  method Find(list: seq<Item>, a: Address) returns (i: nat)
    ensures i == IndexOf(list, a)
  {
    i := 0;
    while i < |list| && list[i].address != a
      invariant i <= |list|
      invariant IndexOf(list, a) == i + IndexOf(list[i..], a)
    {
      assert list[i..][1..] == list[i + 1..];
      i := i + 1;
    }
  }

  /** `find` the address and add to its entry, else push a new entry. */
  method AddTo(list: seq<Item>, a: Address, c: Counters) returns (r: seq<Item>)
    ensures r == Bump(list, Delta(a, c))
  {
    var i := Find(list, a);
    if i < |list| {
      var before := list[i].counters;
      r := list[i := Item(a, Counters(before.sentTxs + c.sentTxs, before.receivedTxs + c.receivedTxs,
                                      before.sentAmount + c.sentAmount, before.receivedAmount + c.receivedAmount))];
    } else {
      r := list + [Item(a, c)];
    }
  }

  lemma BumpAllTwo(list: seq<Item>, d: Delta, e: Delta)
    ensures BumpAll(list, [d]) == Bump(list, d)
    ensures BumpAll(list, [d, e]) == Bump(Bump(list, d), e)
  {
  }

  /** One message of the `switch`. */
  method HandleMessage(listData: seq<Item>, message: Message) returns (r: seq<Item>)
    ensures r == BumpAll(listData, Deltas(message))
  {
    r := listData;
    match message {
      case Send(from, to, amount) =>
        r := AddTo(r, from, Counters(1, 0, amount, 0));
        r := AddTo(r, to, Counters(0, 1, 0, amount));
        BumpAllTwo(listData, Deltas(message)[0], Deltas(message)[1]);
      case MultiSend(input, coin, outputs) =>
        r := AddTo(r, input, Counters(1, 0, coin, 0));
        ghost var d := Delta(input, Counters(1, 0, coin, 0));
        BumpAllTwo(listData, d, d);
        BumpAllConcat(listData, [d], OutputDeltas(outputs));
        r := HandleOutputs(r, outputs);
      case Other =>
    }
  }

  lemma BumpListed(list: seq<Item>, d: Delta, b: Address)
    ensures Has(Bump(list, d), b) <==> Has(list, b) || d.address == b
  {
    var r, i := Bump(list, d), IndexOf(list, d.address);
    assert forall j :: 0 <= j < |list| ==> r[j].address == list[j].address;
    if i < |list| { assert r[i].address == d.address; } else { assert r[|list|].address == d.address; }
    if Has(list, b) {
      var j :| 0 <= j < |list| && list[j].address == b;
      assert r[j].address == b;
    }
  }

  lemma {:induction false} PaidAreListed(list: seq<Item>, outputs: seq<Output>, a: Address)
    requires Pays(outputs, a)
    ensures Has(BumpAll(list, OutputDeltas(outputs)), a)
  {
    var before, o := outputs[..|outputs| - 1], outputs[|outputs| - 1];
    assert outputs == before + [o];
    PaysOneMore(before, o);
    assert OutputDeltas(outputs)[..|OutputDeltas(outputs)| - 1] == OutputDeltas(before);
    BumpListed(BumpAll(list, OutputDeltas(before)), OutputDelta(before, o), a);
    if Pays(before, a) { PaidAreListed(list, before, a); }
  }

  method HandleOutputs(listData: seq<Item>, outputs: seq<Output>) returns (r: seq<Item>)
    ensures r == BumpAll(listData, OutputDeltas(outputs))
  {
    r := listData;
    var addrs: seq<Address> := [];
    for k := 0 to |outputs|
      invariant r == BumpAll(listData, OutputDeltas(outputs[..k]))
      invariant forall a :: a in addrs <==> Pays(outputs[..k], a)
    {
      var output := outputs[k];
      ghost var before := outputs[..k];
      assert outputs[..k + 1] == before + [output] && (before + [output])[..k] == before;
      assert OutputDeltas(outputs[..k + 1])[..|OutputDeltas(before)|] == OutputDeltas(before);
      PaysOneMore(before, output);
      var i := Find(r, output.address);
      if i < |r| {
        r := AddTo(r, output.address, Counters(0, if output.address in addrs then 0 else 1, 0, output.amount));
      } else {
        if Pays(before, output.address) { PaidAreListed(listData, before, output.address); }
        r := r + [Item(output.address, Counters(0, 1, 0, output.amount))];
      }
      addrs := addrs + [output.address];
    }
    assert outputs[..|outputs|] == outputs;
  }
}
