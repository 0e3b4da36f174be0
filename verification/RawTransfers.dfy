/**
 Bank messages as they come, some of them unreadable.

 An amount or an input that is missing makes the fold throw in the middle of a message, and the rest of the page is
 dropped.
 */
module RawTransfers {
  import opened Options
  import opened TransferStats

  datatype RawOutput = RawOutput(address: Address, coin: Option<int>)

  /** `amount` and `coin` are the first coin, `input` the first input, where there is one. */
  datatype Raw =
    | RawSend(from: Address, to: Address, amount: Option<int>)
    | RawMultiSend(input: Option<Address>, coin: Option<int>, outputs: seq<RawOutput>)
    | RawOther

  predicate Readable(r: Raw) {
    match r
    case RawSend(_, _, amount) => amount.Some?
    case RawMultiSend(input, coin, outputs) => input.Some? && coin.Some? && ReadableOutputs(outputs) == |outputs|
    case RawOther => true
  }

  /** How many outputs there are before the first unreadable one. */
  function ReadableOutputs(outputs: seq<RawOutput>): (n: nat)
    ensures n <= |outputs| && (forall i :: 0 <= i < n ==> outputs[i].coin.Some?)
    ensures n < |outputs| ==> outputs[n].coin.None?
  {
    if outputs == [] || outputs[0].coin.None? then 0 else 1 + ReadableOutputs(outputs[1..])
  }

  function Outputs(outputs: seq<RawOutput>): (r: seq<Output>)
    requires forall i :: 0 <= i < |outputs| ==> outputs[i].coin.Some?
    ensures |r| == |outputs|
  {
    seq(|outputs|, i requires 0 <= i < |outputs| => Output(outputs[i].address, outputs[i].coin.value))
  }

  /** The part of a message that is read: all of it, or a multi-send up to its first unreadable output, or nothing. */
  function Part(r: Raw): Message {
    match r
    case RawSend(from, to, amount) => if amount.Some? then Send(from, to, amount.value) else Other
    case RawMultiSend(input, coin, outputs) =>
      if input.None? || coin.None? then Other
      else MultiSend(input.value, coin.value, Outputs(outputs[..ReadableOutputs(outputs)]))
    case RawOther => Other
  }

  /** Where an unreadable message throws it has counted one transaction, if the address was listed. */
  function Stumble(list: seq<Item>, r: Raw): seq<Delta> {
    match r
    case RawSend(from, _, amount) =>
      if amount.None? && IndexOf(list, from) < |list| then [Delta(from, Counters(1, 0, 0, 0))] else []
    case RawMultiSend(input, coin, outputs) =>
      if input.None? then []
      else if coin.None? then
        if IndexOf(list, input.value) < |list| then [Delta(input.value, Counters(1, 0, 0, 0))] else []
      else
        var n := ReadableOutputs(outputs);
        if n == |outputs| then []
        else
          var a := outputs[n].address;
          if IndexOf(list, a) < |list| && !Pays(Outputs(outputs[..n]), a) then [Delta(a, Counters(0, 1, 0, 0))] else []
    case RawOther => []
  }

  /** One message: the part that is read, and the stumble of one that throws. */
  function Handled(list: seq<Item>, r: Raw): seq<Item> {
    var read := BumpAll(list, Deltas(Part(r)));
    BumpAll(read, Stumble(read, r))
  }

  /** The messages of a page, up to the first that throws. */
  function FoldPage(list: seq<Item>, raws: seq<Raw>): seq<Item>
    decreases |raws|
  {
    if raws == [] then list
    else if Readable(raws[0]) then FoldPage(Handled(list, raws[0]), raws[1..])
    else Handled(list, raws[0])
  }

  predicate AllReadable(raws: seq<Raw>) {
    raws == [] || (Readable(raws[0]) && AllReadable(raws[1..]))
  }

  /** What a page reads: the parts of its messages, up to the first that throws. */
  function Read(raws: seq<Raw>): seq<Message> {
    if raws == [] then []
    else if Readable(raws[0]) then [Part(raws[0])] + Read(raws[1..])
    else [Part(raws[0])]
  }

  lemma {:induction false} ReadableStumbles(list: seq<Item>, r: Raw)
    requires Readable(r)
    ensures Stumble(list, r) == [] && Handled(list, r) == BumpAll(list, Deltas(Part(r)))
  {
  }

  lemma FoldFirst(list: seq<Item>, m: Message, rest: seq<Message>)
    ensures Fold(list, [m] + rest) == Fold(BumpAll(list, Deltas(m)), rest)
  {
    FoldConcat(list, [m], rest);
    assert [m][..0] == [] && AllDeltas([m]) == AllDeltas([]) + Deltas(m) == Deltas(m);
  }

  /** A page without unreadable messages is folded as a whole. */
  lemma {:induction false} FoldReadable(list: seq<Item>, raws: seq<Raw>)
    requires AllReadable(raws)
    ensures FoldPage(list, raws) == Fold(list, Read(raws))
    decreases |raws|
  {
    if raws != [] {
      ReadableStumbles(list, raws[0]);
      FoldReadable(Handled(list, raws[0]), raws[1..]);
      FoldFirst(list, Part(raws[0]), Read(raws[1..]));
    }
  }

  lemma {:induction false} StumbleCounts(list: seq<Item>, ds: seq<Delta>, a: Address, f: Figure)
    requires Distinct(list) && |ds| <= 1 && (ds != [] ==> ds[0].added in {Counters(1, 0, 0, 0), Counters(0, 1, 0, 0)})
    ensures Distinct(BumpAll(list, ds))
    ensures var extra := FigureOf(BumpAll(list, ds), a, f) - FigureOf(list, a, f);
            0 <= extra <= if f == SentAmount || f == ReceivedAmount then 0 else |ds|
  {
    BumpAllCounts(list, ds, a, f);
    if ds != [] { assert ds[..0] == []; }
  }

  lemma {:induction false} PartCounts(list: seq<Item>, r: Raw, a: Address, f: Figure)
    requires Distinct(list)
    ensures Distinct(BumpAll(list, Deltas(Part(r))))
    ensures FigureOf(BumpAll(list, Deltas(Part(r))), a, f) == FigureOf(list, a, f) + Contribution(Part(r), a, f)
  {
    BumpAllCounts(list, Deltas(Part(r)), a, f);
    MessageMeans(Part(r), a, f);
  }

  lemma {:induction false} StumbleIsOne(list: seq<Item>, r: Raw)
    ensures var ds := Stumble(list, r);
            && |ds| <= (if Readable(r) then 0 else 1)
            && (ds != [] ==> ds[0].added in {Counters(1, 0, 0, 0), Counters(0, 1, 0, 0)})
  {
  }

  /** One message adds what its part says, and a message that throws at most one transaction more. */
  lemma {:induction false} HandledCounts(list: seq<Item>, r: Raw, a: Address, f: Figure)
    requires Distinct(list)
    ensures Distinct(Handled(list, r))
    ensures var extra := FigureOf(Handled(list, r), a, f) - FigureOf(list, a, f) - Contribution(Part(r), a, f);
            0 <= extra <= (if Readable(r) || f == SentAmount || f == ReceivedAmount then 0 else 1)
  {
    var read := BumpAll(list, Deltas(Part(r)));
    PartCounts(list, r, a, f);
    StumbleIsOne(read, r);
    StumbleCounts(read, Stumble(read, r), a, f);
  }

  /** Reading a sequence of messages one by one from the front. */
  lemma {:induction false} ContributionsFirst(m: Message, rest: seq<Message>, a: Address, f: Figure)
    ensures Contributions([m] + rest, a, f) == Contribution(m, a, f) + Contributions(rest, a, f)
  {
    if rest == [] {
      assert [m] + rest == [m] && [m][..0] == [];
    } else {
      assert ([m] + rest)[..|rest|] == [m] + rest[..|rest| - 1];
      ContributionsFirst(m, rest[..|rest| - 1], a, f);
    }
  }

  /**
   What a page adds to each figure: exactly what was read of it for the amounts; for the transaction counts that, and
   one more at most when a message throws.
   */
  lemma {:induction false} PageCounts(list: seq<Item>, raws: seq<Raw>, a: Address, f: Figure)
    requires Distinct(list)
    ensures Distinct(FoldPage(list, raws))
    ensures var extra := FigureOf(FoldPage(list, raws), a, f) - FigureOf(list, a, f) - Contributions(Read(raws), a, f);
            0 <= extra <= (if AllReadable(raws) || f == SentAmount || f == ReceivedAmount then 0 else 1)
    decreases |raws|
  {
    if raws != [] {
      HandledCounts(list, raws[0], a, f);
      if Readable(raws[0]) {
        PageCounts(Handled(list, raws[0]), raws[1..], a, f);
        ContributionsFirst(Part(raws[0]), Read(raws[1..]), a, f);
      } else {
        ContributionsFirst(Part(raws[0]), [], a, f);
        assert [Part(raws[0])] + [] == [Part(raws[0])];
      }
    }
  }

  // ----- the service's code -----

  /** One message of the `switch`; `ok` is false when it throws. */
  method HandleRaw(listData: seq<Item>, r: Raw) returns (ok: bool, list: seq<Item>)
    ensures ok <==> Readable(r)
    ensures list == Handled(listData, r)
  {
    ok := true;
    match r {
      case RawSend(from, to, amount) =>
        if amount.None? {
          list := CountOne(listData, from, Counters(1, 0, 0, 0), true);
          NothingRead(listData);
          return false, list;
        }
        list := HandleMessage(listData, Send(from, to, amount.value));
      case RawMultiSend(input, coin, outputs) =>
        if input.None? || coin.None? {
          NothingRead(listData);
          if input.None? {
            return false, listData;
          }
          list := CountOne(listData, input.value, Counters(1, 0, 0, 0), true);
          return false, list;
        }
        var n := FirstUnreadable(outputs);
        list := HandleMessage(listData, MultiSend(input.value, coin.value, Outputs(outputs[..n])));
        if n < |outputs| {
          var paid := IsPaid(Outputs(outputs[..n]), outputs[n].address);
          list := CountOne(list, outputs[n].address, Counters(0, 1, 0, 0), !paid);
          return false, list;
        }
      case RawOther =>
        list := HandleMessage(listData, Other);
    }
    ReadableStumbles(listData, r);
  }

  lemma NothingRead(list: seq<Item>)
    ensures BumpAll(list, Deltas(Other)) == list
  {
  }

  method FirstUnreadable(outputs: seq<RawOutput>) returns (n: nat)
    ensures n == ReadableOutputs(outputs)
  {
    n := 0;
    while n < |outputs| && outputs[n].coin.Some?
      invariant n <= |outputs| && ReadableOutputs(outputs) == n + ReadableOutputs(outputs[n..])
    {
      assert outputs[n..][1..] == outputs[n + 1..];
      n := n + 1;
    }
  }

  method IsPaid(outputs: seq<Output>, a: Address) returns (paid: bool)
    ensures paid <==> Pays(outputs, a)
  {
    paid := Pays(outputs, a);
  }

  /** Counts a transaction for a listed address, before the code throws. */
  method CountOne(list: seq<Item>, a: Address, c: Counters, count: bool) returns (r: seq<Item>)
    ensures r == BumpAll(list, if count && IndexOf(list, a) < |list| then [Delta(a, c)] else [])
  {
    var i := Find(list, a);
    if count && i < |list| {
      r := AddTo(list, a, c);
      BumpAllTwo(list, Delta(a, c), Delta(a, c));
    } else {
      r := list;
    }
  }

  /** The loop over a transaction's messages; `ok` is false when one of them throws. */
  method HandleMessages(listData: seq<Item>, raws: seq<Raw>) returns (ok: bool, list: seq<Item>)
    ensures ok <==> AllReadable(raws)
    ensures list == FoldPage(listData, raws)
  {
    ok, list := true, listData;
    var i := 0;
    while i < |raws|
      invariant i <= |raws| && FoldPage(listData, raws) == FoldPage(list, raws[i..])
      invariant ok && (AllReadable(raws) <==> AllReadable(raws[i..]))
    {
      assert raws[i..][1..] == raws[i + 1..];
      ok, list := HandleRaw(list, raws[i]);
      if !ok {
        return;
      }
      i := i + 1;
    }
  }

  /** What follows a message that throws is dropped. */
  lemma {:induction false} FoldPageConcat(list: seq<Item>, a: seq<Raw>, b: seq<Raw>)
    ensures FoldPage(list, a + b) == if AllReadable(a) then FoldPage(FoldPage(list, a), b) else FoldPage(list, a)
    decreases |a|
  {
    if a == [] {
      assert a + b == b;
    } else {
      assert (a + b)[1..] == a[1..] + b;
      FoldPageConcat(Handled(list, a[0]), a[1..], b);
    }
  }

  lemma {:induction false} ReadConcat(a: seq<Raw>, b: seq<Raw>)
    ensures AllReadable(a + b) <==> AllReadable(a) && AllReadable(b)
    ensures Read(a + b) == if AllReadable(a) then Read(a) + Read(b) else Read(a)
  {
    if a == [] {
      assert a + b == b;
    } else {
      assert (a + b)[1..] == a[1..] + b;
      ReadConcat(a[1..], b);
    }
  }

  lemma {:induction false} ContributionsConcat(x: seq<Message>, y: seq<Message>, a: Address, f: Figure)
    ensures Contributions(x + y, a, f) == Contributions(x, a, f) + Contributions(y, a, f)
  {
    if y == [] {
      assert x + y == x;
    } else {
      assert (x + y)[..|x + y| - 1] == x + y[..|y| - 1];
      ContributionsConcat(x, y[..|y| - 1], a, f);
    }
  }
}
