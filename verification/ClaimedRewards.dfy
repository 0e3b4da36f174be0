/** What the claimed-reward job credits to which account and validator, and when it reads the right log. */
module ClaimedRewards {
  import opened Options

  type Address = string
  type Validator = string

  datatype Reward = Reward(validator: Validator, amount: int)

  datatype AttributeKey = AmountKey | ValidatorKey | OtherKey

  /** `number` is the first run of digits of the value, if it has one. */
  datatype Attribute = Attribute(key: AttributeKey, value: string, number: Option<int>)

  /** A transaction log: the attributes of its first withdraw_rewards event, if it has such an event. */
  datatype Log = Log(event: Option<seq<Attribute>>)

  datatype Message =
    | Delegate(delegator: Address, validator: Validator)
    | Undelegate(delegator: Address, validator: Validator)
    | Withdraw(delegator: Address, validator: Validator)
    | Redelegate(delegator: Address)
    | Exec
    | OtherMessage

  datatype Tx = Tx(code: int, messages: seq<Message>, logs: seq<Log>)

  /** An amount withdrawn by `delegator` from `validator`. */
  datatype Credit = Credit(delegator: Address, validator: Validator, amount: int)

  // ----- what a message withdraws -----

  function FirstWith(attributes: seq<Attribute>, key: AttributeKey): Option<Attribute> {
    if attributes == [] then None
    else if attributes[0].key == key then Some(attributes[0])
    else FirstWith(attributes[1..], key)
  }

  /** A missing or unreadable amount counts as 0. */
  function AmountIn(event: Option<seq<Attribute>>): int {
    if event.None? then 0
    else
      var a := FirstWith(event.value, AmountKey);
      if a.Some? && a.value.number.Some? then a.value.number.value else 0
  }

  /** A redelegation names one or two source validators in its event; `None` when reading them throws. */
  function RedelegateCredits(delegator: Address, event: Option<seq<Attribute>>): Option<seq<Credit>> {
    if event.None? then Some([])
    else
      var attributes, v := event.value, FirstWith(event.value, ValidatorKey);
      if v.None? then None
      else
        var first := Credit(delegator, v.value.value, AmountIn(event));
        if |attributes| <= 2 then Some([first])
        else if |attributes| < 4 || attributes[2].number.None? then None
        else Some([first, Credit(delegator, attributes[3].value, attributes[2].number.value)])
  }

  function CreditsOf(m: Message, log: Log): Option<seq<Credit>> {
    match m
    case Delegate(d, v) => Some([Credit(d, v, AmountIn(log.event))])
    case Undelegate(d, v) => Some([Credit(d, v, AmountIn(log.event))])
    case Withdraw(d, v) => Some([Credit(d, v, AmountIn(log.event))])
    case Redelegate(d) => RedelegateCredits(d, log.event)
    case Exec => None
    case OtherMessage => Some([])
  }

  predicate Staking(m: Message) {
    !m.OtherMessage?
  }

  function StakingOnly(ms: seq<Message>): seq<Message> {
    if ms == [] then []
    else StakingOnly(ms[..|ms| - 1]) + if Staking(ms[|ms| - 1]) then [ms[|ms| - 1]] else []
  }

  /** The credits of a list of messages, each read from the log at its own position. */
  function AllCredits(ms: seq<Message>, logs: seq<Log>): Option<seq<Credit>> {
    if ms == [] then Some([])
    else
      var n := |ms| - 1;
      var before := AllCredits(ms[..n], logs);
      if before.None? || n >= |logs| then None
      else
        var last := CreditsOf(ms[n], logs[n]);
        if last.None? then None else Some(before.value + last.value)
  }

  /** What the job reads: the filtered messages against the logs of the whole transaction. */
  function TxCredits(tx: Tx): Option<seq<Credit>> {
    if tx.code != 0 then Some([]) else AllCredits(StakingOnly(tx.messages), tx.logs)
  }

  /** What the transaction withdrew: every message against its own log. */
  function TrueCredits(tx: Tx): Option<seq<Credit>> {
    if tx.code != 0 then Some([]) else AllCredits(tx.messages, tx.logs)
  }

  lemma {:induction false} StakingOnlyIsAll(ms: seq<Message>)
    requires forall i :: 0 <= i < |ms| ==> Staking(ms[i])
    ensures StakingOnly(ms) == ms
  {
    if ms != [] {
      StakingOnlyIsAll(ms[..|ms| - 1]);
      assert ms == ms[..|ms| - 1] + [ms[|ms| - 1]];
    }
  }

  /** No other message stands in front of a staking message, so the filtered index is the log index. */
  predicate StakingFirst(ms: seq<Message>) {
    forall i, j :: 0 <= i < j < |ms| && Staking(ms[j]) ==> Staking(ms[i])
  }

  predicate ReadsTrue(ms: seq<Message>, logs: seq<Log>) {
    AllCredits(StakingOnly(ms), logs) == AllCredits(ms, logs)
  }

  /** A message the job filters out adds no credit. */
  lemma {:induction false} OtherAddsNothing(ms: seq<Message>, logs: seq<Log>)
    requires 0 < |ms| <= |logs| && !Staking(ms[|ms| - 1])
    ensures AllCredits(ms, logs) == AllCredits(ms[..|ms| - 1], logs)
    ensures StakingOnly(ms) == StakingOnly(ms[..|ms| - 1])
  {
    var before := AllCredits(ms[..|ms| - 1], logs);
    if before.Some? { assert before.value + [] == before.value; }
  }

  lemma {:induction false} FilterKeepsIndex(ms: seq<Message>, logs: seq<Log>)
    requires StakingFirst(ms) && |ms| <= |logs|
    ensures ReadsTrue(ms, logs)
  {
    if ms != [] {
      if Staking(ms[|ms| - 1]) {
        StakingOnlyIsAll(ms);
      } else {
        OtherAddsNothing(ms, logs);
        FilterKeepsIndex(ms[..|ms| - 1], logs);
      }
    }
  }

  lemma {:induction false} ExecThrows(ms: seq<Message>, logs: seq<Log>)
    requires Exec in ms
    ensures AllCredits(ms, logs).None? && Exec in StakingOnly(ms)
  {
    assert ms == ms[..|ms| - 1] + [ms[|ms| - 1]];
    if ms[|ms| - 1] != Exec { ExecThrows(ms[..|ms| - 1], logs); }
  }

  lemma {:induction false} StakingCount(ms: seq<Message>)
    ensures |StakingOnly(ms)| <= |ms|
    ensures (exists m :: m in ms && !Staking(m)) ==> |StakingOnly(ms)| < |ms|
    ensures Exec !in ms ==> Exec !in StakingOnly(ms)
  {
    if ms != [] {
      assert ms == ms[..|ms| - 1] + [ms[|ms| - 1]];
      StakingCount(ms[..|ms| - 1]);
    }
  }

  function Sum(credits: seq<Credit>): int {
    if credits == [] then 0 else Sum(credits[..|credits| - 1]) + credits[|credits| - 1].amount
  }

  lemma {:induction false} SumOneMore(credits: seq<Credit>, more: seq<Credit>)
    requires |more| <= 1
    ensures Sum(credits + more) == Sum(credits) + if more == [] then 0 else more[0].amount
  {
    if more == [] {
      assert credits + more == credits;
    } else {
      assert (credits + more)[..|credits|] == credits;
    }
  }

  /** Without a withdraw_rewards event a message credits 0 or nothing. */
  lemma {:induction false} NothingWithdrawn(ms: seq<Message>, logs: seq<Log>)
    requires Exec !in ms && |ms| <= |logs| && forall k :: 0 <= k < |ms| ==> logs[k] == Log(None)
    ensures AllCredits(ms, logs).Some? && Sum(AllCredits(ms, logs).value) == 0
  {
    if ms != [] {
      var n := |ms| - 1;
      assert ms == ms[..n] + [ms[n]];
      NothingWithdrawn(ms[..n], logs);
      SumOneMore(AllCredits(ms[..n], logs).value, CreditsOf(ms[n], logs[n]).value);
    }
  }

  lemma {:induction false} LastStaking(ms: seq<Message>) returns (j: nat)
    requires exists m :: m in ms && Staking(m)
    ensures j < |ms| && Staking(ms[j]) && forall k :: j < k < |ms| ==> !Staking(ms[k])
  {
    j := |ms| - 1;
    assert ms == ms[..j] + [ms[j]];
    if !Staking(ms[j]) { j := LastStaking(ms[..j]); }
  }

  lemma {:induction false} OthersCreditNothing(ms: seq<Message>, logs: seq<Log>, n: nat)
    requires n <= |ms| <= |logs| && forall k :: n <= k < |ms| ==> !Staking(ms[k])
    ensures AllCredits(ms, logs) == AllCredits(ms[..n], logs) && StakingOnly(ms) == StakingOnly(ms[..n])
  {
    if n == |ms| {
      assert ms[..n] == ms;
    } else {
      var last := |ms| - 1;
      OtherAddsNothing(ms, logs);
      OthersCreditNothing(ms[..last], logs, n);
      assert ms[..last][..n] == ms[..n];
    }
  }

  /** An event that names an amount of 1 and a validator. */
  predicate WithdrawsOne(log: Log) {
    && log.event.Some? && |log.event.value| == 2
    && log.event.value[0].key == AmountKey && log.event.value[0].number == Some(1)
    && log.event.value[1].key == ValidatorKey
  }

  lemma {:induction false} CreditOfOne(m: Message, log: Log)
    requires Staking(m) && m != Exec && WithdrawsOne(log)
    ensures CreditsOf(m, log).Some? && |CreditsOf(m, log).value| == 1 && CreditsOf(m, log).value[0].amount == 1
  {
    var attributes := log.event.value;
    assert FirstWith(attributes, AmountKey) == Some(attributes[0]);
    assert FirstWith(attributes, ValidatorKey) == FirstWith(attributes[1..], ValidatorKey) == Some(attributes[1]);
  }

  /** Only the last message withdraws anything. */
  lemma {:induction false} OnlyLastWithdraws(ms: seq<Message>, logs: seq<Log>)
    requires Exec !in ms && 0 < |ms| <= |logs| && Staking(ms[|ms| - 1]) && WithdrawsOne(logs[|ms| - 1])
    requires forall k :: 0 <= k < |ms| - 1 ==> logs[k] == Log(None)
    ensures AllCredits(ms, logs).Some? && Sum(AllCredits(ms, logs).value) == 1
  {
    var n := |ms| - 1;
    assert ms == ms[..n] + [ms[n]];
    NothingWithdrawn(ms[..n], logs);
    CreditOfOne(ms[n], logs[n]);
    SumOneMore(AllCredits(ms[..n], logs).value, CreditsOf(ms[n], logs[n]).value);
  }

  /** No withdraw_rewards event but one, at position `j`. */
  predicate OnlyAt(logs: seq<Log>, j: nat) {
    j < |logs| && WithdrawsOne(logs[j]) && forall k :: 0 <= k < |logs| && k != j ==> logs[k] == Log(None)
  }

  lemma {:induction false} SomeLogs(n: nat, j: nat) returns (logs: seq<Log>)
    requires j < n
    ensures |logs| == n && OnlyAt(logs, j)
  {
    var one := Log(Some([Attribute(AmountKey, "", Some(1)), Attribute(ValidatorKey, "", None)]));
    logs := seq(n, _ => Log(None));
    logs := logs[j := one];
  }

  lemma {:induction false} ReadEarlier(ms: seq<Message>, logs: seq<Log>, other: nat, j: nat)
    requires Exec !in ms && other < j < |ms| <= |logs| && !Staking(ms[other])
    requires forall k :: j < k < |ms| ==> !Staking(ms[k])
    ensures Exec !in StakingOnly(ms) && |StakingOnly(ms)| <= j
  {
    OthersCreditNothing(ms, logs, j + 1);
    assert ms[..j + 1][other] in ms[..j + 1];
    StakingCount(ms[..j + 1]);
    StakingCount(ms);
  }

  lemma {:induction false} MisreadsAt(ms: seq<Message>, logs: seq<Log>, other: nat, j: nat)
    requires Exec !in ms && other < j < |ms| <= |logs| && Staking(ms[j]) && !Staking(ms[other])
    requires forall k :: j < k < |ms| ==> !Staking(ms[k])
    requires OnlyAt(logs, j)
    ensures !ReadsTrue(ms, logs)
  {
    OthersCreditNothing(ms, logs, j + 1);
    OnlyLastWithdraws(ms[..j + 1], logs);
    ReadEarlier(ms, logs, other, j);
    NothingWithdrawn(StakingOnly(ms), logs);
  }

  /** A staking message behind another one: logs that only its own position tells apart. */
  lemma {:induction false} FilterMisreads(ms: seq<Message>) returns (logs: seq<Log>)
    requires Exec !in ms && !StakingFirst(ms)
    ensures |logs| == |ms| && !ReadsTrue(ms, logs)
  {
    var other, staking :| 0 <= other < staking < |ms| && Staking(ms[staking]) && !Staking(ms[other]);
    assert ms[staking] in ms;
    var j := LastStaking(ms);
    logs := SomeLogs(|ms|, j);
    MisreadsAt(ms, logs, other, j);
  }

  /** A MsgExec makes the job throw, whatever the logs are. */
  lemma {:induction false} ExecAlwaysThrows(tx: Tx)
    requires tx.code == 0 && Exec in tx.messages
    ensures TxCredits(tx).None?
  {
    ExecThrows(tx.messages, tx.logs);
    ExecThrows(StakingOnly(tx.messages), tx.logs);
  }

  /**
   Without a MsgExec the job reads a transaction's credits right, whatever its logs are, exactly when no other message
   stands in front of a staking message.
   */
  lemma {:induction false} FilterSafeIff(ms: seq<Message>)
    ensures Exec !in ms ==> ((forall logs | |ms| <= |logs| :: ReadsTrue(ms, logs)) <==> StakingFirst(ms))
  {
    if StakingFirst(ms) {
      forall logs | |ms| <= |logs|
        ensures ReadsTrue(ms, logs)
      {
        FilterKeepsIndex(ms, logs);
      }
    } else if Exec !in ms {
      var logs := FilterMisreads(ms);
      assert !ReadsTrue(ms, logs);
    }
  }

  /** With another message in front, the job reads that message's log and misses the withdrawn amount. */
  lemma FilterShiftsIndex(d: Address, v: Validator, amount: int)
    requires amount != 0
    ensures var withdrawn := Log(Some([Attribute(AmountKey, "", Some(amount))]));
            var tx := Tx(0, [OtherMessage, Withdraw(d, v)], [Log(None), withdrawn]);
            TrueCredits(tx) == Some([Credit(d, v, amount)]) && TxCredits(tx) == Some([Credit(d, v, 0)])
  {
    var withdrawn := Log(Some([Attribute(AmountKey, "", Some(amount))]));
    var ms, logs := [OtherMessage, Withdraw(d, v)], [Log(None), withdrawn];
    assert ms[..1] == [OtherMessage] && [OtherMessage][..0] == [];
    assert AllCredits([OtherMessage][..0], logs) == Some([]) && [OtherMessage][0] == OtherMessage;
    assert AllCredits([OtherMessage], logs) == Some([] + []);
    assert StakingOnly([OtherMessage]) == [];
    assert StakingOnly(ms) == [Withdraw(d, v)] && [Withdraw(d, v)][..0] == [];
    assert [] + [Credit(d, v, amount)] == [Credit(d, v, amount)];
    assert [] + [Credit(d, v, 0)] == [Credit(d, v, 0)];
  }

  function JobCredits(txs: seq<Tx>): Option<seq<Credit>> {
    if txs == [] then Some([])
    else
      var before, last := JobCredits(txs[..|txs| - 1]), TxCredits(txs[|txs| - 1]);
      if before.None? || last.None? then None else Some(before.value + last.value)
  }

  function TrueJobCredits(txs: seq<Tx>): Option<seq<Credit>> {
    if txs == [] then Some([])
    else
      var before, last := TrueJobCredits(txs[..|txs| - 1]), TrueCredits(txs[|txs| - 1]);
      if before.None? || last.None? then None else Some(before.value + last.value)
  }

  /** A failed transaction, or one with a log per message and no other message in front of a staking message. */
  predicate Aligned(tx: Tx) {
    tx.code != 0 || (StakingFirst(tx.messages) && |tx.messages| <= |tx.logs|)
  }

  lemma {:induction false} JobReadsTrueCredits(txs: seq<Tx>)
    requires forall tx :: tx in txs ==> Aligned(tx)
    ensures JobCredits(txs) == TrueJobCredits(txs)
  {
    if txs != [] {
      var tx := txs[|txs| - 1];
      assert tx in txs;
      JobReadsTrueCredits(txs[..|txs| - 1]);
      if tx.code == 0 { FilterKeepsIndex(tx.messages, tx.logs); }
    }
  }

  /** What the job leaves for an account and a validator: the old reward plus everything the batch withdrew. */
  lemma JobAddsWithdrawals(rewards: seq<Reward>, txs: seq<Tx>, a: Address, v: Validator)
    requires OneEntryEach(rewards) && JobCredits(txs).Some?
    requires forall tx :: tx in txs ==> Aligned(tx)
    ensures TrueJobCredits(txs).Some?
    ensures var after := Credited(rewards, JobCredits(txs).value, a);
            OneEntryEach(after) && RewardFrom(after, v) ==
              RewardFrom(rewards, v) + Withdrawn(TrueJobCredits(txs).value, a, v)
  {
    JobReadsTrueCredits(txs);
    CreditedAdds(rewards, JobCredits(txs).value, a, v);
  }

  // ----- crediting a list of rewards -----

  function IndexOf(rewards: seq<Reward>, v: Validator): (i: nat)
    ensures i <= |rewards|
    ensures i < |rewards| ==> rewards[i].validator == v
    ensures forall j :: 0 <= j < i ==> rewards[j].validator != v
  {
    if rewards == [] || rewards[0].validator == v then 0 else 1 + IndexOf(rewards[1..], v)
  }

  /** Adds to the validator's entry, or appends one. */
  function AddReward(rewards: seq<Reward>, v: Validator, amount: int): seq<Reward> {
    var i := IndexOf(rewards, v);
    if i < |rewards| then rewards[i := Reward(v, rewards[i].amount + amount)] else rewards + [Reward(v, amount)]
  }

  /** The credits of one account, applied in order. */
  function Credited(rewards: seq<Reward>, credits: seq<Credit>, a: Address): seq<Reward> {
    if credits == [] then rewards
    else
      var before, c := Credited(rewards, credits[..|credits| - 1], a), credits[|credits| - 1];
      if c.delegator == a then AddReward(before, c.validator, c.amount) else before
  }

  function RewardFrom(rewards: seq<Reward>, v: Validator): int {
    if rewards == [] then 0
    else if rewards[|rewards| - 1].validator == v then rewards[|rewards| - 1].amount
    else RewardFrom(rewards[..|rewards| - 1], v)
  }

  function Withdrawn(credits: seq<Credit>, a: Address, v: Validator): int {
    if credits == [] then 0
    else
      var c := credits[|credits| - 1];
      Withdrawn(credits[..|credits| - 1], a, v) + if c.delegator == a && c.validator == v then c.amount else 0
  }

  predicate OneEntryEach(rewards: seq<Reward>) {
    forall i, j :: 0 <= i < j < |rewards| ==> rewards[i].validator != rewards[j].validator
  }

  lemma {:induction false} RewardAt(rewards: seq<Reward>, i: nat)
    requires OneEntryEach(rewards) && i < |rewards|
    ensures RewardFrom(rewards, rewards[i].validator) == rewards[i].amount
  {
    if i < |rewards| - 1 { RewardAt(rewards[..|rewards| - 1], i); }
  }

  lemma {:induction false} RewardElsewhere(rewards: seq<Reward>, i: nat, amount: int, v: Validator)
    requires i < |rewards| && v != rewards[i].validator
    ensures RewardFrom(rewards[i := Reward(rewards[i].validator, amount)], v) == RewardFrom(rewards, v)
  {
    var n := |rewards| - 1;
    var updated := rewards[i := Reward(rewards[i].validator, amount)];
    if i < n {
      assert updated[..n] == rewards[..n][i := Reward(rewards[i].validator, amount)];
      RewardElsewhere(rewards[..n], i, amount, v);
    } else {
      assert updated[..n] == rewards[..n];
    }
  }

  lemma {:induction false} RewardAbsent(rewards: seq<Reward>, v: Validator)
    requires forall i :: 0 <= i < |rewards| ==> rewards[i].validator != v
    ensures RewardFrom(rewards, v) == 0
  {
    if rewards != [] { RewardAbsent(rewards[..|rewards| - 1], v); }
  }

  lemma AddRewardDistinct(rewards: seq<Reward>, v: Validator, amount: int)
    requires OneEntryEach(rewards)
    ensures OneEntryEach(AddReward(rewards, v, amount))
  {
  }

  lemma AddRewardAdds(rewards: seq<Reward>, v: Validator, amount: int, x: Validator)
    requires OneEntryEach(rewards)
    ensures RewardFrom(AddReward(rewards, v, amount), x) == RewardFrom(rewards, x) + if x == v then amount else 0
  {
    var i, r := IndexOf(rewards, v), AddReward(rewards, v, amount);
    if i == |rewards| {
      assert r[..|rewards|] == rewards && r[|rewards|] == Reward(v, amount);
      if x == v { RewardAbsent(rewards, v); }
    } else if x == v {
      AddRewardDistinct(rewards, v, amount);
      RewardAt(rewards, i);
      RewardAt(r, i);
    } else {
      RewardElsewhere(rewards, i, rewards[i].amount + amount, x);
    }
  }

  /** Each (account, validator) pair ends with its old reward plus all it withdrew, under one entry. */
  lemma {:induction false} CreditedAdds(rewards: seq<Reward>, credits: seq<Credit>, a: Address, v: Validator)
    requires OneEntryEach(rewards)
    ensures OneEntryEach(Credited(rewards, credits, a))
    ensures RewardFrom(Credited(rewards, credits, a), v) == RewardFrom(rewards, v) + Withdrawn(credits, a, v)
  {
    if credits != [] {
      var c := credits[|credits| - 1];
      CreditedAdds(rewards, credits[..|credits| - 1], a, v);
      AddRewardDistinct(Credited(rewards, credits[..|credits| - 1], a), c.validator, c.amount);
      AddRewardAdds(Credited(rewards, credits[..|credits| - 1], a), c.validator, c.amount, v);
    }
  }

  lemma {:induction false} CreditedConcat(rewards: seq<Reward>, a: seq<Credit>, b: seq<Credit>, x: Address)
    ensures Credited(rewards, a + b, x) == Credited(Credited(rewards, a, x), b, x)
  {
    if b == [] {
      assert a + b == a;
    } else {
      assert (a + b)[..|a + b| - 1] == a + b[..|b| - 1];
      CreditedConcat(rewards, a, b[..|b| - 1], x);
    }
  }

  /** A credit adds its amount to its own account and validator. */
  lemma OneCredit(rewards: seq<Reward>, c: Credit, a: Address, v: Validator)
    requires OneEntryEach(rewards)
    ensures RewardFrom(Credited(rewards, [c], a), v) ==
            RewardFrom(rewards, v) + if c.delegator == a && c.validator == v then c.amount else 0
  {
    assert [c][..0] == [];
    assert Credited(rewards, [], a) == rewards;
    AddRewardAdds(rewards, c.validator, c.amount, v);
  }

  // ----- what a job reads, said on the messages and the attributes -----

  /** The first amount counts, when it holds digits; `i` is its position, or the number of attributes. */
  lemma {:induction false} AmountRead(attributes: seq<Attribute>, i: nat)
    requires i <= |attributes| && forall j :: 0 <= j < i ==> attributes[j].key != AmountKey
    requires i < |attributes| ==> attributes[i].key == AmountKey
    ensures AmountIn(Some(attributes)) ==
            if i < |attributes| && attributes[i].number.Some? then attributes[i].number.value else 0
  {
    FirstAt(attributes, AmountKey, i);
  }

  lemma {:induction false} FirstAt(attributes: seq<Attribute>, key: AttributeKey, i: nat)
    requires i <= |attributes| && forall j :: 0 <= j < i ==> attributes[j].key != key
    requires i < |attributes| ==> attributes[i].key == key
    ensures FirstWith(attributes, key) == if i < |attributes| then Some(attributes[i]) else None
  {
    if i > 0 { FirstAt(attributes[1..], key, i - 1); }
  }

  /** A delegation, an undelegation and a withdrawal credit the amount to the validator the message names. */
  lemma {:induction false} MessageCredits(d: Address, v: Validator, attributes: seq<Attribute>, i: nat)
    requires i <= |attributes| && forall j :: 0 <= j < i ==> attributes[j].key != AmountKey
    requires i < |attributes| ==> attributes[i].key == AmountKey
    ensures var amount := if i < |attributes| && attributes[i].number.Some? then attributes[i].number.value else 0;
            forall m :: m in [Delegate(d, v), Undelegate(d, v), Withdraw(d, v)] ==>
              && CreditsOf(m, Log(Some(attributes))) == Some([Credit(d, v, amount)])
              && CreditsOf(m, Log(None)) == Some([Credit(d, v, 0)])
  {
    AmountRead(attributes, i);
  }

  /**
   A redelegation credits the first validator of its event with the first amount, `k` and `i` being their positions;
   behind two attributes the third is a second amount, for the validator the fourth names.
   */
  lemma {:induction false} RedelegateReads(d: Address, attributes: seq<Attribute>, i: nat, k: nat)
    requires i <= |attributes| && forall j :: 0 <= j < i ==> attributes[j].key != AmountKey
    requires i < |attributes| ==> attributes[i].key == AmountKey
    requires k <= |attributes| && forall j :: 0 <= j < k ==> attributes[j].key != ValidatorKey
    requires k < |attributes| ==> attributes[k].key == ValidatorKey
    ensures CreditsOf(Redelegate(d), Log(None)) == Some([])
    ensures var n, credits := |attributes|, CreditsOf(Redelegate(d), Log(Some(attributes)));
            var amount := if i < n && attributes[i].number.Some? then attributes[i].number.value else 0;
            && (credits.None? <==> k == n || n == 3 || (n > 3 && attributes[2].number.None?))
            && (k < n <= 2 ==> credits == Some([Credit(d, attributes[k].value, amount)]))
            && (k < n && n > 3 && attributes[2].number.Some? ==>
                  credits == Some([Credit(d, attributes[k].value, amount),
                                   Credit(d, attributes[3].value, attributes[2].number.value)]))
  {
    AmountRead(attributes, i);
    FirstAt(attributes, ValidatorKey, k);
  }

  /** A redelegation that withdraws from two validators adds each amount to its own. */
  lemma {:induction false} RedelegateFromTwo(rewards: seq<Reward>, a: Address, attributes: seq<Attribute>, u: Validator)
    requires OneEntryEach(rewards) && |attributes| == 4
    requires attributes[0].key == AmountKey && attributes[0].number.Some? && attributes[1].key == ValidatorKey
    requires attributes[2].number.Some?
    ensures var credits := CreditsOf(Redelegate(a), Log(Some(attributes)));
            && credits.Some? && OneEntryEach(Credited(rewards, credits.value, a))
            && RewardFrom(Credited(rewards, credits.value, a), u) ==
                 RewardFrom(rewards, u)
                 + (if u == attributes[1].value then attributes[0].number.value else 0)
                 + (if u == attributes[3].value then attributes[2].number.value else 0)
  {
    RedelegateReads(a, attributes, 0, 1);
    var first, second := Credit(a, attributes[1].value, attributes[0].number.value),
      Credit(a, attributes[3].value, attributes[2].number.value);
    assert [first, second] == [first] + [second];
    CreditedConcat(rewards, [first], [second], a);
    OneCredit(rewards, first, a, u);
    CreditedAdds(rewards, [first], a, u);
    CreditedAdds(rewards, [first, second], a, u);
    OneCredit(Credited(rewards, [first], a), second, a, u);
  }

  /** Messages behind the first `|ms|` read the logs behind the first `|ms|`. */
  lemma {:induction false} MessagesInTwoParts(ms: seq<Message>, more: seq<Message>, logs: seq<Log>)
    requires |ms| <= |logs|
    ensures var a, b, both := AllCredits(ms, logs), AllCredits(more, logs[|ms|..]), AllCredits(ms + more, logs);
            both == if a.Some? && b.Some? then Some(a.value + b.value) else None
  {
    if more == [] {
      assert ms + more == ms;
      if AllCredits(ms, logs).Some? { assert AllCredits(ms, logs).value + [] == AllCredits(ms, logs).value; }
    } else {
      var n := |more| - 1;
      assert (ms + more)[..|ms| + n] == ms + more[..n];
      MessagesInTwoParts(ms, more[..n], logs);
      if AllCredits(ms + more, logs).Some? {
        var a, b := AllCredits(ms, logs).value, AllCredits(more[..n], logs[|ms|..]).value;
        var c := CreditsOf(more[n], logs[|ms| + n]).value;
        assert (a + b) + c == a + (b + c);
      }
    }
  }

  lemma JobOneMore(txs: seq<Tx>, tx: Tx)
    ensures var a, b := JobCredits(txs), TxCredits(tx);
            JobCredits(txs + [tx]) == if a.Some? && b.Some? then Some(a.value + b.value) else None
  {
    assert (txs + [tx])[..|txs|] == txs;
  }

  lemma Reassociate(a: seq<Credit>, b: seq<Credit>, c: seq<Credit>)
    ensures (a + b) + c == a + (b + c)
  {
  }

  /** Two batches in one job: throwing as soon as one of them would, else the credits of both. */
  lemma {:induction false} JobInTwoParts(txs: seq<Tx>, more: seq<Tx>)
    ensures var a, b := JobCredits(txs), JobCredits(more);
            JobCredits(txs + more) == if a.Some? && b.Some? then Some(a.value + b.value) else None
  {
    if more == [] {
      assert txs + more == txs;
      NothingMore(JobCredits(txs));
    } else {
      var before, last := more[..|more| - 1], more[|more| - 1];
      assert txs + more == (txs + before) + [last] && more == before + [last];
      JobInTwoParts(txs, before);
      JobOneMore(txs + before, last);
      JobOneMore(before, last);
      if JobCredits(txs).Some? && JobCredits(more).Some? {
        Reassociate(JobCredits(txs).value, JobCredits(before).value, TxCredits(last).value);
      }
    }
  }

  lemma NothingMore(credits: Option<seq<Credit>>)
    ensures credits.Some? ==> credits.value + [] == credits.value && [] + credits.value == credits.value
  {
  }

  /** A transaction of one message, alone in a job: nothing when it failed or the message is another one. */
  lemma {:induction false} JobOfOne(code: int, m: Message, log: Log)
    ensures JobCredits([Tx(code, [m], [log])]) ==
            if code != 0 || m == OtherMessage then Some([]) else if m == Exec then None else CreditsOf(m, log)
  {
    var tx := Tx(code, [m], [log]);
    assert [] + [tx] == [tx];
    JobOneMore([], tx);
    NothingMore(TxCredits(tx));
    StakingOfOne(m);
    CreditsOfOne(m, log);
  }

  lemma StakingOfOne(m: Message)
    ensures StakingOnly([m]) == if m == OtherMessage then [] else [m]
  {
    assert [m][..0] == [];
  }

  lemma {:induction false} CreditsOfOne(m: Message, log: Log)
    ensures AllCredits([m], [log]) == CreditsOf(m, log) && AllCredits([], [log]) == Some([])
  {
    assert [m][..0] == [] && [m][0] == m && [log][0] == log;
    NothingMore(CreditsOf(m, log));
  }
}
