/** The claimed-reward job over shared account objects. */
module ClaimedRewardsJob {
  import opened Options
  import opened ClaimedRewards

  class AccountInfo {
    const address: Address
    var rewards: seq<Reward>

    constructor (address: Address, rewards: seq<Reward>)
      ensures this.address == address && this.rewards == rewards
    {
      this.address := address;
      this.rewards := rewards;
    }

    /** `find` the validator and add to its amount, else push an entry. */
    method Add(v: Validator, amount: int)
      modifies this
      ensures rewards == AddReward(old(rewards), v, amount)
    {
      var i := 0;
      while i < |rewards| && rewards[i].validator != v
        invariant i <= |rewards|
        invariant IndexOf(rewards, v) == i + IndexOf(rewards[i..], v)
      {
        assert rewards[i..][1..] == rewards[i + 1..];
        i := i + 1;
      }
      if i < |rewards| {
        rewards := rewards[i := Reward(v, rewards[i].amount + amount)];
      } else {
        rewards := rewards + [Reward(v, amount)];
      }
    }
  }

  function DelegatorOf(m: Message): Address
    requires !m.Exec? && !m.OtherMessage?
  {
    m.delegator
  }

  lemma CreditsAreHis(m: Message, log: Log)
    requires CreditsOf(m, log).Some? && !m.Exec? && !m.OtherMessage?
    ensures forall c :: c in CreditsOf(m, log).value ==> c.delegator == DelegatorOf(m)
  {
  }

  lemma {:induction false} OthersUntouched(rewards: seq<Reward>, credits: seq<Credit>, d: Address, a: Address)
    requires forall c :: c in credits ==> c.delegator == d
    requires a != d
    ensures Credited(rewards, credits, a) == rewards
  {
    if credits != [] {
      assert credits[|credits| - 1] in credits;
      OthersUntouched(rewards, credits[..|credits| - 1], d, a);
    }
  }

  lemma {:induction false} NoCreditNoChange(rewards: seq<Reward>, credits: seq<Credit>, a: Address)
    requires forall c :: c in credits ==> c.delegator != a
    ensures Credited(rewards, credits, a) == rewards
  {
    if credits != [] {
      assert credits[|credits| - 1] in credits;
      NoCreditNoChange(rewards, credits[..|credits| - 1], a);
    }
  }

  lemma CreditedOneOrTwo(rewards: seq<Reward>, c: Credit, d: Credit)
    requires c.delegator == d.delegator
    ensures Credited(rewards, [c], c.delegator) == AddReward(rewards, c.validator, c.amount)
    ensures Credited(rewards, [c, d], c.delegator) ==
            AddReward(AddReward(rewards, c.validator, c.amount), d.validator, d.amount)
  {
  }

  /** The account holds its stored rewards plus the credits processed so far. */
  ghost predicate Tracks(x: AccountInfo, stored: map<Address, seq<Reward>>, done: seq<Credit>)
    reads x
  {
    x.address in stored && x.rewards == Credited(stored[x.address], done, x.address)
  }

  ghost predicate AllTrack(list: seq<AccountInfo>, stored: map<Address, seq<Reward>>, done: seq<Credit>)
    reads list
  {
    forall x :: x in list ==> Tracks(x, stored, done)
  }

  /** `listAccounts` may repeat an object but never holds two objects of one address. */
  ghost predicate OneObjectEach(list: seq<AccountInfo>) {
    forall x, y :: x in list && y in list && x.address == y.address ==> x == y
  }

  ghost predicate AllListed(list: seq<AccountInfo>, done: seq<Credit>) {
    forall c :: c in done ==> exists x :: x in list && x.address == c.delegator
  }

  /** The list while the credits `done` have been processed. */
  ghost predicate InState(list: seq<AccountInfo>, stored: map<Address, seq<Reward>>, done: seq<Credit>)
    reads list
  {
    AllTrack(list, stored, done) && OneObjectEach(list) && AllListed(list, done)
  }

  class ClaimedRewardsService {
    var stored: map<Address, seq<Reward>>

    constructor (stored: map<Address, seq<Reward>>)
      ensures this.stored == stored
    {
      this.stored := stored;
    }

    /** The account object of an address: the shared one, else a new one read from the database, else null. */
    method GetAccount(a: Address, listAccounts: seq<AccountInfo>, ghost done: seq<Credit>)
      returns (account: AccountInfo?)
      requires AllTrack(listAccounts, stored, done) && AllListed(listAccounts, done)
      ensures account == null <==> a !in stored
      ensures account != null ==> account.address == a && Tracks(account, stored, done)
      ensures account != null ==>
                account in listAccounts || (fresh(account) && forall x :: x in listAccounts ==> x.address != a)
    {
      for i := 0 to |listAccounts|
        invariant forall j :: 0 <= j < i ==> listAccounts[j].address != a
      {
        if listAccounts[i].address == a {
          assert Tracks(listAccounts[i], stored, done);
          return listAccounts[i];
        }
      }
      if a !in stored {
        return null;
      }
      account := new AccountInfo(a, stored[a]);
      NoCreditNoChange(stored[a], done, a);
    }

    /** Applies the credits of one message to its account; false when the service's code throws. */
    method Apply(m: Message, log: Log, account: AccountInfo?) returns (ok: bool)
      requires Staking(m) && !m.Exec?
      requires account != null ==> account.address == DelegatorOf(m)
      modifies account
      ensures ok <==> CreditsOf(m, log).Some? && (account != null || CreditsOf(m, log).value == [])
      ensures ok && account != null ==>
                account.rewards == Credited(old(account.rewards), CreditsOf(m, log).value, account.address)
    {
      if m.Redelegate? {
        if log.event.None? {
          return true;
        }
        var attributes := log.event.value;
        var val := FirstWith(attributes, ValidatorKey);
        if account == null || val.None? {
          return false;
        }
        var first := Credit(m.delegator, val.value.value, AmountIn(log.event));
        ghost var start := account.rewards;
        account.Add(first.validator, first.amount);
        CreditedOneOrTwo(start, first, first);
        if |attributes| > 2 {
          if attributes[2].number.None? || |attributes| < 4 {
            return false;
          }
          var second := Credit(m.delegator, attributes[3].value, attributes[2].number.value);
          account.Add(second.validator, second.amount);
          CreditedOneOrTwo(start, first, second);
        }
        return true;
      }
      if account == null {
        return false;
      }
      var c := Credit(m.delegator, m.validator, AmountIn(log.event));
      CreditedOneOrTwo(account.rewards, c, c);
      account.Add(c.validator, c.amount);
      return true;
    }

    /** One message: its account is found or read, credited and (re)listed. */
    method HandleStakeRewards(m: Message, log: Log, listAccounts: seq<AccountInfo>, ghost done: seq<Credit>)
      returns (ok: bool, list: seq<AccountInfo>)
      requires Staking(m)
      requires InState(listAccounts, stored, done)
      modifies set x | x in listAccounts
      ensures ok <==> CreditsOf(m, log).Some? && forall c :: c in CreditsOf(m, log).value ==> c.delegator in stored
      ensures ok ==> InState(list, stored, done + CreditsOf(m, log).value)
      ensures ok ==> forall x :: x in list ==> x in listAccounts || fresh(x)
    {
      if m.Exec? {
        return false, listAccounts;
      }
      var account := GetAccount(DelegatorOf(m), listAccounts, done);
      ok := Apply(m, log, account);
      SingleCredits(m, log);
      if !ok {
        return false, listAccounts;
      }
      ghost var more := CreditsOf(m, log).value;
      CreditsAreHis(m, log);
      list := listAccounts;
      if account != null {
        list := listAccounts + [account];
        CreditedConcat(stored[account.address], done, more, account.address);
        assert Tracks(account, stored, done + more);
      }
      forall x | x in listAccounts
        ensures Tracks(x, stored, done + more)
      {
        CreditedConcat(stored[x.address], done, more, x.address);
        if x != account {
          OthersUntouched(Credited(stored[x.address], done, x.address), more, DelegatorOf(m), x.address);
        }
      }
      ListedAfter(listAccounts, list, done, more, DelegatorOf(m));
    }

    /** The whole job: nothing is written when it throws; else every account ends with all its credits. */
    method HandleJob(listTx: seq<Tx>) returns (ok: bool)
      modifies this
      ensures ok <==> JobCredits(listTx).Some? && AllKnown(JobCredits(listTx).value, old(stored))
      ensures !ok ==> stored == old(stored)
      ensures ok ==> stored == map a | a in old(stored) :: Credited(old(stored)[a], JobCredits(listTx).value, a)
    {
      var listAccounts: seq<AccountInfo> := [];
      ghost var done: seq<Credit> := [];
      for i := 0 to |listTx|
        invariant stored == old(stored)
        invariant JobCredits(listTx[..i]) == Some(done) && AllKnown(done, stored)
        invariant InState(listAccounts, stored, done)
        invariant forall x :: x in listAccounts ==> fresh(x)
      {
        assert listTx[..i + 1][..i] == listTx[..i];
        ghost var before := done;
        ok, listAccounts := HandleTx(listTx[i], listAccounts, done);
        if !ok {
          FailureLasts(listTx, i, before, stored);
          return false;
        }
        done := done + TxCredits(listTx[i]).value;
      }
      assert listTx[..|listTx|] == listTx;
      WriteBack(listAccounts, done);
      ok := true;
    }

    method HandleTx(tx: Tx, listAccounts: seq<AccountInfo>, ghost done: seq<Credit>)
      returns (ok: bool, list: seq<AccountInfo>)
      requires InState(listAccounts, stored, done)
      modifies set x | x in listAccounts
      ensures ok <==> TxCredits(tx).Some? && AllKnown(TxCredits(tx).value, stored)
      ensures ok ==> InState(list, stored, done + TxCredits(tx).value)
      ensures ok ==> forall x :: x in list ==> x in listAccounts || fresh(x)
    {
      list := listAccounts;
      if tx.code != 0 {
        assert done + [] == done;
        return true, list;
      }
      StakingOnlyAre(tx.messages);
      ok, list := HandleMessages(StakingOnly(tx.messages), tx.logs, listAccounts, done);
    }

    /** The messages that passed the filter, each with the log at its filtered index. */
    method HandleMessages(messages: seq<Message>, logs: seq<Log>, listAccounts: seq<AccountInfo>,
        ghost done: seq<Credit>)
      returns (ok: bool, list: seq<AccountInfo>)
      requires forall i :: 0 <= i < |messages| ==> Staking(messages[i])
      requires InState(listAccounts, stored, done)
      modifies set x | x in listAccounts
      ensures ok <==> AllCredits(messages, logs).Some? && AllKnown(AllCredits(messages, logs).value, stored)
      ensures ok ==> InState(list, stored, done + AllCredits(messages, logs).value)
      ensures ok ==> forall x :: x in list ==> x in listAccounts || fresh(x)
    {
      list := listAccounts;
      assert done + [] == done;
      for index := 0 to |messages|
        invariant AllCredits(messages[..index], logs).Some? &&
                  AllKnown(AllCredits(messages[..index], logs).value, stored)
        invariant InState(list, stored, done + AllCredits(messages[..index], logs).value)
        invariant forall x :: x in list ==> x in listAccounts || fresh(x)
      {
        ok, list := HandleAt(messages, logs, index, list, done);
        if !ok {
          return false, list;
        }
      }
      assert messages[..|messages|] == messages;
      return true, list;
    }

    /** One turn of the loop over the messages. */
    method HandleAt(messages: seq<Message>, logs: seq<Log>, index: nat, listAccounts: seq<AccountInfo>,
        ghost done: seq<Credit>)
      returns (ok: bool, list: seq<AccountInfo>)
      requires index < |messages| && Staking(messages[index])
      requires AllCredits(messages[..index], logs).Some? && AllKnown(AllCredits(messages[..index], logs).value, stored)
      requires InState(listAccounts, stored, done + AllCredits(messages[..index], logs).value)
      modifies set x | x in listAccounts
      ensures !ok ==> !(AllCredits(messages, logs).Some? && AllKnown(AllCredits(messages, logs).value, stored))
      ensures ok ==> AllCredits(messages[..index + 1], logs).Some?
                     && AllKnown(AllCredits(messages[..index + 1], logs).value, stored)
                     && InState(list, stored, done + AllCredits(messages[..index + 1], logs).value)
      ensures ok ==> forall x :: x in list ==> x in listAccounts || fresh(x)
    {
      ghost var credits := AllCredits(messages[..index], logs).value;
      CreditsOneMore(messages, logs, index, credits);
      if index >= |logs| {
        CreditFailureLasts(messages, logs, index, credits, stored);
        return false, listAccounts;
      }
      ok, list := HandleStakeRewards(messages[index], logs[index], listAccounts, done + credits);
      if !ok {
        CreditFailureLasts(messages, logs, index, credits, stored);
      } else {
        ghost var more := CreditsOf(messages[index], logs[index]).value;
        assert done + credits + more == done + (credits + more);
      }
    }

    ghost predicate Written(a: Address, before: map<Address, seq<Reward>>, done: seq<Credit>)
      reads this
    {
      a in before && a in stored && stored[a] == Credited(before[a], done, a)
    }

    /** `updateById` for every element of the list, in order, repeated objects included. */
    method WriteBack(listAccounts: seq<AccountInfo>, ghost done: seq<Credit>)
      requires AllTrack(listAccounts, stored, done) && AllListed(listAccounts, done)
      modifies this
      ensures stored == map a | a in old(stored) :: Credited(old(stored)[a], done, a)
    {
      ghost var before := stored;
      for i := 0 to |listAccounts|
        invariant stored.Keys == before.Keys && forall x :: x in listAccounts ==> Tracks(x, before, done)
        invariant forall a :: a in before ==> stored[a] == before[a] || stored[a] == Credited(before[a], done, a)
        invariant forall j :: 0 <= j < i ==> Written(listAccounts[j].address, before, done)
      {
        var element := listAccounts[i];
        assert Tracks(element, before, done);
        stored := stored[element.address := element.rewards];
      }
      forall a | a in before
        ensures stored[a] == Credited(before[a], done, a)
      {
        if x :| x in listAccounts && x.address == a {
          var j :| 0 <= j < |listAccounts| && listAccounts[j] == x;
          assert Written(listAccounts[j].address, before, done);
        } else {
          NoCreditNoChange(before[a], done, a);
        }
      }
    }
  }

  lemma CreditsOneMore(ms: seq<Message>, logs: seq<Log>, index: nat, credits: seq<Credit>)
    requires index < |ms| && AllCredits(ms[..index], logs) == Some(credits)
    ensures index < |logs| && CreditsOf(ms[index], logs[index]).Some? ==>
              AllCredits(ms[..index + 1], logs) == Some(credits + CreditsOf(ms[index], logs[index]).value)
  {
    assert ms[..index + 1][..index] == ms[..index];
  }

  predicate AllKnown(credits: seq<Credit>, stored: map<Address, seq<Reward>>) {
    forall c :: c in credits ==> c.delegator in stored
  }

  lemma SingleCredits(m: Message, log: Log)
    requires Staking(m) && !m.Exec?
    ensures CreditsOf(m, log).Some? && CreditsOf(m, log).value != [] ==>
              exists c :: c in CreditsOf(m, log).value && c.delegator == DelegatorOf(m)
    ensures CreditsOf(m, log).Some? ==> forall c :: c in CreditsOf(m, log).value ==> c.delegator == DelegatorOf(m)
  {
  }

  lemma ListedAfter(listAccounts: seq<AccountInfo>, list: seq<AccountInfo>, done: seq<Credit>, more: seq<Credit>,
      d: Address)
    requires AllListed(listAccounts, done) && listAccounts <= list
    requires forall c :: c in more ==> c.delegator == d
    requires more != [] ==> exists x :: x in list && x.address == d
    ensures AllListed(list, done + more)
  {
  }

  lemma {:induction false} StakingOnlyAre(ms: seq<Message>)
    ensures forall i :: 0 <= i < |StakingOnly(ms)| ==> Staking(StakingOnly(ms)[i])
  {
    if ms != [] { StakingOnlyAre(ms[..|ms| - 1]); }
  }

  /** A message that fails makes the whole transaction fail, or names an unknown account. */
  lemma {:induction false} CreditFailureLasts(ms: seq<Message>, logs: seq<Log>, index: nat, credits: seq<Credit>,
      stored: map<Address, seq<Reward>>)
    requires index < |ms| && AllCredits(ms[..index], logs) == Some(credits)
    requires index < |logs| ==> CreditsOf(ms[index], logs[index]).None? ||
                                exists c :: c in CreditsOf(ms[index], logs[index]).value && c.delegator !in stored
    ensures !(AllCredits(ms, logs).Some? && AllKnown(AllCredits(ms, logs).value, stored))
  {
    var n := |ms| - 1;
    if index < n {
      assert ms[..n][..index] == ms[..index];
      CreditFailureLasts(ms[..n], logs, index, credits, stored);
    }
  }

  lemma {:induction false} FailureLasts(txs: seq<Tx>, i: nat, done: seq<Credit>, stored: map<Address, seq<Reward>>)
    requires i < |txs| && JobCredits(txs[..i]) == Some(done)
    requires !(TxCredits(txs[i]).Some? && AllKnown(TxCredits(txs[i]).value, stored))
    ensures !(JobCredits(txs).Some? && AllKnown(JobCredits(txs).value, stored))
  {
    var n := |txs| - 1;
    if i < n {
      assert txs[..n][..i] == txs[..i];
      FailureLasts(txs[..n], i, done, stored);
    }
  }
}
