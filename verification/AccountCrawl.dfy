/**
 One unbonding or redelegation crawl on its own: page through the chain's answers, store the responses, register
 a timer for each of them.
 */
module AccountCrawl {
  import opened LcdPages
  import opened Options
  import opened DelayJobRuns
  import opened DelayJobs

  type Answer = Option<Page<Response>>

  function TimersOf(kind: Kind, address: Address, responses: seq<Response>): seq<Timer> {
    seq(|responses|, i requires 0 <= i < |responses| => Timer(CrawlTimer(kind), address, responses[i].first))
  }

  function DelayJobsOf(kind: Kind, addresses: seq<Address>, chain: map<Address, seq<Answer>>): seq<Timer>
    requires forall a :: a in addresses ==> a in chain
  {
    if addresses == [] then []
    else
      var a := addresses[|addresses| - 1];
      DelayJobsOf(kind, addresses[..|addresses| - 1], chain) + TimersOf(kind, a, AllItems(chain[a]))
  }

  /** Every account is known and every answer about it arrives. */
  predicate Fetchable(known: set<Address>, addresses: seq<Address>, chain: map<Address, seq<Answer>>)
    requires forall a :: a in addresses ==> a in chain
  {
    forall a :: a in addresses ==> a in known && Complete(chain[a])
  }

  function ResultsOf(addresses: seq<Address>, chain: map<Address, seq<Answer>>): seq<seq<Response>>
    requires forall a :: a in addresses ==> a in chain
  {
    seq(|addresses|, i requires 0 <= i < |addresses| => AllItems(chain[addresses[i]]))
  }

  lemma OneMoreFetched(kind: Kind, addresses: seq<Address>, i: nat, chain: map<Address, seq<Answer>>)
    requires i < |addresses| && forall a :: a in addresses ==> a in chain
    ensures addresses[..i + 1] == addresses[..i] + [addresses[i]]
    ensures ResultsOf(addresses[..i + 1], chain) == ResultsOf(addresses[..i], chain) + [AllItems(chain[addresses[i]])]
    ensures DelayJobsOf(kind, addresses[..i + 1], chain) ==
            DelayJobsOf(kind, addresses[..i], chain) + TimersOf(kind, addresses[i], AllItems(chain[addresses[i]]))
  {
  }

  lemma {:induction false} EachHasItsTimer(kind: Kind, addresses: seq<Address>, chain: map<Address, seq<Answer>>,
      a: Address, r: Response)
    requires forall a :: a in addresses ==> a in chain
    requires a in addresses && r in AllItems(chain[a])
    ensures Timer(CrawlTimer(kind), a, r.first) in DelayJobsOf(kind, addresses, chain)
  {
    var last, before := addresses[|addresses| - 1], addresses[..|addresses| - 1];
    assert addresses == before + [last];
    if a == last {
      var i :| 0 <= i < |AllItems(chain[a])| && AllItems(chain[a])[i] == r;
      assert TimersOf(kind, a, AllItems(chain[a]))[i] == Timer(CrawlTimer(kind), a, r.first);
    } else {
      EachHasItsTimer(kind, before, chain, a, r);
    }
  }

  // ----- the timers of the protocol are the timers of the job -----

  lemma {:induction false} OneAddressOwes(kind: Kind, a: Address, responses: seq<Response>, b: Address, t: int)
    ensures InitialTimers(a, responses)[(b, t)] == multiset(TimersOf(kind, a, responses))[Timer(CrawlTimer(kind), b, t)]
  {
    if responses != [] {
      var before, r := responses[..|responses| - 1], responses[|responses| - 1];
      OneAddressOwes(kind, a, before, b, t);
      assert TimersOf(kind, a, responses) == TimersOf(kind, a, before) + [Timer(CrawlTimer(kind), a, r.first)];
    }
  }

  /** A crawl owes, as often, exactly the timers its job inserts. */
  lemma {:induction false} JobInsertsWhatIsOwed(kind: Kind, addresses: seq<Address>, chain: map<Address, seq<Answer>>,
      b: Address, t: int)
    requires forall a :: a in addresses ==> a in chain
    ensures AllTimers(addresses, ResultsOf(addresses, chain))[(b, t)] ==
            multiset(DelayJobsOf(kind, addresses, chain))[Timer(CrawlTimer(kind), b, t)]
  {
    if addresses != [] {
      var n := |addresses| - 1;
      JobInsertsWhatIsOwed(kind, addresses[..n], chain, b, t);
      OneAddressOwes(kind, addresses[n], AllItems(chain[addresses[n]]), b, t);
      assert ResultsOf(addresses, chain)[..n] == ResultsOf(addresses[..n], chain);
    }
  }

  /**
   Every item of every page of an address is among the responses stored for it, behind those of the earlier pages, and
   its timer among those inserted.
   */
  lemma EveryPageCounts(kind: Kind, addresses: seq<Address>, chain: map<Address, seq<Answer>>, a: Address,
      i: nat, j: nat)
    requires forall x :: x in addresses ==> x in chain && Complete(chain[x])
    requires a in addresses && i < |chain[a]| && chain[a][i].Some? && j < |chain[a][i].value.items|
    ensures var r, k := chain[a][i].value.items[j], Length(chain[a][..i]) + j;
            && k < |AllItems(chain[a])| == Length(chain[a]) && AllItems(chain[a])[k] == r
            && Timer(CrawlTimer(kind), a, r.first) in DelayJobsOf(kind, addresses, chain)
  {
    PageAt(chain[a], i);
    ItemsCount(chain[a]);
    var page, k := chain[a][i].value.items, Length(chain[a][..i]);
    assert AllItems(chain[a])[k..k + |page|][j] == page[j];
    EachHasItsTimer(kind, addresses, chain, a, chain[a][i].value.items[j]);
  }

  /** There are as many timers as items on all pages of all addresses of the job. */
  lemma {:induction false} NoOtherTimer(kind: Kind, addresses: seq<Address>, chain: map<Address, seq<Answer>>)
    requires forall x :: x in addresses ==> x in chain
    ensures |DelayJobsOf(kind, addresses, chain)| == TotalLength(addresses, chain)
  {
    if addresses != [] {
      NoOtherTimer(kind, addresses[..|addresses| - 1], chain);
      ItemsCount(chain[addresses[|addresses| - 1]]);
    }
  }

  function TotalLength(addresses: seq<Address>, chain: map<Address, seq<Answer>>): nat
    requires forall x :: x in addresses ==> x in chain
  {
    if addresses == [] then 0
    else TotalLength(addresses[..|addresses| - 1], chain) + Length(chain[addresses[|addresses| - 1]])
  }

  /** The documents of timers inserted one after the other. */
  function NewDocs(next: nat, timers: seq<Timer>): (docs: seq<Doc>)
    ensures |docs| == |timers| && forall i :: 0 <= i < |docs| ==> docs[i].id == next + i && docs[i].timer == timers[i]
  {
    seq(|timers|, i requires 0 <= i < |timers| => Doc(next + i, timers[i]))
  }

  /** One `updateById` after the other. */
  function StoredAfter(stored: map<Address, seq<Response>>, addresses: seq<Address>,
      results: seq<seq<Response>>): map<Address, seq<Response>>
    requires |addresses| == |results|
  {
    if addresses == [] then stored
    else
      var n := |addresses| - 1;
      StoredAfter(stored, addresses[..n], results[..n])[addresses[n] := results[n]]
  }

  lemma {:induction false} EachIsStored(stored: map<Address, seq<Response>>, addresses: seq<Address>,
      results: seq<seq<Response>>, chain: map<Address, seq<Answer>>)
    requires |addresses| == |results| && forall a :: a in addresses ==> a in stored && a in chain
    requires forall i :: 0 <= i < |addresses| ==> results[i] == AllItems(chain[addresses[i]])
    ensures StoredAfter(stored, addresses, results) ==
            map a | a in stored :: if a in addresses then AllItems(chain[a]) else stored[a]
  {
    if addresses != [] {
      var n := |addresses| - 1;
      assert addresses == addresses[..n] + [addresses[n]];
      EachIsStored(stored, addresses[..n], results[..n], chain);
    }
  }

  class CrawlAccountService {
    const kind: Kind
    const timers: DelayJobService
    var stored: map<Address, seq<Response>>  // the accounts known, with their stored responses

    constructor (kind: Kind, timers: DelayJobService, accounts: set<Address>)
      ensures this.kind == kind && this.timers == timers
      ensures stored == map a | a in accounts :: []
    {
      this.kind, this.timers := kind, timers;
      stored := map a | a in accounts :: [];
    }

    /** The job throws before it writes anything when an account is unknown or an answer is null. */
    method HandleJob(addresses: seq<Address>, chain: map<Address, seq<Answer>>) returns (ok: bool)
      requires timers.Valid()
      requires forall a :: a in addresses ==> a in chain && Answers(chain[a])
      modifies this`stored, timers
      ensures timers.Valid()
      ensures ok <==> forall a :: a in addresses ==> a in old(stored) && Complete(chain[a])
      ensures !ok ==> stored == old(stored) && timers.docs == old(timers.docs)
      ensures ok ==> stored == map a | a in old(stored) :: if a in addresses then AllItems(chain[a]) else old(stored)[a]
      ensures ok ==> multiset(timers.docs) == multiset(old(timers.docs)) +
                       multiset(NewDocs(old(timers.nextId), DelayJobsOf(kind, addresses, chain)))
    {
      var listUnbonds, listDelayJobs;
      ok, listUnbonds, listDelayJobs := FetchAccounts(addresses, chain);
      if ok {
        StoreAll(addresses, listUnbonds);
        EachIsStored(old(stored), addresses, listUnbonds, chain);
        RegisterAll(listDelayJobs);
      }
    }

    /** The loop over the addresses, up to the first write. */
    method FetchAccounts(addresses: seq<Address>, chain: map<Address, seq<Answer>>)
      returns (ok: bool, listUnbonds: seq<seq<Response>>, listDelayJobs: seq<Timer>)
      requires forall a :: a in addresses ==> a in chain && Answers(chain[a])
      ensures ok <==> Fetchable(stored.Keys, addresses, chain)
      ensures ok ==> listUnbonds == ResultsOf(addresses, chain) && listDelayJobs == DelayJobsOf(kind, addresses, chain)
    {
      listUnbonds, listDelayJobs := [], [];
      for i := 0 to |addresses|
        invariant Fetchable(stored.Keys, addresses[..i], chain)
        invariant listUnbonds == ResultsOf(addresses[..i], chain)
        invariant listDelayJobs == DelayJobsOf(kind, addresses[..i], chain)
      {
        var a := addresses[i];
        var fetched, responses := FetchAccount(a, chain);
        if !fetched {
          return false, [], [];
        }
        OneMoreFetched(kind, addresses, i, chain);
        listDelayJobs := listDelayJobs + TimersOf(kind, a, responses);
        listUnbonds := listUnbonds + [responses];
      }
      assert addresses[..|addresses|] == addresses;
      return true, listUnbonds, listDelayJobs;
    }

    method FetchAccount(a: Address, chain: map<Address, seq<Answer>>) returns (ok: bool, responses: seq<Response>)
      requires a in chain && Answers(chain[a])
      ensures ok <==> a in stored && Complete(chain[a])
      ensures ok ==> responses == AllItems(chain[a])
    {
      ok, responses := FetchAll(chain[a]);
      ok := ok && a in stored;
    }

    method StoreAll(addresses: seq<Address>, results: seq<seq<Response>>)
      requires |addresses| == |results|
      modifies this`stored
      ensures stored == StoredAfter(old(stored), addresses, results)
    {
      ghost var before := stored;
      for i := 0 to |addresses|
        invariant stored == StoredAfter(before, addresses[..i], results[..i])
      {
        assert addresses[..i + 1][..i] == addresses[..i] && results[..i + 1][..i] == results[..i];
        stored := stored[addresses[i] := results[i]];
      }
      assert addresses[..|addresses|] == addresses && results[..|results|] == results;
    }

    method RegisterAll(listDelayJobs: seq<Timer>)
      requires timers.Valid()
      modifies timers
      ensures timers.Valid()
      ensures multiset(timers.docs) == multiset(old(timers.docs)) + multiset(NewDocs(old(timers.nextId), listDelayJobs))
    {
      for i := 0 to |listDelayJobs|
        invariant timers.Valid() && timers.nextId == old(timers.nextId) + i
        invariant multiset(timers.docs) ==
                  multiset(old(timers.docs)) + multiset(NewDocs(old(timers.nextId), listDelayJobs[..i]))
      {
        timers.AddNewJob(listDelayJobs[i]);
        assert NewDocs(old(timers.nextId), listDelayJobs[..i + 1]) ==
               NewDocs(old(timers.nextId), listDelayJobs[..i]) + [Doc(old(timers.nextId) + i, listDelayJobs[i])];
      }
      assert listDelayJobs[..|listDelayJobs|] == listDelayJobs;
    }
  }
}
