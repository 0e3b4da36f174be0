/**
 The services are runs of the protocol: a crawl job does what a run of its events does, and what the handler does to
 an expired timer is an event.
 */
module DelayJobRefinement {
  import opened LcdPages
  import opened DelayJobRuns
  import opened DelayJobs
  import opened AccountCrawl

  lemma {:induction false} RunConcat(s: State, a: seq<Event>, b: seq<Event>)
    requires ValidRun(s, a) && ValidRun(Run(s, a), b)
    ensures ValidRun(s, a + b) && Run(s, a + b) == Run(Run(s, a), b)
    decreases |a|
  {
    if a == [] {
      assert a + b == b;
    } else {
      assert (a + b)[1..] == a[1..] + b;
      RunConcat(Next(s, a[0]), a[1..], b);
    }
  }

  lemma OneEvent(s: State, ev: Event)
    requires Enabled(s, ev)
    ensures ValidRun(s, [ev]) && Run(s, [ev]) == Next(s, ev)
  {
    assert [ev][1..] == [];
    assert ValidRun(Next(s, ev), []);
  }

  lemma {:induction false} Cons(s: State, ev: Event, rest: seq<Event>)
    requires Enabled(s, ev) && ValidRun(Next(s, ev), rest)
    ensures ValidRun(s, [ev] + rest) && Run(s, [ev] + rest) == Run(Next(s, ev), rest)
  {
    assert ([ev] + rest)[1..] == rest;
  }

  /** The remaining addresses are fetched one after the other. */
  lemma {:induction false} Fetches(s: State, id: CrawlId, rest: seq<seq<Response>>) returns (evs: seq<Event>)
    requires id in s.crawls && s.crawls[id].phase.Fetching?
    requires |s.crawls[id].phase.fetched| + |rest| == |s.crawls[id].job.addresses|
    ensures ValidRun(s, evs) && Run(s, evs) == WithPhase(s, id, Fetching(s.crawls[id].phase.fetched + rest))
    decreases |rest|
  {
    var fetched := s.crawls[id].phase.fetched;
    if rest == [] {
      assert fetched + rest == fetched;
      evs := [];
      assert s == WithPhase(s, id, Fetching(fetched));
    } else {
      var ev := Fetch(id, rest[0]);
      var more := Fetches(Next(s, ev), id, rest[1..]);
      Cons(s, ev, more);
      assert fetched + [rest[0]] + rest[1..] == fetched + rest;
      evs := [ev] + more;
    }
  }

  /** The stored responses after positions `k` and on of a job are written in order. */
  function StoredFrom(stored: map<(Kind, Address), seq<Response>>, job: Job, results: seq<seq<Response>>, k: nat)
    : map<(Kind, Address), seq<Response>>
    requires |job.addresses| == |results| && k <= |results|
    decreases |results| - k
  {
    if k == |results| then stored
    else StoredFrom(stored[(job.kind, job.addresses[k]) := results[k]], job, results, k + 1)
  }

  lemma {:induction false} Stores(s: State, id: CrawlId, k: nat) returns (evs: seq<Event>)
    requires id in s.crawls && s.crawls[id].phase.Storing?
    requires k <= |s.crawls[id].phase.results| == |s.crawls[id].job.addresses|
    requires s.crawls[id].phase.left == Positions(|s.crawls[id].phase.results|) - Positions(k)
    ensures ValidRun(s, evs)
    ensures Run(s, evs) == WithPhase(s, id, Storing(s.crawls[id].phase.results, {}))
                           .(stored := StoredFrom(s.stored, s.crawls[id].job, s.crawls[id].phase.results, k))
    decreases |s.crawls[id].phase.results| - k
  {
    var c := s.crawls[id];
    var n := |c.phase.results|;
    if k == n {
      evs := [];
      assert Positions(n) - Positions(k) == {} && s == WithPhase(s, id, Storing(c.phase.results, {}));
    } else {
      var ev := Store(id, k);
      assert Positions(n) - Positions(k) - {k} == Positions(n) - Positions(k + 1);
      var more := Stores(Next(s, ev), id, k + 1);
      Cons(s, ev, more);
      evs := [ev] + more;
    }
  }

  function Dues(timers: seq<Timer>): multiset<(Address, int)> {
    if timers == [] then multiset{} else multiset{(timers[0].address, timers[0].expireTime)} + Dues(timers[1..])
  }

  function AfterRegisters(s: State, id: CrawlId, timers: seq<Timer>): State
    requires id in s.crawls
  {
    WithPhase(s, id, Registering(multiset{})).(registered := s.registered + timers)
  }

  lemma {:induction false} Registers(s: State, id: CrawlId, timers: seq<Timer>) returns (evs: seq<Event>)
    requires id in s.crawls && s.crawls[id].phase == Registering(Dues(timers))
    requires forall t :: t in timers ==> t.kind == CrawlTimer(s.crawls[id].job.kind)
    ensures ValidRun(s, evs) && Run(s, evs) == AfterRegisters(s, id, timers)
    decreases |timers|
  {
    if timers == [] {
      evs := [];
      NothingToRegister(s, id);
    } else {
      var ev := Register(id, timers[0].address, timers[0].expireTime);
      RegisterOne(s, id, timers);
      RegisterRest(s, id, Registering(Dues(timers[1..])), timers);
      var more := Registers(Next(s, ev), id, timers[1..]);
      Cons(s, ev, more);
      evs := [ev] + more;
    }
  }

  lemma NothingToRegister(s: State, id: CrawlId)
    requires id in s.crawls && s.crawls[id].phase == Registering(multiset{})
    ensures AfterRegisters(s, id, []) == s
  {
    assert s.registered + [] == s.registered && s.crawls[id := s.crawls[id]] == s.crawls;
  }

  lemma RegisterOne(s: State, id: CrawlId, timers: seq<Timer>)
    requires id in s.crawls && s.crawls[id].phase == Registering(Dues(timers))
    requires timers != [] && timers[0].kind == CrawlTimer(s.crawls[id].job.kind)
    ensures var ev := Register(id, timers[0].address, timers[0].expireTime);
            && Enabled(s, ev)
            && Next(s, ev) ==
                 WithPhase(s, id, Registering(Dues(timers[1..]))).(registered := s.registered + [timers[0]])
  {
    var due := (timers[0].address, timers[0].expireTime);
    assert Dues(timers) - multiset{due} == Dues(timers[1..]);
  }

  lemma RegisterRest(s: State, id: CrawlId, phase: Phase, timers: seq<Timer>)
    requires id in s.crawls && timers != []
    ensures AfterRegisters(WithPhase(s, id, phase).(registered := s.registered + [timers[0]]), id, timers[1..]) ==
            AfterRegisters(s, id, timers)
  {
    assert s.registered + [timers[0]] + timers[1..] == s.registered + timers;
  }

  // ----- what a crawl owes -----

  lemma {:induction false} DuesConcat(a: seq<Timer>, b: seq<Timer>)
    ensures Dues(a + b) == Dues(a) + Dues(b)
  {
    if a == [] {
      assert a + b == b;
    } else {
      assert (a + b)[1..] == a[1..] + b;
      DuesConcat(a[1..], b);
    }
  }

  lemma {:induction false} DuesOfOne(kind: Kind, a: Address, responses: seq<Response>)
    ensures Dues(TimersOf(kind, a, responses)) == InitialTimers(a, responses)
  {
    if responses != [] {
      var n := |responses| - 1;
      var last := Timer(CrawlTimer(kind), a, responses[n].first);
      DuesOfOne(kind, a, responses[..n]);
      assert TimersOf(kind, a, responses) == TimersOf(kind, a, responses[..n]) + [last];
      DuesOfLast(TimersOf(kind, a, responses[..n]), last);
    }
  }

  lemma {:induction false} DuesOfLast(timers: seq<Timer>, last: Timer)
    ensures Dues(timers + [last]) == Dues(timers) + multiset{(last.address, last.expireTime)}
  {
    DuesConcat(timers, [last]);
    assert [last][1..] == [];
  }

  lemma {:induction false} DuesOfAll(kind: Kind, addresses: seq<Address>, chain: map<Address, seq<Answer>>)
    requires forall a :: a in addresses ==> a in chain
    ensures Dues(DelayJobsOf(kind, addresses, chain)) == AllTimers(addresses, ResultsOf(addresses, chain))
  {
    if addresses != [] {
      var n := |addresses| - 1;
      var before, a := addresses[..n], addresses[n];
      DuesOfAll(kind, before, chain);
      DuesOfOne(kind, a, AllItems(chain[a]));
      DuesConcat(DelayJobsOf(kind, before, chain), TimersOf(kind, a, AllItems(chain[a])));
      assert ResultsOf(addresses, chain)[..n] == ResultsOf(before, chain);
    }
  }

  lemma {:induction false} KindOfAll(kind: Kind, addresses: seq<Address>, chain: map<Address, seq<Answer>>)
    requires forall a :: a in addresses ==> a in chain
    ensures forall t :: t in DelayJobsOf(kind, addresses, chain) ==> t.kind == CrawlTimer(kind)
  {
    if addresses != [] { KindOfAll(kind, addresses[..|addresses| - 1], chain); }
  }

  // ----- what a crawl stores -----

  lemma {:induction false} StoredFromIs(stored: map<(Kind, Address), seq<Response>>, job: Job,
      chain: map<Address, seq<Answer>>, k: nat, key: (Kind, Address))
    requires k <= |job.addresses| && forall a :: a in job.addresses ==> a in chain
    ensures var r := StoredFrom(stored, job, ResultsOf(job.addresses, chain), k);
            if key.0 == job.kind && key.1 in job.addresses[k..] then key in r && r[key] == AllItems(chain[key.1])
            else (key in r <==> key in stored) && (key in stored ==> r[key] == stored[key])
    decreases |job.addresses| - k
  {
    var results := ResultsOf(job.addresses, chain);
    if k < |results| {
      assert job.addresses[k..] == [job.addresses[k]] + job.addresses[k + 1..];
      StoredFromIs(stored[(job.kind, job.addresses[k]) := results[k]], job, chain, k + 1, key);
    }
  }

  // ----- the whole crawl -----

  lemma FetchPhase(s: State, job: Job, id: CrawlId, results: seq<seq<Response>>) returns (evs: seq<Event>, after: State)
    requires job in s.queued && id !in s.crawls && |results| == |job.addresses|
    ensures ValidRun(s, evs) && Run(s, evs) == after
    ensures after == s.(queued := s.queued - multiset{job},
                        crawls := s.crawls[id := Crawl(job, Storing(results, Positions(|results|)))])
  {
    var started := Next(s, Start(job, id));
    var fetches := Fetches(started, id, results);
    assert [] + results == results;
    Cons(s, Start(job, id), fetches);
    var fetched := Run(started, fetches);
    OneEvent(fetched, BeginStore(id));
    RunConcat(s, [Start(job, id)] + fetches, [BeginStore(id)]);
    evs, after := [Start(job, id)] + fetches + [BeginStore(id)], Next(fetched, BeginStore(id));
  }

  lemma StorePhase(s: State, id: CrawlId) returns (evs: seq<Event>, after: State)
    requires id in s.crawls && s.crawls[id].phase.Storing?
    requires |s.crawls[id].phase.results| == |s.crawls[id].job.addresses|
    requires s.crawls[id].phase.left == Positions(|s.crawls[id].phase.results|)
    ensures ValidRun(s, evs) && Run(s, evs) == after
    ensures var c := s.crawls[id];
            var phase := Registering(AllTimers(c.job.addresses, c.phase.results));
            after == s.(stored := StoredFrom(s.stored, c.job, c.phase.results, 0),
                        crawls := s.crawls[id := Crawl(c.job, phase)])
  {
    var results := s.crawls[id].phase.results;
    assert Positions(|results|) - Positions(0) == Positions(|results|);
    var stores := Stores(s, id, 0);
    var stored := Run(s, stores);
    OneEvent(stored, BeginRegister(id));
    RunConcat(s, stores, [BeginRegister(id)]);
    evs, after := stores + [BeginRegister(id)], Next(stored, BeginRegister(id));
  }

  lemma RegisterPhase(s: State, id: CrawlId, timers: seq<Timer>) returns (evs: seq<Event>, after: State)
    requires id in s.crawls && s.crawls[id].phase == Registering(Dues(timers))
    requires forall t :: t in timers ==> t.kind == CrawlTimer(s.crawls[id].job.kind)
    ensures ValidRun(s, evs) && Run(s, evs) == after
    ensures after == s.(registered := s.registered + timers, crawls := s.crawls - {id})
  {
    var registers := Registers(s, id, timers);
    var registered := Run(s, registers);
    OneEvent(registered, Finish(id));
    RunConcat(s, registers, [Finish(id)]);
    evs, after := registers + [Finish(id)], Next(registered, Finish(id));
  }

  lemma AllPhases(s: State, job: Job, id: CrawlId, chain: map<Address, seq<Answer>>) returns (evs: seq<Event>)
    requires job in s.queued && id !in s.crawls && forall a :: a in job.addresses ==> a in chain
    ensures ValidRun(s, evs)
    ensures Run(s, evs) == s.(queued := s.queued - multiset{job},
                              stored := StoredFrom(s.stored, job, ResultsOf(job.addresses, chain), 0),
                              registered := s.registered + DelayJobsOf(job.kind, job.addresses, chain))
  {
    var fetches, s1 := FetchPhase(s, job, id, ResultsOf(job.addresses, chain));
    var stores, s2 := StorePhase(s1, id);
    DuesOfAll(job.kind, job.addresses, chain);
    KindOfAll(job.kind, job.addresses, chain);
    var registers, s3 := RegisterPhase(s2, id, DelayJobsOf(job.kind, job.addresses, chain));
    assert s3.crawls == s.crawls;
    evs := ThreeRuns(s, fetches, stores, registers);
  }

  lemma ThreeRuns(s: State, a: seq<Event>, b: seq<Event>, c: seq<Event>) returns (evs: seq<Event>)
    requires ValidRun(s, a) && ValidRun(Run(s, a), b) && ValidRun(Run(Run(s, a), b), c)
    ensures ValidRun(s, evs) && Run(s, evs) == Run(Run(Run(s, a), b), c)
  {
    RunConcat(s, a, b);
    RunConcat(s, a + b, c);
    evs := a + b + c;
  }

  /**
   From any state a queued crawl of any addresses can run to its end: it stores for each of them all items of the
   chain's answers, leaves everything else stored alone, and has inserted the very timers the crawl job inserts, in
   their order.
   */
  lemma CrawlIsARun(s: State, job: Job, id: CrawlId, chain: map<Address, seq<Answer>>)
    returns (evs: seq<Event>, after: State)
    requires job in s.queued && id !in s.crawls && forall a :: a in job.addresses ==> a in chain
    ensures ValidRun(s, evs) && Run(s, evs) == after
    ensures after.registered == s.registered + DelayJobsOf(job.kind, job.addresses, chain)
    ensures after.queued == s.queued - multiset{job} && after.crawls == s.crawls
    ensures after.handled == s.handled && after.deleted == s.deleted
    ensures forall a :: a in job.addresses ==>
              (job.kind, a) in after.stored && after.stored[(job.kind, a)] == AllItems(chain[a])
    ensures forall key: (Kind, Address) :: key.0 != job.kind || key.1 !in job.addresses ==>
              (key in after.stored <==> key in s.stored) && (key in s.stored ==> after.stored[key] == s.stored[key])
  {
    evs := AllPhases(s, job, id, chain);
    after := Run(s, evs);
    assert job.addresses[0..] == job.addresses;
    forall a | a in job.addresses
      ensures (job.kind, a) in after.stored && after.stored[(job.kind, a)] == AllItems(chain[a])
    {
      StoredFromIs(s.stored, job, chain, 0, (job.kind, a));
    }
    forall key: (Kind, Address) | key.0 != job.kind || key.1 !in job.addresses
      ensures (key in after.stored <==> key in s.stored) && (key in s.stored ==> after.stored[key] == s.stored[key])
    {
      StoredFromIs(s.stored, job, chain, 0, key);
    }
  }

  /** An expired timer may be handled, which asks for exactly the crawls its type feeds, and may then be deleted. */
  lemma HandlingIsAnEvent(s: State, timer: TimerId, now: int, kind: Kind, a: Address)
    requires timer < |s.registered| && s.registered[timer].expireTime + 7000 < now
    ensures Enabled(s, Handle(timer, now)) && Enabled(Next(s, Handle(timer, now)), Delete(timer))
    ensures var after := Next(s, Handle(timer, now));
            && after.handled == s.handled + {timer} && after.stored == s.stored
            && after.queued[Job(kind, [a])] ==
                 s.queued[Job(kind, [a])] + multiset(CrawlsFor(s.registered[timer]))[Enqueued(QueueOf(kind), a)]
            && Next(after, Delete(timer)).deleted == s.deleted + {timer}
  {
    TimerAsksFor(s.registered[timer], QueueOf(kind), a);
  }
}
