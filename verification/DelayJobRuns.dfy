/** The protocol between the unbonding/redelegation crawlers and the delay-job handler, as a state machine. */
module DelayJobRuns {
  /*
   Runs are every interleaving of any number of crawls in flight and any number of handler runs.
   A crawl fetches the responses of its addresses, stores them, and then registers one timer per response.  The
   handler reads timers, enqueues a crawl for an expired one and afterwards deletes it; it may work from a reading
   that is out of date.
   */

  type Address = string
  type TimerId = nat
  type CrawlId = nat

  const GRACE := 7000

  datatype Kind = Unbond | Redelegate

  datatype TimerType = CrawlTimer(kind: Kind) | DelayedVesting

  /** A response of the chain: the completion time of its first entry, and those of the others. */
  datatype Response = Response(first: int, others: seq<int>)

  datatype Timer = Timer(kind: TimerType, address: Address, expireTime: int)

  datatype Job = Job(kind: Kind, addresses: seq<Address>)

  datatype Phase =
    | Fetching(fetched: seq<seq<Response>>)                       // results of the first addresses of the job
    | Storing(results: seq<seq<Response>>, left: set<nat>)        // positions whose `updateById` is outstanding
    | Registering(owed: multiset<(Address, int)>)                 // timers whose `addNewJob` is outstanding

  datatype Crawl = Crawl(job: Job, phase: Phase)

  datatype State = State(
    stored: map<(Kind, Address), seq<Response>>,
    registered: seq<Timer>,       // every timer ever inserted; its position is its `_id`
    handled: set<TimerId>,        // timers a handler has enqueued a crawl for
    deleted: set<TimerId>,
    queued: multiset<Job>,
    crawls: map<CrawlId, Crawl>)

  datatype Event =
    | Request(job: Job)                                   // another service asks for a crawl
    | Start(job: Job, id: CrawlId)
    | Fetch(id: CrawlId, responses: seq<Response>)
    | BeginStore(id: CrawlId)
    | Store(id: CrawlId, position: nat)
    | BeginRegister(id: CrawlId)
    | Register(id: CrawlId, address: Address, expireTime: int)
    | Finish(id: CrawlId)
    | AddVesting(address: Address, expireTime: int)
    | Handle(timer: TimerId, now: int)
    | Delete(timer: TimerId)

  const INITIAL := State(map[], [], {}, {}, multiset{}, map[])

  predicate Enabled(s: State, ev: Event) {
    match ev
    case Request(_) => true
    case Start(job, id) => job in s.queued && id !in s.crawls
    case Fetch(id, _) => id in s.crawls && s.crawls[id].phase.Fetching?
                         && |s.crawls[id].phase.fetched| < |s.crawls[id].job.addresses|
    case BeginStore(id) => id in s.crawls && s.crawls[id].phase.Fetching?
                           && |s.crawls[id].phase.fetched| == |s.crawls[id].job.addresses|
    case Store(id, i) => id in s.crawls && s.crawls[id].phase.Storing? && i in s.crawls[id].phase.left
                         && i < |s.crawls[id].phase.results| && i < |s.crawls[id].job.addresses|
    case BeginRegister(id) => id in s.crawls && s.crawls[id].phase.Storing? && s.crawls[id].phase.left == {}
                              && |s.crawls[id].phase.results| == |s.crawls[id].job.addresses|
    case Register(id, a, t) => id in s.crawls && s.crawls[id].phase.Registering? && (a, t) in s.crawls[id].phase.owed
    case Finish(id) => id in s.crawls && s.crawls[id].phase.Registering? && s.crawls[id].phase.owed == multiset{}
    case AddVesting(_, _) => true
    case Handle(timer, now) => timer < |s.registered| && s.registered[timer].expireTime + GRACE < now
    case Delete(timer) => timer in s.handled
  }

  function InitialTimers(address: Address, responses: seq<Response>): multiset<(Address, int)> {
    if responses == [] then multiset{}
    else InitialTimers(address, responses[..|responses| - 1]) + multiset{(address, responses[|responses| - 1].first)}
  }

  /** `listDelayJobs`: one timer per response, at the completion time of its first entry. */
  function AllTimers(addresses: seq<Address>, results: seq<seq<Response>>): multiset<(Address, int)>
    requires |addresses| == |results|
  {
    if addresses == [] then multiset{}
    else
      var n := |addresses| - 1;
      AllTimers(addresses[..n], results[..n]) + InitialTimers(addresses[n], results[n])
  }

  function Positions(n: nat): (r: set<nat>)
    ensures forall i: nat :: i in r <==> i < n
  {
    if n == 0 then {} else Positions(n - 1) + {n - 1}
  }

  function WithPhase(s: State, id: CrawlId, phase: Phase): State
    requires id in s.crawls
  {
    s.(crawls := s.crawls[id := s.crawls[id].(phase := phase)])
  }

  function Next(s: State, ev: Event): State
    requires Enabled(s, ev)
  {
    match ev
    case Request(job) => s.(queued := s.queued + multiset{job})
    case Start(job, id) => s.(queued := s.queued - multiset{job}, crawls := s.crawls[id := Crawl(job, Fetching([]))])
    case Fetch(id, responses) => WithPhase(s, id, Fetching(s.crawls[id].phase.fetched + [responses]))
    case BeginStore(id) =>
      var results := s.crawls[id].phase.fetched;
      WithPhase(s, id, Storing(results, Positions(|results|)))
    case Store(id, i) =>
      var crawl := s.crawls[id];
      WithPhase(s, id, Storing(crawl.phase.results, crawl.phase.left - {i}))
        .(stored := s.stored[(crawl.job.kind, crawl.job.addresses[i]) := crawl.phase.results[i]])
    case BeginRegister(id) =>
      WithPhase(s, id, Registering(AllTimers(s.crawls[id].job.addresses, s.crawls[id].phase.results)))
    case Register(id, a, t) =>
      WithPhase(s, id, Registering(s.crawls[id].phase.owed - multiset{(a, t)}))
        .(registered := s.registered + [Timer(CrawlTimer(s.crawls[id].job.kind), a, t)])
    case Finish(id) => s.(crawls := s.crawls - {id})
    case AddVesting(a, t) => s.(registered := s.registered + [Timer(DelayedVesting, a, t)])
    case Handle(timer, _) =>
      var e := s.registered[timer];
      s.(handled := s.handled + {timer},
         queued := if e.kind.CrawlTimer? then s.queued + multiset{Job(e.kind.kind, [e.address])} else s.queued)
    case Delete(timer) => s.(deleted := s.deleted + {timer})
  }

  ghost predicate ValidRun(s: State, evs: seq<Event>)
    decreases |evs|
  {
    evs == [] || (Enabled(s, evs[0]) && ValidRun(Next(s, evs[0]), evs[1..]))
  }

  ghost function Run(s: State, evs: seq<Event>): State
    requires ValidRun(s, evs)
    decreases |evs|
  {
    if evs == [] then s else Run(Next(s, evs[0]), evs[1..])
  }

  // ----- who takes care of a stored response -----

  /** A timer of the collection that no handler has taken up. */
  ghost predicate PendingTimer(s: State, kind: Kind, a: Address, t: int) {
    exists id :: 0 <= id < |s.registered| && id !in s.handled && id !in s.deleted &&
      s.registered[id] == Timer(CrawlTimer(kind), a, t)
  }

  ghost predicate QueuedCrawl(s: State, kind: Kind, a: Address) {
    exists job :: job in s.queued && job.kind == kind && a in job.addresses
  }

  ghost predicate FetchedFor(addresses: seq<Address>, results: seq<seq<Response>>, a: Address, t: int) {
    exists i :: 0 <= i < |addresses| && i < |results| && addresses[i] == a && Shows(results[i], t)
  }

  ghost predicate Shows(responses: seq<Response>, t: int) {
    exists r :: r in responses && r.first == t
  }

  ghost predicate StoreOutstanding(addresses: seq<Address>, left: set<nat>, a: Address) {
    exists i :: i in left && i < |addresses| && addresses[i] == a
  }

  /** A crawl in flight that will still store this address anew, or still register this very timer. */
  ghost predicate Owes(c: Crawl, a: Address, t: int) {
    && a in c.job.addresses
    && match c.phase
       case Fetching(_) => true
       case Storing(results, left) => StoreOutstanding(c.job.addresses, left, a)
                                      || FetchedFor(c.job.addresses, results, a, t)
       case Registering(owed) => (a, t) in owed
  }

  ghost predicate CrawlInFlight(s: State, kind: Kind, a: Address, t: int) {
    exists id :: id in s.crawls && s.crawls[id].job.kind == kind && Owes(s.crawls[id], a, t)
  }

  ghost predicate Remembered(s: State, kind: Kind, a: Address, t: int) {
    PendingTimer(s, kind, a, t) || QueuedCrawl(s, kind, a) || CrawlInFlight(s, kind, a, t)
  }

  ghost predicate NothingForgotten(s: State) {
    forall k, r :: k in s.stored && r in s.stored[k] ==> Remembered(s, k.0, k.1, r.first)
  }

  /** Only handled timers are deleted, only inserted timers are handled. */
  ghost predicate TimersOk(s: State) {
    s.deleted <= s.handled && forall id :: id in s.handled ==> id < |s.registered|
  }

  /** While storing, a crawl holds one result per address. */
  ghost predicate ShapeOk(c: Crawl) {
    && (c.phase.Fetching? ==> |c.phase.fetched| <= |c.job.addresses|)
    && (c.phase.Storing? ==> |c.phase.results| == |c.job.addresses|)
    && (c.phase.Storing? ==> forall i :: i in c.phase.left ==> i < |c.job.addresses|)
  }

  ghost predicate ShapesOk(s: State) {
    forall id :: id in s.crawls ==> ShapeOk(s.crawls[id])
  }

  ghost predicate Inv(s: State) {
    TimersOk(s) && ShapesOk(s) && NothingForgotten(s)
  }

  // ----- the timers a crawl registers -----

  lemma {:induction false} InitialTimersAre(a: Address, responses: seq<Response>, t: int)
    ensures (a, t) in InitialTimers(a, responses) <==> Shows(responses, t)
    ensures forall x :: x in InitialTimers(a, responses) ==> x.0 == a
  {
    if responses != [] {
      InitialTimersAre(a, responses[..|responses| - 1], t);
      assert responses == responses[..|responses| - 1] + [responses[|responses| - 1]];
    }
  }

  lemma FetchedForLast(addresses: seq<Address>, results: seq<seq<Response>>, a: Address, t: int)
    requires |addresses| == |results| > 0
    ensures var n := |addresses| - 1;
            FetchedFor(addresses, results, a, t) <==>
              FetchedFor(addresses[..n], results[..n], a, t) || (addresses[n] == a && Shows(results[n], t))
  {
  }

  lemma {:induction false} AllTimersAre(addresses: seq<Address>, results: seq<seq<Response>>, a: Address, t: int)
    requires |addresses| == |results|
    ensures (a, t) in AllTimers(addresses, results) <==> FetchedFor(addresses, results, a, t)
  {
    if addresses != [] {
      var n := |addresses| - 1;
      AllTimersAre(addresses[..n], results[..n], a, t);
      InitialTimersAre(addresses[n], results[n], t);
      FetchedForLast(addresses, results, a, t);
    }
  }

  // ----- each step -----

  /** One response that was taken care of before a step that leaves it stored. */
  lemma StillRemembered(s: State, ev: Event, kind: Kind, a: Address, t: int)
    requires Enabled(s, ev) && TimersOk(s)
    requires Remembered(s, kind, a, t)
    requires ev.Store? ==> (s.crawls[ev.id].job.kind, s.crawls[ev.id].job.addresses[ev.position]) != (kind, a)
    ensures Remembered(Next(s, ev), kind, a, t)
  {
    if PendingTimer(s, kind, a, t) {
      TimerStays(s, ev, kind, a, t);
    } else if QueuedCrawl(s, kind, a) {
      QueueStays(s, ev, kind, a, t);
    } else {
      CrawlStays(s, ev, kind, a, t);
    }
  }

  lemma TimerStays(s: State, ev: Event, kind: Kind, a: Address, t: int)
    requires Enabled(s, ev) && PendingTimer(s, kind, a, t)
    ensures Remembered(Next(s, ev), kind, a, t)
  {
    var s' := Next(s, ev);
    var id :| 0 <= id < |s.registered| && id !in s.handled && id !in s.deleted &&
              s.registered[id] == Timer(CrawlTimer(kind), a, t);
    if ev.Handle? && ev.timer == id {
      assert Job(kind, [a]) in s'.queued;
    } else {
      assert s'.registered[id] == s.registered[id];
    }
  }

  lemma QueueStays(s: State, ev: Event, kind: Kind, a: Address, t: int)
    requires Enabled(s, ev) && QueuedCrawl(s, kind, a)
    ensures Remembered(Next(s, ev), kind, a, t)
  {
    var s' := Next(s, ev);
    var job :| job in s.queued && job.kind == kind && a in job.addresses;
    if ev.Start? && ev.job == job {
      assert Owes(s'.crawls[ev.id], a, t);
    } else {
      assert job in s'.queued;
    }
  }

  /** No step of any crawl drops what a crawl owes before a timer holds it. */
  lemma CrawlStays(s: State, ev: Event, kind: Kind, a: Address, t: int)
    requires Enabled(s, ev) && TimersOk(s) && CrawlInFlight(s, kind, a, t)
    requires ev.Store? ==> (s.crawls[ev.id].job.kind, s.crawls[ev.id].job.addresses[ev.position]) != (kind, a)
    ensures Remembered(Next(s, ev), kind, a, t)
  {
    var id :| id in s.crawls && s.crawls[id].job.kind == kind && Owes(s.crawls[id], a, t);
    if !Moves(ev, id) {
      Untouched(s, ev, id);
    } else {
      match ev
      case Fetch(_, responses) => FetchOwes(s, id, responses, a, t);
      case BeginStore(_) => BeginStoreOwes(s, id, a, t);
      case Store(_, i) => StoreOwes(s, id, i, a, t);
      case BeginRegister(_) => BeginRegisterOwes(s, id, a, t);
      case Register(_, b, u) => RegisterOwes(s, id, b, u, a, t);
    }
  }

  /** The steps of the crawl `id` itself, as long as it owes something. */
  predicate Moves(ev: Event, id: CrawlId) {
    match ev
    case Fetch(x, _) => x == id
    case BeginStore(x) => x == id
    case Store(x, _) => x == id
    case BeginRegister(x) => x == id
    case Register(x, _, _) => x == id
    case _ => false
  }

  lemma Untouched(s: State, ev: Event, id: CrawlId)
    requires Enabled(s, ev) && id in s.crawls && !Moves(ev, id)
    requires s.crawls[id].phase.Registering? ==> s.crawls[id].phase.owed != multiset{}
    ensures id in Next(s, ev).crawls && Next(s, ev).crawls[id] == s.crawls[id]
  {
  }

  lemma FetchOwes(s: State, id: CrawlId, responses: seq<Response>, a: Address, t: int)
    requires Enabled(s, Fetch(id, responses)) && Owes(s.crawls[id], a, t)
    ensures Owes(Next(s, Fetch(id, responses)).crawls[id], a, t)
  {
  }

  lemma BeginStoreOwes(s: State, id: CrawlId, a: Address, t: int)
    requires Enabled(s, BeginStore(id)) && Owes(s.crawls[id], a, t)
    ensures Owes(Next(s, BeginStore(id)).crawls[id], a, t)
  {
  }

  lemma StoreOwes(s: State, id: CrawlId, position: nat, a: Address, t: int)
    requires Enabled(s, Store(id, position)) && Owes(s.crawls[id], a, t)
    requires s.crawls[id].job.addresses[position] != a
    ensures Owes(Next(s, Store(id, position)).crawls[id], a, t)
  {
  }

  lemma BeginRegisterOwes(s: State, id: CrawlId, a: Address, t: int)
    requires Enabled(s, BeginRegister(id)) && Owes(s.crawls[id], a, t)
    ensures Owes(Next(s, BeginRegister(id)).crawls[id], a, t)
  {
    AllTimersAre(s.crawls[id].job.addresses, s.crawls[id].phase.results, a, t);
  }

  lemma RegisterOwes(s: State, id: CrawlId, b: Address, u: int, a: Address, t: int)
    requires TimersOk(s) && Enabled(s, Register(id, b, u)) && Owes(s.crawls[id], a, t)
    ensures Remembered(Next(s, Register(id, b, u)), s.crawls[id].job.kind, a, t)
  {
    var s', kind := Next(s, Register(id, b, u)), s.crawls[id].job.kind;
    if (b, u) == (a, t) {
      assert s'.registered[|s.registered|] == Timer(CrawlTimer(kind), a, t);
    } else {
      assert Owes(s'.crawls[id], a, t);
    }
  }

  /** The address just stored is remembered by the crawl that stored it. */
  lemma StoredIsRemembered(s: State, id: CrawlId, i: nat, r: Response)
    requires ShapesOk(s) && Enabled(s, Store(id, i)) && r in s.crawls[id].phase.results[i]
    ensures Remembered(Next(s, Store(id, i)), s.crawls[id].job.kind, s.crawls[id].job.addresses[i], r.first)
  {
    var c, s' := s.crawls[id], Next(s, Store(id, i));
    assert Shows(c.phase.results[i], r.first);
    assert FetchedFor(c.job.addresses, c.phase.results, c.job.addresses[i], r.first);
    assert Owes(s'.crawls[id], c.job.addresses[i], r.first);
  }

  lemma TimersStep(s: State, ev: Event)
    requires TimersOk(s) && Enabled(s, ev)
    ensures TimersOk(Next(s, ev))
  {
  }

  lemma ShapesStep(s: State, ev: Event)
    requires ShapesOk(s) && Enabled(s, ev)
    ensures ShapesOk(Next(s, ev))
  {
    forall id | id in Next(s, ev).crawls
      ensures ShapeOk(Next(s, ev).crawls[id])
    {
      ShapeStep(s, ev, id);
    }
  }

  lemma ShapeStep(s: State, ev: Event, id: CrawlId)
    requires id in s.crawls ==> ShapeOk(s.crawls[id])
    requires Enabled(s, ev) && id in Next(s, ev).crawls
    ensures ShapeOk(Next(s, ev).crawls[id])
  {
  }

  lemma Step(s: State, ev: Event)
    requires Inv(s) && Enabled(s, ev)
    ensures Inv(Next(s, ev))
  {
    var s' := Next(s, ev);
    TimersStep(s, ev);
    ShapesStep(s, ev);
    forall k, r | k in s'.stored && r in s'.stored[k]
      ensures Remembered(s', k.0, k.1, r.first)
    {
      if ev.Store? && k == (s.crawls[ev.id].job.kind, s.crawls[ev.id].job.addresses[ev.position]) {
        StoredIsRemembered(s, ev.id, ev.position, r);
      } else {
        StillRemembered(s, ev, k.0, k.1, r.first);
      }
    }
  }

  lemma {:induction false} RunKeepsInv(s: State, evs: seq<Event>)
    requires Inv(s) && ValidRun(s, evs)
    ensures Inv(Run(s, evs))
    decreases |evs|
  {
    if evs != [] {
      Step(s, evs[0]);
      RunKeepsInv(Next(s, evs[0]), evs[1..]);
    }
  }

  /**
   In every run from the empty database each stored response has a pending timer at its first completion time, or
   a queued crawl of its address, or one in flight that will still store it anew or register that timer.
   */
  lemma NeverForgotten(evs: seq<Event>)
    requires ValidRun(INITIAL, evs)
    ensures NothingForgotten(Run(INITIAL, evs))
    ensures ShapesOk(Run(INITIAL, evs))
  {
    RunKeepsInv(INITIAL, evs);
  }

  /** So when the queue is empty and no crawl is in flight, every stored response has its own pending timer. */
  lemma QuietMeansTimers(evs: seq<Event>)
    requires ValidRun(INITIAL, evs)
    ensures var s := Run(INITIAL, evs);
            s.queued == multiset{} && s.crawls == map[] ==>
              forall k, r :: k in s.stored && r in s.stored[k] ==> PendingTimer(s, k.0, k.1, r.first)
  {
    NeverForgotten(evs);
    var s := Run(INITIAL, evs);
    if s.queued == multiset{} && s.crawls == map[] {
      forall k, r | k in s.stored && r in s.stored[k]
        ensures PendingTimer(s, k.0, k.1, r.first)
      {
        assert Remembered(s, k.0, k.1, r.first);
      }
    }
  }
}
