/** The block crawler: batches of heights fetched from nodes that may lag, and a cursor persisted in Redis. */
module BlockCrawler {
  import opened Options

  /*
   Nobody waits for the write of the cursor, and the process may crash between any two steps.
   */

  /** A node's answer for one height: null, a JSON-RPC answer without `result`, or a block, maybe of another height. */
  datatype Reply = Null | NoResult | Block(height: int)

  datatype Config = Config(startBlock: Option<int>, perCall: int)

  /** What outlives a run: the two Redis keys, cursor writes still under way, and what has been asked for. */
  datatype Store = Store(
    cursor: Option<int>, latest: Option<int>,
    writes: seq<int>,       // cursor writes sent and not landed, oldest first
    jobs: seq<int>,         // heights of the blocks handed to the `handle.block` queue, in order
    reports: seq<int>)      // latest heights reported by the nodes so far

  function Max(a: int, b: int): int {
    if a < b then b else a
  }

  function Min(a: int, b: int): int {
    if a < b then a else b
  }

  function Base(cfg: Config): int {
    if cfg.startBlock.Some? then cfg.startBlock.value else 0
  }

  function Current(cfg: Config, s: Store): int {
    if s.cursor.Some? then s.cursor.value else Base(cfg)
  }

  function Latest(s: Store): int {
    if s.latest.Some? then s.latest.value else 0
  }

  function EndBlock(cfg: Config, s: Store, reported: int): int {
    Min(Current(cfg, s) + cfg.perCall, Max(reported, Latest(s)))
  }

  function Heights(first: int, last: int): (r: seq<int>)
    ensures |r| == if last < first then 0 else last - first + 1
    ensures forall i :: 0 <= i < |r| ==> r[i] == first + i
    decreases last - first
  {
    if last < first then [] else Heights(first, last - 1) + [last]
  }

  predicate AnyNull(hs: seq<int>, reply: int -> Reply) {
    exists h :: h in hs && reply(h) == Null
  }

  predicate AllBlocks(hs: seq<int>, reply: int -> Reply) {
    forall h :: h in hs ==> reply(h) == Block(h)
  }

  /** `handleListBlock` dies at the first answer without a `result`; the blocks that precede it are enqueued. */
  function UpToNoResult(hs: seq<int>, reply: int -> Reply): seq<int> {
    if hs == [] || !reply(hs[0]).Block? then [] else [reply(hs[0]).height] + UpToNoResult(hs[1..], reply)
  }

  function Batch(cfg: Config, s: Store, reported: int): seq<int> {
    Heights(Current(cfg, s) + 1, EndBlock(cfg, s, reported))
  }

  function WithReport(s: Store, reported: int): Store {
    s.(latest := if reported > Latest(s) then Some(reported) else s.latest, reports := s.reports + [reported])
  }

  /** One run of the job up to the point where its cursor write is sent. */
  function AfterJob(cfg: Config, s: Store, reported: int, reply: int -> Reply): Store {
    var hs, end := Batch(cfg, s, reported), EndBlock(cfg, s, reported);
    if AnyNull(hs, reply) then WithReport(s, reported)
    else
      WithReport(s, reported).(
        jobs := s.jobs + UpToNoResult(hs, reply),
        writes := if Current(cfg, s) < end then s.writes + [end] else s.writes)
  }

  // ----- the service -----

  class CrawlBlockService {
    const cfg: Config
    var currentBlock: int
    var store: Store

    constructor (cfg: Config)
      ensures this.cfg == cfg && store == EMPTY
    {
      this.cfg := cfg;
      currentBlock := 0;
      store := EMPTY;
    }

    method InitEnv()
      modifies this`currentBlock
      ensures currentBlock == Current(cfg, store)
    {
      currentBlock := 0;
      if store.cursor.Some? {
        currentBlock := store.cursor.value;
      } else {
        if cfg.startBlock.Some? {
          currentBlock := cfg.startBlock.value;
        } else {
          currentBlock := 0;
        }
      }
      currentBlock := if store.cursor.Some? then store.cursor.value else currentBlock;
    }

    /** One `crawl.block` job; it fails on a null report (changing nothing) or when a block's answer is null. */
    method CrawlBlock(report: Option<int>, reply: int -> Reply) returns (ok: bool)
      modifies this
      ensures report.None? ==> !ok && store == old(store)
      ensures report.Some? ==> store == AfterJob(cfg, old(store), report.value, reply)
      ensures report.Some? ==> (ok <==> !AnyNull(Batch(cfg, old(store), report.value), reply))
    {
      InitEnv();
      if report.None? {
        return false;
      }
      ok := HandleJobCrawlBlock(report.value, reply);
    }

    method HandleJobCrawlBlock(latestBlockNetwork: int, reply: int -> Reply) returns (ok: bool)
      requires currentBlock == Current(cfg, store)
      modifies this
      ensures store == AfterJob(cfg, old(store), latestBlockNetwork, reply)
      ensures ok <==> !AnyNull(Batch(cfg, old(store), latestBlockNetwork), reply)
    {
      var latestBlockRedis := SaveLatest(latestBlockNetwork);
      var startBlock := currentBlock + 1;
      var endBlock := startBlock + cfg.perCall - 1;
      if endBlock > Max(latestBlockNetwork, latestBlockRedis) {
        endBlock := Max(latestBlockNetwork, latestBlockRedis);
      }
      ghost var hs := Batch(cfg, old(store), latestBlockNetwork);
      assert hs == Heights(startBlock, endBlock);
      var listPromise := Fetch(startBlock, endBlock, reply);
      if Null in listPromise {
        return false;
      }
      HandleListBlock(listPromise, hs, reply);
      MoveCursor(endBlock);
      return true;
    }

    method MoveCursor(endBlock: int)
      modifies this
      ensures store == old(store).(writes := if old(currentBlock) < endBlock then old(store).writes + [endBlock]
                                             else old(store).writes)
    {
      if currentBlock < endBlock {
        currentBlock := endBlock;
        store := store.(writes := store.writes + [currentBlock]);
      }
    }

    method SaveLatest(latestBlockNetwork: int) returns (latestBlockRedis: int)
      modifies this`store
      ensures latestBlockRedis == Latest(old(store))
      ensures store == WithReport(old(store), latestBlockNetwork)
    {
      latestBlockRedis := if store.latest.Some? then store.latest.value else 0;
      store := store.(reports := store.reports + [latestBlockNetwork]);
      if latestBlockNetwork > latestBlockRedis {
        store := store.(latest := Some(latestBlockNetwork));
      }
    }

    method Fetch(first: int, last: int, reply: int -> Reply) returns (answers: seq<Reply>)
      ensures |answers| == |Heights(first, last)|
      ensures forall j :: 0 <= j < |answers| ==> answers[j] == reply(Heights(first, last)[j])
      ensures Null in answers <==> AnyNull(Heights(first, last), reply)
    {
      answers := [];
      var i := first;
      while i <= last
        invariant first <= i && (i <= last + 1 || i == first)
        invariant |answers| == i - first
        invariant forall j :: 0 <= j < |answers| ==> answers[j] == reply(first + j)
      {
        answers := answers + [reply(i)];
        i := i + 1;
      }
      ghost var hs := Heights(first, last);
      if Null in answers {
        var j :| 0 <= j < |answers| && answers[j] == Null;
        assert hs[j] in hs && reply(hs[j]) == Null;
      }
    }

    method HandleListBlock(blocks: seq<Reply>, ghost hs: seq<int>, ghost reply: int -> Reply)
      requires |blocks| == |hs| && Null !in blocks
      requires forall j :: 0 <= j < |hs| ==> blocks[j] == reply(hs[j])
      modifies this`store
      ensures store == old(store).(jobs := old(store).jobs + UpToNoResult(hs, reply))
    {
      var i := 0;
      while i < |blocks|
        invariant 0 <= i <= |blocks|
        invariant store == old(store).(jobs := store.jobs)
        invariant store.jobs + UpToNoResult(hs[i..], reply) == old(store).jobs + UpToNoResult(hs, reply)
      {
        if blocks[i] == NoResult {
          return;
        }
        assert blocks[i] in blocks && hs[i..][1..] == hs[i + 1..];
        store := store.(jobs := store.jobs + [blocks[i].height]);
        i := i + 1;
      }
    }
  }

  // ----- runs with lost writes and crashes -----

  const EMPTY := Store(None, None, [], [], [])

  datatype Event =
    | Job(reported: int, reply: int -> Reply)
    | JobDies(reported: int, reply: int -> Reply, enqueued: nat)  // crash after some of the batch was enqueued
    | Land                                                        // the oldest cursor write reaches Redis
    | Crash                                                       // the process dies; writes under way are lost

  predicate Enabled(cfg: Config, s: Store, ev: Event) {
    match ev
    case Job(_, _) => true
    case JobDies(reported, reply, k) =>
      !AnyNull(Batch(cfg, s, reported), reply) && k <= |UpToNoResult(Batch(cfg, s, reported), reply)|
    case Land => s.writes != []
    case Crash => true
  }

  function Next(cfg: Config, s: Store, ev: Event): Store
    requires Enabled(cfg, s, ev)
  {
    match ev
    case Job(reported, reply) => AfterJob(cfg, s, reported, reply)
    case JobDies(reported, reply, k) =>
      WithReport(s, reported).(jobs := s.jobs + UpToNoResult(Batch(cfg, s, reported), reply)[..k], writes := [])
    case Land => s.(cursor := Some(s.writes[0]), writes := s.writes[1..])
    case Crash => s.(writes := [])
  }

  ghost predicate ValidRun(cfg: Config, s: Store, evs: seq<Event>)
    decreases |evs|
  {
    evs == [] || (Enabled(cfg, s, evs[0]) && ValidRun(cfg, Next(cfg, s, evs[0]), evs[1..]))
  }

  ghost function Run(cfg: Config, s: Store, evs: seq<Event>): Store
    requires ValidRun(cfg, s, evs)
    decreases |evs|
  {
    if evs == [] then s else Run(cfg, Next(cfg, s, evs[0]), evs[1..])
  }

  /** Every non-null answer of this job carries the block asked for. */
  ghost predicate Answered(cfg: Config, s: Store, ev: Event) {
    ev.Job? ==> AnyNull(Batch(cfg, s, ev.reported), ev.reply) || AllBlocks(Batch(cfg, s, ev.reported), ev.reply)
  }

  ghost predicate AllAnswered(cfg: Config, s: Store, evs: seq<Event>)
    requires ValidRun(cfg, s, evs)
    decreases |evs|
  {
    evs == [] || (Answered(cfg, s, evs[0]) && AllAnswered(cfg, Next(cfg, s, evs[0]), evs[1..]))
  }

  function Largest(reports: seq<int>): int {
    if reports == [] then 0 else Max(Largest(reports[..|reports| - 1]), reports[|reports| - 1])
  }

  /** The Redis maximum is the maximum reported; the cursor and the writes under way are in order below it. */
  ghost predicate InOrder(cfg: Config, s: Store) {
    && Latest(s) == Largest(s.reports)
    && (s.cursor.Some? ==> Base(cfg) <= s.cursor.value <= Latest(s))
    && (forall i :: 0 <= i < |s.writes| ==>
       Current(cfg, s) <= s.writes[i] <= Min(Current(cfg, s) + cfg.perCall, Latest(s)))
    && (forall i, j :: 0 <= i < j < |s.writes| ==> s.writes[i] <= s.writes[j])
  }

  lemma OrderAfterReport(cfg: Config, s: Store, reported: int)
    requires InOrder(cfg, s)
    ensures InOrder(cfg, WithReport(s, reported)) && Current(cfg, WithReport(s, reported)) == Current(cfg, s)
    ensures Latest(WithReport(s, reported)) == Max(reported, Latest(s))
  {
    assert (s.reports + [reported])[..|s.reports|] == s.reports;
  }

  lemma {:induction false} OrderAfterJob(cfg: Config, s: Store, reported: int, reply: int -> Reply)
    requires InOrder(cfg, s)
    ensures InOrder(cfg, AfterJob(cfg, s, reported, reply))
    ensures Current(cfg, s) == Current(cfg, AfterJob(cfg, s, reported, reply))
  {
    OrderAfterReport(cfg, s, reported);
    var end, r := EndBlock(cfg, s, reported), WithReport(s, reported);
    if !AnyNull(Batch(cfg, s, reported), reply) {
      if Current(cfg, s) < end {
        OrderAfterWrite(cfg, r, end);
        r := r.(writes := r.writes + [end]);
      }
      SameOrder(cfg, r, AfterJob(cfg, s, reported, reply));
    }
  }

  lemma SameOrder(cfg: Config, s: Store, s': Store)
    requires InOrder(cfg, s) && s' == s.(jobs := s'.jobs)
    ensures InOrder(cfg, s')
  {
  }

  lemma OrderAfterWrite(cfg: Config, s: Store, end: int)
    requires InOrder(cfg, s) && Current(cfg, s) < end == Min(Current(cfg, s) + cfg.perCall, Latest(s))
    ensures InOrder(cfg, s.(writes := s.writes + [end]))
  {
  }

  lemma {:induction false} OrderStep(cfg: Config, s: Store, ev: Event)
    requires InOrder(cfg, s) && Enabled(cfg, s, ev)
    ensures InOrder(cfg, Next(cfg, s, ev))
    ensures Current(cfg, s) <= Current(cfg, Next(cfg, s, ev))
  {
    match ev
    case Job(reported, reply) => OrderAfterJob(cfg, s, reported, reply);
    case JobDies(reported, _, _) => OrderAfterReport(cfg, s, reported);
    case Land =>
    case Crash =>
  }

  /** In every run the cursor never decreases and never passes the largest height reported (or the configured start). */
  lemma {:induction false} CursorMonotone(cfg: Config, s: Store, evs: seq<Event>)
    requires InOrder(cfg, s) && ValidRun(cfg, s, evs)
    ensures InOrder(cfg, Run(cfg, s, evs))
    ensures Current(cfg, s) <= Current(cfg, Run(cfg, s, evs))
    ensures Current(cfg, Run(cfg, s, evs)) <= Max(Base(cfg), Largest(Run(cfg, s, evs).reports))
    decreases |evs|
  {
    if evs != [] {
      OrderStep(cfg, s, evs[0]);
      CursorMonotone(cfg, Next(cfg, s, evs[0]), evs[1..]);
    }
  }

  // ----- nothing below the cursor is missed -----

  function Top(cfg: Config, s: Store): int {
    if s.writes == [] then Current(cfg, s) else s.writes[|s.writes| - 1]
  }

  ghost predicate Covered(cfg: Config, s: Store) {
    forall h :: Base(cfg) < h <= Top(cfg, s) ==> h in s.jobs
  }

  lemma {:induction false} UpToIsAll(hs: seq<int>, reply: int -> Reply)
    requires !AnyNull(hs, reply)
    ensures UpToNoResult(hs, reply) == hs <==> AllBlocks(hs, reply)
  {
    if hs != [] {
      var h, rest := hs[0], hs[1..];
      assert hs == [h] + rest && h in hs;
      if AnyNull(rest, reply) { assert AnyNull(hs, reply); }
      UpToIsAll(rest, reply);
      if reply(h).Block? {
        assert ([reply(h).height] + UpToNoResult(rest, reply))[1..] == UpToNoResult(rest, reply);
      }
    }
  }

  /** Blocks, if they come, are those asked for. */
  ghost predicate Truthful(ev: Event) {
    (ev.Job? || ev.JobDies?) ==> forall h :: ev.reply(h).Block? ==> ev.reply(h).height == h
  }

  lemma {:induction false} UpToIsPrefix(hs: seq<int>, reply: int -> Reply)
    requires forall h :: reply(h).Block? ==> reply(h).height == h
    ensures UpToNoResult(hs, reply) <= hs
  {
    if hs != [] {
      UpToIsPrefix(hs[1..], reply);
    }
  }

  lemma {:induction false} CoveredStep(cfg: Config, s: Store, ev: Event)
    requires InOrder(cfg, s) && Covered(cfg, s) && Enabled(cfg, s, ev) && Answered(cfg, s, ev)
    ensures Covered(cfg, Next(cfg, s, ev))
  {
    var s' := Next(cfg, s, ev);
    if ev.Job? && !AnyNull(Batch(cfg, s, ev.reported), ev.reply) {
      var hs := Batch(cfg, s, ev.reported);
      UpToIsAll(hs, ev.reply);
      forall h | Base(cfg) < h <= Top(cfg, s')
        ensures h in s'.jobs
      {
        if h > Top(cfg, s) {
          assert hs[h - Current(cfg, s) - 1] == h;
        }
      }
    } else {
      assert Top(cfg, s') <= Top(cfg, s);
    }
  }

  /**
   Whatever crashes, lost writes and lagging nodes occur, every height after the start up to the persisted cursor
   has been enqueued, as long as every non-null answer carries its block.
   */
  lemma {:induction false} NoHeightSkipped(cfg: Config, s: Store, evs: seq<Event>)
    requires InOrder(cfg, s) && Covered(cfg, s) && ValidRun(cfg, s, evs) && AllAnswered(cfg, s, evs)
    ensures forall h :: Base(cfg) < h <= Current(cfg, Run(cfg, s, evs)) ==> h in Run(cfg, s, evs).jobs
    ensures Covered(cfg, Run(cfg, s, evs))
    decreases |evs|
  {
    if evs != [] {
      OrderStep(cfg, s, evs[0]);
      CoveredStep(cfg, s, evs[0]);
      NoHeightSkipped(cfg, Next(cfg, s, evs[0]), evs[1..]);
    }
  }

  /** A job without null answers enqueues exactly its batch if and only if every answer carries the block asked for. */
  lemma {:induction false} BatchCompleteIff(cfg: Config, s: Store, reported: int, reply: int -> Reply)
    requires !AnyNull(Batch(cfg, s, reported), reply)
    ensures AfterJob(cfg, s, reported, reply).jobs == s.jobs + Batch(cfg, s, reported)
       <==> AllBlocks(Batch(cfg, s, reported), reply)
  {
    var hs := Batch(cfg, s, reported);
    UpToIsAll(hs, reply);
    assert (s.jobs + UpToNoResult(hs, reply))[|s.jobs|..] == UpToNoResult(hs, reply);
    assert (s.jobs + hs)[|s.jobs|..] == hs;
  }

  lemma {:induction false} AppendsAhead(cfg: Config, s: Store, ev: Event)
    requires Enabled(cfg, s, ev) && Truthful(ev)
    ensures s.jobs <= Next(cfg, s, ev).jobs
    ensures forall i :: |s.jobs| <= i < |Next(cfg, s, ev).jobs| ==> Current(cfg, s) < Next(cfg, s, ev).jobs[i]
  {
    if (ev.Job? || ev.JobDies?) && !AnyNull(Batch(cfg, s, ev.reported), ev.reply) {
      UpToIsPrefix(Batch(cfg, s, ev.reported), ev.reply);
    }
  }

  /** A height the cursor has passed is never enqueued again: what a batch missed below the cursor stays missed. */
  lemma {:induction false} NothingBehindTheCursor(cfg: Config, s: Store, evs: seq<Event>)
    requires InOrder(cfg, s) && ValidRun(cfg, s, evs) && forall ev :: ev in evs ==> Truthful(ev)
    ensures s.jobs <= Run(cfg, s, evs).jobs
    ensures forall i :: |s.jobs| <= i < |Run(cfg, s, evs).jobs| ==> Current(cfg, s) < Run(cfg, s, evs).jobs[i]
    decreases |evs|
  {
    if evs != [] {
      OrderStep(cfg, s, evs[0]);
      AppendsAhead(cfg, s, evs[0]);
      NothingBehindTheCursor(cfg, Next(cfg, s, evs[0]), evs[1..]);
    }
  }

  // ----- exactly once, and progress -----

  /** No crash, and each cursor write lands before the next job. */
  ghost predicate Calm(cfg: Config, s: Store, evs: seq<Event>)
    requires ValidRun(cfg, s, evs)
    decreases |evs|
  {
    evs == [] || (
      && !evs[0].JobDies? && !evs[0].Crash? && (evs[0].Job? ==> s.writes == [])
      && Calm(cfg, Next(cfg, s, evs[0]), evs[1..]))
  }

  lemma BaseBelow(cfg: Config, s: Store)
    requires InOrder(cfg, s)
    ensures Base(cfg) <= Current(cfg, s)
  {
  }

  /** An answered job appends its whole batch and sends the batch's end, if the batch is not empty. */
  lemma {:induction false} AnsweredJob(cfg: Config, s: Store, reported: int, reply: int -> Reply)
    requires AllBlocks(Batch(cfg, s, reported), reply) && s.writes == []
    ensures var end, s' := EndBlock(cfg, s, reported), AfterJob(cfg, s, reported, reply);
            && s'.jobs == s.jobs + Heights(Current(cfg, s) + 1, end)
            && s'.writes == (if Current(cfg, s) < end then [end] else [])
            && Top(cfg, s') == Max(Current(cfg, s), end)
  {
    UpToIsAll(Batch(cfg, s, reported), reply);
  }

  lemma {:induction false} CalmJob(cfg: Config, s: Store, reported: int, reply: int -> Reply)
    requires Base(cfg) <= Current(cfg, s) && AllBlocks(Batch(cfg, s, reported), reply)
    requires s.writes == [] && s.jobs == Heights(Base(cfg) + 1, Current(cfg, s))
    ensures var s' := AfterJob(cfg, s, reported, reply);
            |s'.writes| <= 1 && s'.jobs == Heights(Base(cfg) + 1, Top(cfg, s'))
  {
    AnsweredJob(cfg, s, reported, reply);
    HeightsExtend(Base(cfg) + 1, Current(cfg, s), EndBlock(cfg, s, reported));
  }

  lemma HeightsExtend(a: int, b: int, c: int)
    requires a <= b + 1
    ensures Heights(a, b) + Heights(b + 1, c) == Heights(a, Max(b, c))
  {
  }

  lemma {:induction false} CalmStep(cfg: Config, s: Store, ev: Event)
    requires InOrder(cfg, s) && Enabled(cfg, s, ev) && Answered(cfg, s, ev)
    requires !ev.JobDies? && !ev.Crash? && (ev.Job? ==> s.writes == [])
    requires |s.writes| <= 1 && s.jobs == Heights(Base(cfg) + 1, Top(cfg, s))
    ensures var s' := Next(cfg, s, ev); |s'.writes| <= 1 && s'.jobs == Heights(Base(cfg) + 1, Top(cfg, s'))
  {
    if ev.Job? && !AnyNull(Batch(cfg, s, ev.reported), ev.reply) {
      BaseBelow(cfg, s);
      CalmJob(cfg, s, ev.reported, ev.reply);
    }
  }

  /** In a calm run the queue has received each height after the start once, in order, and nothing else. */
  lemma {:induction false} ExactlyOnce(cfg: Config, s: Store, evs: seq<Event>)
    requires InOrder(cfg, s) && ValidRun(cfg, s, evs) && AllAnswered(cfg, s, evs) && Calm(cfg, s, evs)
    requires |s.writes| <= 1 && s.jobs == Heights(Base(cfg) + 1, Top(cfg, s))
    ensures Run(cfg, s, evs).jobs == Heights(Base(cfg) + 1, Top(cfg, Run(cfg, s, evs)))
    decreases |evs|
  {
    if evs != [] {
      OrderStep(cfg, s, evs[0]);
      CalmStep(cfg, s, evs[0]);
      ExactlyOnce(cfg, Next(cfg, s, evs[0]), evs[1..]);
    }
  }

  /** All of it for the runs of a fresh crawler, whose Redis keys do not exist yet. */
  lemma {:induction false} EveryRun(cfg: Config, evs: seq<Event>)
    requires ValidRun(cfg, EMPTY, evs)
    ensures var s := Run(cfg, EMPTY, evs); Base(cfg) <= Current(cfg, s) <= Max(Base(cfg), Largest(s.reports))
    ensures AllAnswered(cfg, EMPTY, evs) ==>
              var s := Run(cfg, EMPTY, evs);
              && (forall h :: Base(cfg) < h <= Current(cfg, s) ==> h in s.jobs)
              && (Calm(cfg, EMPTY, evs) ==> s.jobs == Heights(Base(cfg) + 1, Top(cfg, s)))
  {
    CursorMonotone(cfg, EMPTY, evs);
    if AllAnswered(cfg, EMPTY, evs) {
      NoHeightSkipped(cfg, EMPTY, evs);
      if Calm(cfg, EMPTY, evs) { ExactlyOnce(cfg, EMPTY, evs); }
    }
  }
}
