/**
 How far the block crawler gets, and what one of its jobs does height by height, whatever the nodes report.
 */
module BlockProgress {
  import opened Options
  import opened BlockCrawler

  /** A calm step: no crash, and no job gets a null answer or starts before the last cursor write has landed. */
  ghost predicate Steady(cfg: Config, s: Store, ev: Event) {
    && Enabled(cfg, s, ev) && !ev.JobDies? && !ev.Crash?
    && (ev.Job? ==> s.writes == [] && !AnyNull(Batch(cfg, s, ev.reported), ev.reply))
  }

  ghost predicate SteadyRun(cfg: Config, s: Store, evs: seq<Event>)
    ensures SteadyRun(cfg, s, evs) ==> ValidRun(cfg, s, evs)
    decreases |evs|
  {
    evs == [] || (Steady(cfg, s, evs[0]) && SteadyRun(cfg, Next(cfg, s, evs[0]), evs[1..]))
  }

  /** What the nodes report to the jobs of a run, in order. */
  function Reports(evs: seq<Event>): seq<int> {
    if evs == [] then [] else (if evs[0].Job? then [evs[0].reported] else []) + Reports(evs[1..])
  }

  /** The cursor, and how far a job that knows of the height `top` goes. */
  lemma {:induction false} EndIs(cfg: Config, s: Store, reported: int, top: int)
    requires InOrder(cfg, s) && Largest(s.reports + [reported]) == top
    ensures Current(cfg, s) ==
            if s.cursor.Some? then s.cursor.value else if cfg.startBlock.Some? then cfg.startBlock.value else 0
    ensures EndBlock(cfg, s, reported) ==
            if Current(cfg, s) + cfg.perCall < top then Current(cfg, s) + cfg.perCall else top
    ensures Latest(WithReport(s, reported)) == top
  {
    assert (s.reports + [reported])[..|s.reports|] == s.reports;
  }

  lemma {:induction false} TopAfterJob(cfg: Config, s: Store, reported: int, reply: int -> Reply)
    requires s.writes == [] && !AnyNull(Batch(cfg, s, reported), reply)
    ensures Top(cfg, AfterJob(cfg, s, reported, reply)) == Max(Current(cfg, s), EndBlock(cfg, s, reported))
    ensures AfterJob(cfg, s, reported, reply).reports == s.reports + [reported]
  {
  }

  /** One job goes one batch on, but not past the largest height reported, this report included. */
  lemma {:induction false} SteadyJob(cfg: Config, s: Store, reported: int, reply: int -> Reply)
    requires InOrder(cfg, s) && cfg.perCall >= 0 && Steady(cfg, s, Job(reported, reply))
    ensures var next := Next(cfg, s, Job(reported, reply));
            && next.reports == s.reports + [reported]
            && Top(cfg, next) == Min(Top(cfg, s) + cfg.perCall, Max(Top(cfg, s), Largest(s.reports + [reported])))
  {
    TopAfterJob(cfg, s, reported, reply);
    EndIs(cfg, s, reported, Largest(s.reports + [reported]));
  }

  lemma {:induction false} SteadyLand(cfg: Config, s: Store)
    requires InOrder(cfg, s) && Enabled(cfg, s, Land)
    ensures Top(cfg, Next(cfg, s, Land)) == Top(cfg, s) && Next(cfg, s, Land).reports == s.reports
  {
  }

  /** The height that `n - k` full batches reach from the largest report the first `k` jobs knew of. */
  function Reach(top: int, reports: seq<int>, rs: seq<int>, k: nat, perCall: int): int
    requires k <= |rs|
  {
    Max(top, Largest(reports + rs[..k])) + Times(|rs| - k, perCall)
  }

  function Times(k: nat, n: int): int {
    if k == 0 then 0 else Times(k - 1, n) + n
  }

  /** No more than one batch a job, no more than a report and the later jobs' batches, and as far as one of these. */
  ghost predicate AsFarAsPossible(end: int, top: int, reports: seq<int>, rs: seq<int>, perCall: int) {
    && end <= top + Times(|rs|, perCall)
    && (forall k :: 0 < k <= |rs| ==> end <= Reach(top, reports, rs, k, perCall))
    && (end == top + Times(|rs|, perCall) || exists k :: 0 < k <= |rs| && end == Reach(top, reports, rs, k, perCall))
  }

  lemma {:induction false} LargestGrows(a: seq<int>, b: seq<int>)
    ensures Largest(a) <= Largest(a + b)
  {
    if b == [] {
      assert a + b == a;
    } else {
      assert (a + b)[..|a + b| - 1] == a + b[..|b| - 1];
      LargestGrows(a, b[..|b| - 1]);
    }
  }

  lemma ReachBehind(top: int, next: int, reports: seq<int>, rs: seq<int>, k: nat, perCall: int)
    requires 0 < k <= |rs| && perCall >= 0
    requires next == Min(top + perCall, Max(top, Largest(reports + [rs[0]])))
    ensures k > 1 ==> Reach(next, reports + [rs[0]], rs[1..], k - 1, perCall) == Reach(top, reports, rs, k, perCall)
    ensures k == 1 ==> next + Times(|rs| - 1, perCall) <= Reach(top, reports, rs, 1, perCall)
  {
    assert reports + [rs[0]] + rs[1..][..k - 1] == reports + rs[..k];
    LargestGrows(reports + [rs[0]], rs[1..][..k - 1]);
  }

  lemma OneJobMore(end: int, top: int, next: int, reports: seq<int>, rs: seq<int>, perCall: int)
    requires rs != [] && perCall >= 0
    requires next == Min(top + perCall, Max(top, Largest(reports + [rs[0]])))
    requires AsFarAsPossible(end, next, reports + [rs[0]], rs[1..], perCall)
    ensures AsFarAsPossible(end, top, reports, rs, perCall)
  {
    forall k | 0 < k <= |rs|
      ensures end <= Reach(top, reports, rs, k, perCall)
    {
      ReachBehind(top, next, reports, rs, k, perCall);
    }
    if end == next + Times(|rs| - 1, perCall) {
      assert rs[..1] == [rs[0]];
      assert next != top + perCall ==> end == Reach(top, reports, rs, 1, perCall);
    } else {
      var k :| 0 < k <= |rs[1..]| && end == Reach(next, reports + [rs[0]], rs[1..], k, perCall);
      ReachBehind(top, next, reports, rs, k + 1, perCall);
    }
  }

  /**
   However the reports rise or lag, the jobs of a steady run go as far as possible: one batch each, but never past the
   largest height reported so far (or the start, if that is ahead).
   */
  lemma {:induction false} RisingProgress(cfg: Config, s: Store, evs: seq<Event>)
    requires InOrder(cfg, s) && cfg.perCall >= 0 && SteadyRun(cfg, s, evs)
    ensures AsFarAsPossible(Top(cfg, Run(cfg, s, evs)), Top(cfg, s), s.reports, Reports(evs), cfg.perCall)
    decreases |evs|
  {
    if evs != [] {
      var next := Next(cfg, s, evs[0]);
      OrderStep(cfg, s, evs[0]);
      RisingProgress(cfg, next, evs[1..]);
      if evs[0].Job? {
        SteadyJob(cfg, s, evs[0].reported, evs[0].reply);
        assert Reports(evs)[1..] == Reports(evs[1..]);
        OneJobMore(Top(cfg, Run(cfg, s, evs)), Top(cfg, s), Top(cfg, next), s.reports, Reports(evs), cfg.perCall);
      } else {
        SteadyLand(cfg, s);
        assert Reports(evs) == Reports(evs[1..]);
      }
    }
  }

  lemma {:induction false} TimesIs(k: nat, n: int)
    ensures Times(k, n) == k * n
  {
    if k > 0 {
      TimesIs(k - 1, n);
      assert k * n == (k - 1) * n + n;
    }
  }

  lemma {:induction false} NothingHigher(reports: seq<int>, rs: seq<int>)
    requires forall i :: 0 <= i < |rs| ==> rs[i] <= Largest(reports)
    ensures Largest(reports + rs) == Largest(reports)
  {
    if rs == [] {
      assert reports + rs == reports;
    } else {
      assert (reports + rs)[..|reports + rs| - 1] == reports + rs[..|rs| - 1];
      NothingHigher(reports, rs[..|rs| - 1]);
    }
  }

  lemma {:induction false} LevelReach(top: int, reports: seq<int>, rs: seq<int>, k: nat, perCall: int)
    requires 0 < k <= |rs| && perCall >= 0 && top <= Largest(reports)
    requires forall i :: 0 <= i < |rs| ==> rs[i] <= Largest(reports)
    ensures Reach(top, reports, rs, k, perCall) >= Largest(reports)
    ensures k == |rs| ==> Reach(top, reports, rs, k, perCall) == Largest(reports)
  {
    NothingHigher(reports, rs[..k]);
    TimesNonNegative(|rs| - k, perCall);
  }

  lemma {:induction false} LevelEnd(end: int, top: int, reports: seq<int>, rs: seq<int>, perCall: int)
    requires AsFarAsPossible(end, top, reports, rs, perCall) && perCall >= 0 && top <= Largest(reports)
    requires forall i :: 0 <= i < |rs| ==> rs[i] <= Largest(reports)
    ensures end == Min(Largest(reports), top + |rs| * perCall)
  {
    TimesIs(|rs|, perCall);
    if rs != [] { LevelReach(top, reports, rs, |rs|, perCall); }
    if end != top + Times(|rs|, perCall) {
      var k :| 0 < k <= |rs| && end == Reach(top, reports, rs, k, perCall);
      LevelReach(top, reports, rs, k, perCall);
    }
  }

  /**
   While no node reports a new height, `k` jobs of a steady run bring the cursor, once the last write has landed, to
   the latest height or `k` full batches on, whichever is less.
   */
  lemma {:induction false} Progress(cfg: Config, s: Store, evs: seq<Event>)
    requires InOrder(cfg, s) && cfg.perCall >= 0 && s.writes == [] && Current(cfg, s) <= Latest(s)
    requires SteadyRun(cfg, s, evs) && Run(cfg, s, evs).writes == []
    requires forall i :: 0 <= i < |Reports(evs)| ==> Reports(evs)[i] <= Latest(s)
    ensures Current(cfg, Run(cfg, s, evs)) == Min(Latest(s), Current(cfg, s) + |Reports(evs)| * cfg.perCall)
  {
    Settled(cfg, s);
    LevelRun(cfg, s, evs);
    Settled(cfg, Run(cfg, s, evs));
  }

  lemma {:induction false} LevelRun(cfg: Config, s: Store, evs: seq<Event>)
    requires InOrder(cfg, s) && cfg.perCall >= 0 && SteadyRun(cfg, s, evs) && Top(cfg, s) <= Largest(s.reports)
    requires forall i :: 0 <= i < |Reports(evs)| ==> Reports(evs)[i] <= Largest(s.reports)
    ensures Top(cfg, Run(cfg, s, evs)) == Min(Largest(s.reports), Top(cfg, s) + |Reports(evs)| * cfg.perCall)
  {
    RisingProgress(cfg, s, evs);
    LevelEnd(Top(cfg, Run(cfg, s, evs)), Top(cfg, s), s.reports, Reports(evs), cfg.perCall);
  }

  /** Without writes under way the stored cursor is the last one sent. */
  lemma {:induction false} Settled(cfg: Config, s: Store)
    ensures s.writes == [] ==> Top(cfg, s) == Current(cfg, s)
    ensures InOrder(cfg, s) ==> Latest(s) == Largest(s.reports)
  {
  }

  lemma {:induction false} TimesNonNegative(k: nat, n: int)
    requires n >= 0
    ensures Times(k, n) >= 0
  {
    if k > 0 { TimesNonNegative(k - 1, n); }
  }

  // ----- one job, height by height -----

  lemma {:induction false} LargestIs(reports: seq<int>)
    ensures Largest(reports) >= 0
    ensures Largest(reports) == 0 || exists i :: 0 <= i < |reports| && reports[i] == Largest(reports)
    ensures forall i :: 0 <= i < |reports| ==> reports[i] <= Largest(reports)
  {
    if reports != [] {
      var n := |reports| - 1;
      LargestIs(reports[..n]);
      if i :| 0 <= i < n && reports[..n][i] == Largest(reports[..n]) { assert reports[i] == Largest(reports[..n]); }
    }
  }

  lemma TopIsLargest(reports: seq<int>, top: int)
    requires 0 <= top && (top == 0 || exists i :: 0 <= i < |reports| && reports[i] == top)
    requires forall i :: 0 <= i < |reports| ==> reports[i] <= top
    ensures Largest(reports) == top
  {
    LargestIs(reports);
  }

  lemma {:induction false} AnyNullIs(first: int, last: int, reply: int -> Reply, h: int)
    requires first <= h <= last && reply(h) == Null
    ensures AnyNull(Heights(first, last), reply)
  {
    assert Heights(first, last)[h - first] == h;
  }

  lemma {:induction false} AllBlocksIs(first: int, last: int, reply: int -> Reply)
    requires forall h {:trigger reply(h)} :: first <= h <= last ==> reply(h) == Block(h)
    ensures AllBlocks(Heights(first, last), reply) && !AnyNull(Heights(first, last), reply)
    ensures UpToNoResult(Heights(first, last), reply) == Heights(first, last)
  {
    UpToIsAll(Heights(first, last), reply);
  }

  /**
   What a job has to ask for: with `top` the largest height reported so far, its own report included, the heights
   behind the cursor up to one batch or `top`.
   */
  predicate AsksFor(cfg: Config, s: Store, reported: int, top: int, cursor: int, end: int) {
    var all := s.reports + [reported];
    && 0 <= top && (top == 0 || exists i :: 0 <= i < |all| && all[i] == top)
    && (forall i :: 0 <= i < |all| ==> all[i] <= top)
    && cursor == (if s.cursor.Some? then s.cursor.value else if cfg.startBlock.Some? then cfg.startBlock.value else 0)
    && end == (if cursor + cfg.perCall < top then cursor + cfg.perCall else top)
  }

  lemma {:induction false} AsksForBatch(cfg: Config, s: Store, reported: int, top: int, cursor: int, end: int)
    requires InOrder(cfg, s) && AsksFor(cfg, s, reported, top, cursor, end)
    ensures cursor == Current(cfg, s) && end == EndBlock(cfg, s, reported)
    ensures Latest(WithReport(s, reported)) == top
  {
    TopIsLargest(s.reports + [reported], top);
    EndIs(cfg, s, reported, top);
  }

  /** When all blocks come, exactly those heights are enqueued, in order, and the last is sent as the new cursor. */
  lemma {:induction false} JobIsExact(
      cfg: Config, s: Store, reported: int, reply: int -> Reply, top: int, cursor: int, end: int)
    requires InOrder(cfg, s) && AsksFor(cfg, s, reported, top, cursor, end)
    requires forall h {:trigger reply(h)} :: cursor < h <= end ==> reply(h) == Block(h)
    ensures var jobs := AfterJob(cfg, s, reported, reply).jobs;
            && |jobs| == |s.jobs| + (if cursor < end then end - cursor else 0) && jobs[..|s.jobs|] == s.jobs
            && (forall i :: |s.jobs| <= i < |jobs| ==> jobs[i] == cursor + 1 + i - |s.jobs|)
    ensures AfterJob(cfg, s, reported, reply).writes == if cursor < end then s.writes + [end] else s.writes
  {
    AsksForBatch(cfg, s, reported, top, cursor, end);
    BlocksGo(cfg, s, reported, reply, cursor, end);
  }

  /** When any of them does not come, nothing is enqueued and no cursor is sent. */
  lemma {:induction false} NullIsExact(
      cfg: Config, s: Store, reported: int, reply: int -> Reply, top: int, cursor: int, end: int)
    requires InOrder(cfg, s) && AsksFor(cfg, s, reported, top, cursor, end)
    requires exists h {:trigger reply(h)} :: cursor < h <= end && reply(h) == Null
    ensures AfterJob(cfg, s, reported, reply).jobs == s.jobs && AfterJob(cfg, s, reported, reply).writes == s.writes
  {
    AsksForBatch(cfg, s, reported, top, cursor, end);
    NullStops(cfg, s, reported, reply, cursor, end);
  }

  /** In either case the report is kept, the latest height is `top`, and the stored cursor waits for its write. */
  lemma {:induction false} ReportIsKept(
      cfg: Config, s: Store, reported: int, reply: int -> Reply, top: int, cursor: int, end: int)
    requires InOrder(cfg, s) && AsksFor(cfg, s, reported, top, cursor, end)
    ensures var after := AfterJob(cfg, s, reported, reply);
            && after.cursor == s.cursor && after.reports == s.reports + [reported]
            && (if after.latest.Some? then after.latest.value else 0) == top
  {
    AsksForBatch(cfg, s, reported, top, cursor, end);
  }

  lemma {:induction false} NullStops(cfg: Config, s: Store, reported: int, reply: int -> Reply, cursor: int, end: int)
    requires cursor == Current(cfg, s) && end == EndBlock(cfg, s, reported)
    requires exists h {:trigger reply(h)} :: cursor < h <= end && reply(h) == Null
    ensures AfterJob(cfg, s, reported, reply) == WithReport(s, reported)
  {
    var h {:trigger reply(h)} :| cursor < h <= end && reply(h) == Null;
    AnyNullIs(cursor + 1, end, reply, h);
  }

  lemma {:induction false} BlocksGo(cfg: Config, s: Store, reported: int, reply: int -> Reply, cursor: int, end: int)
    requires cursor == Current(cfg, s) && end == EndBlock(cfg, s, reported)
    requires forall h {:trigger reply(h)} :: cursor < h <= end ==> reply(h) == Block(h)
    ensures AfterJob(cfg, s, reported, reply).jobs == s.jobs + Heights(cursor + 1, end)
    ensures AfterJob(cfg, s, reported, reply).writes == if cursor < end then s.writes + [end] else s.writes
  {
    AllBlocksIs(cursor + 1, end, reply);
  }

  /** Without null answers a job enqueues the blocks that come, up to the first answer without a result. */
  lemma {:induction false} UpToExactly(hs: seq<int>, reply: int -> Reply)
    ensures var r := UpToNoResult(hs, reply);
            && |r| <= |hs| && (forall i :: 0 <= i < |r| ==> reply(hs[i]) == Block(r[i]))
            && (|r| < |hs| ==> !reply(hs[|r|]).Block?)
  {
    if hs != [] { UpToExactly(hs[1..], reply); }
  }

  /** Only calm runs enqueue each height once: a crash between the hand-over and the cursor write repeats a height. */
  lemma {:induction false} CrashRepeats(cfg: Config, reply: int -> Reply)
    requires cfg.startBlock == None && cfg.perCall == 1 && reply(1) == Block(1)
    ensures Enabled(cfg, EMPTY, JobDies(1, reply, 1))
    ensures AfterJob(cfg, Next(cfg, EMPTY, JobDies(1, reply, 1)), 1, reply).jobs == [1, 1]
  {
    DiedAfterOne(cfg, reply);
    OneMore(cfg, reply);
  }

  lemma {:induction false} OneMore(cfg: Config, reply: int -> Reply)
    requires cfg.startBlock == None && cfg.perCall == 1 && reply(1) == Block(1)
    ensures AfterJob(cfg, Store(None, Some(1), [], [1], [1]), 1, reply).jobs == [1, 1]
  {
    OneBlock(cfg, Store(None, Some(1), [], [1], [1]), reply);
  }

  lemma {:induction false} DiedAfterOne(cfg: Config, reply: int -> Reply)
    requires cfg.startBlock == None && cfg.perCall == 1 && reply(1) == Block(1)
    ensures Enabled(cfg, EMPTY, JobDies(1, reply, 1))
    ensures Next(cfg, EMPTY, JobDies(1, reply, 1)) == Store(None, Some(1), [], [1], [1])
  {
    OneBlock(cfg, EMPTY, reply);
  }

  lemma {:induction false} OneBlock(cfg: Config, s: Store, reply: int -> Reply)
    requires cfg.startBlock == None && cfg.perCall == 1 && reply(1) == Block(1) && s.cursor.None? && Latest(s) <= 1
    ensures Batch(cfg, s, 1) == [1] && UpToNoResult([1], reply) == [1] && !AnyNull([1], reply)
  {
    assert Heights(1, 0) == [] && Heights(1, 1) == [] + [1];
    assert [1][1..] == [] && [1] + [] == [1];
  }
}
