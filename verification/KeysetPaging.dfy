/** Keyset pagination of three endpoints, two with an exclusive cursor in both directions, one with an inclusive one. */
module KeysetPaging {
  import opened Options
  import opened Sequences

  /*
   Votes are listed by (height, _id) and proposals by proposal_id, both exclusive and in both directions; contracts by
   _id, with the key included.
   */

  /** Sort keys: (height, _id) for votes, (proposal_id, 0) for proposals, (0, _id) for contracts. */
  datatype Key = Key(major: nat, minor: nat)

  datatype Doc = Doc(key: Key, content: string)

  datatype Order = Descending | Ascending

  /** The range condition a cursor adds to the query. */
  datatype Bound = NoBound | LessThan(key: Key) | GreaterThan(key: Key) | AtMost(key: Key)

  /** `{ height < h } or { height = h, _id < i }`. */
  predicate Less(a: Key, b: Key) {
    a.major < b.major || (a.major == b.major && a.minor < b.minor)
  }

  predicate Within(k: Key, b: Bound) {
    match b
    case NoBound => true
    case LessThan(c) => Less(k, c)
    case GreaterThan(c) => Less(c, k)
    case AtMost(c) => !Less(c, k)
  }

  predicate Precedes(a: Key, b: Key, order: Order) {
    if order.Ascending? then Less(a, b) else Less(b, a)
  }

  /** The collection in the order of the query's `sort`; keys are unique. */
  predicate Sorted(docs: seq<Doc>, order: Order) {
    forall i, j :: 0 <= i < j < |docs| ==> Precedes(docs[i].key, docs[j].key, order)
  }

  /** The documents that satisfy the part of the query that does not depend on the cursor. */
  function Matching(docs: seq<Doc>, keep: Doc -> bool): seq<Doc> {
    if docs == [] then []
    else Matching(docs[..|docs| - 1], keep) + if keep(docs[|docs| - 1]) then [docs[|docs| - 1]] else []
  }

  function Bounded(docs: seq<Doc>, b: Bound): seq<Doc> {
    if docs == [] then []
    else Bounded(docs[..|docs| - 1], b) + if Within(docs[|docs| - 1].key, b) then [docs[|docs| - 1]] else []
  }

  /** The answer to a query; `goal` are the documents that satisfy the part without the cursor, in order. */
  function Find(goal: seq<Doc>, b: Bound, offset: nat, limit: nat): seq<Doc> {
    var all := Bounded(goal, b);
    all[Min(offset, |all|)..Min(offset + limit, |all|)]
  }

  lemma {:induction false} MatchingSorted(docs: seq<Doc>, keep: Doc -> bool, order: Order)
    requires Sorted(docs, order)
    ensures Sorted(Matching(docs, keep), order)
    ensures forall d :: d in Matching(docs, keep) <==> d in docs && keep(d)
  {
    if docs != [] {
      var before, last := docs[..|docs| - 1], docs[|docs| - 1];
      assert docs == before + [last];
      MatchingSorted(before, keep, order);
      forall d | d in Matching(before, keep)
        ensures Precedes(d.key, last.key, order)
      {
        var i :| 0 <= i < |before| && before[i] == d;
        assert docs[i] == d && docs[|docs| - 1] == last;
      }
    }
  }

  lemma {:induction false} NoBoundKeepsAll(docs: seq<Doc>)
    ensures Bounded(docs, NoBound) == docs
  {
    AllInside(docs, NoBound);
  }

  function Past(k: Key, order: Order): Bound {
    if order.Ascending? then GreaterThan(k) else LessThan(k)
  }

  lemma PastPrecedes(a: Key, b: Key, order: Order)
    ensures Within(b, Past(a, order)) <==> Precedes(a, b, order)
    ensures Precedes(a, b, order) ==> !Precedes(b, a, order)
    ensures order == Descending ==> (Within(b, AtMost(a)) <==> a == b || Precedes(a, b, order))
  {
  }

  lemma {:induction false} BoundedConcat(a: seq<Doc>, b: seq<Doc>, bound: Bound)
    ensures Bounded(a + b, bound) == Bounded(a, bound) + Bounded(b, bound)
  {
    if b == [] {
      assert a + b == a;
    } else {
      assert (a + b)[..|a + b| - 1] == a + b[..|b| - 1];
      BoundedConcat(a, b[..|b| - 1], bound);
    }
  }

  lemma {:induction false} AllOutside(docs: seq<Doc>, bound: Bound)
    requires forall i :: 0 <= i < |docs| ==> !Within(docs[i].key, bound)
    ensures Bounded(docs, bound) == []
  {
    if docs != [] { AllOutside(docs[..|docs| - 1], bound); }
  }

  lemma {:induction false} AllInside(docs: seq<Doc>, bound: Bound)
    requires forall i :: 0 <= i < |docs| ==> Within(docs[i].key, bound)
    ensures Bounded(docs, bound) == docs
  {
    if docs != [] {
      assert docs == docs[..|docs| - 1] + [docs[|docs| - 1]];
      AllInside(docs[..|docs| - 1], bound);
    }
  }

  /** What a bound leaves, when it admits exactly the documents from position `k` on. */
  lemma BoundIsRest(docs: seq<Doc>, k: nat, bound: Bound)
    requires k <= |docs| && forall i :: 0 <= i < |docs| ==> (Within(docs[i].key, bound) <==> i >= k)
    ensures Bounded(docs, bound) == docs[k..]
  {
    assert docs == docs[..k] + docs[k..];
    BoundedConcat(docs[..k], docs[k..], bound);
    AllOutside(docs[..k], bound);
    AllInside(docs[k..], bound);
  }

  /** An exclusive cursor taken from a document leaves exactly what follows it. */
  lemma PastIsRest(docs: seq<Doc>, k: nat, order: Order)
    requires Sorted(docs, order) && k < |docs|
    ensures Bounded(docs, Past(docs[k].key, order)) == docs[k + 1..]
  {
    forall i | 0 <= i < |docs|
      ensures Within(docs[i].key, Past(docs[k].key, order)) <==> i >= k + 1
    {
      PastPrecedes(docs[k].key, docs[i].key, order);
      PastPrecedes(docs[i].key, docs[k].key, order);
    }
    BoundIsRest(docs, k + 1, Past(docs[k].key, order));
  }

  /** An inclusive descending cursor leaves the document it was taken from and what follows it. */
  lemma AtMostIsRest(docs: seq<Doc>, k: nat)
    requires Sorted(docs, Descending) && k < |docs|
    ensures Bounded(docs, AtMost(docs[k].key)) == docs[k..]
  {
    forall i | 0 <= i < |docs|
      ensures Within(docs[i].key, AtMost(docs[k].key)) <==> i >= k
    {
      PastPrecedes(docs[k].key, docs[i].key, Descending);
      PastPrecedes(docs[i].key, docs[k].key, Descending);
    }
    BoundIsRest(docs, k, AtMost(docs[k].key));
  }

  /** What a request that starts at position `k` and skips `offset` lists, and whether there is more behind it. */
  ghost predicate IsPage(goal: seq<Doc>, k: nat, offset: nat, limit: nat, page: seq<Doc>, more: bool) {
    && k <= |goal|
    && page == goal[Min(k + offset, |goal|)..Min(k + offset + limit, |goal|)]
    && (more <==> k + offset + limit < |goal|)
  }

  /** The pages that are listed when every request skips `offset` documents before its page. */
  function Pages(goal: seq<Doc>, offset: nat, limit: nat): seq<seq<Doc>>
    requires limit > 0
  {
    if |goal| <= offset then [[]]
    else if |goal| <= offset + limit then [goal[offset..]]
    else [goal[offset..offset + limit]] + Pages(goal[offset + limit..], offset, limit)
  }

  function Flatten(pages: seq<seq<Doc>>): seq<Doc> {
    if pages == [] then [] else pages[0] + Flatten(pages[1..])
  }

  lemma {:induction false} PagesSkip(goal: seq<Doc>, offset: nat, limit: nat)
    requires limit > 0
    ensures |Flatten(Pages(goal, offset, limit))| <= |goal|
    ensures goal != [] && offset > 0 ==> |Flatten(Pages(goal, offset, limit))| < |goal|
  {
    if |goal| > offset + limit {
      FlattenPages(goal, offset, limit);
      PagesSkip(goal[offset + limit..], offset, limit);
    }
  }

  lemma FlattenPages(goal: seq<Doc>, offset: nat, limit: nat)
    requires limit > 0 && |goal| > offset + limit
    ensures Flatten(Pages(goal, offset, limit)) ==
            goal[offset..offset + limit] + Flatten(Pages(goal[offset + limit..], offset, limit))
  {
  }

  lemma {:induction false} PagesWithoutOffset(goal: seq<Doc>, limit: nat)
    requires limit > 0
    ensures Flatten(Pages(goal, 0, limit)) == goal
  {
    if |goal| > limit {
      FlattenPages(goal, 0, limit);
      PagesWithoutOffset(goal[limit..], limit);
      assert goal == goal[..limit] + goal[limit..];
    }
  }

  /** The pages hold everything, once and in order, exactly when nothing is skipped or there is nothing. */
  lemma PagesIff(goal: seq<Doc>, offset: nat, limit: nat)
    requires limit > 0
    ensures Flatten(Pages(goal, offset, limit)) == goal <==> offset == 0 || goal == []
  {
    PagesSkip(goal, offset, limit);
    PagesWithoutOffset(goal, limit);
  }

  /** There are `ceil(n / limit)` pages, and one when there is nothing; an offset counts like a longer page. */
  lemma {:induction false} PageCount(goal: seq<Doc>, offset: nat, limit: nat)
    requires limit > 0
    ensures var n, stride := |Pages(goal, offset, limit)|, offset + limit;
            if goal == [] then n == 1 else (n - 1) * stride < |goal| <= n * stride
  {
    if |goal| > offset + limit { PageCount(goal[offset + limit..], offset, limit); }
  }

  /** Request `i` lists what stands behind `i` strides of an offset and a page, and behind its own offset. */
  lemma {:induction false} PageAt(goal: seq<Doc>, offset: nat, limit: nat, i: nat)
    requires limit > 0 && i < |Pages(goal, offset, limit)|
    ensures var start := i * (offset + limit) + offset;
            Pages(goal, offset, limit)[i] == goal[Min(start, |goal|)..Min(start + limit, |goal|)]
    decreases i
  {
    var stride := offset + limit;
    if i > 0 {
      PageAt(goal[stride..], offset, limit, i - 1);
      var start := (i - 1) * stride + offset;
      assert i * stride == (i - 1) * stride + stride;
      MinShift(stride, start, |goal|);
      MinShift(stride, start + limit, |goal|);
      SliceOfRest(goal, stride, Min(start, |goal| - stride), Min(start + limit, |goal| - stride));
    }
  }

  /** A page unrolls what is listed from position `k` on by one. */
  ghost predicate Unrolls(goal: seq<Doc>, k: nat, offset: nat, limit: nat, page: seq<Doc>, more: bool)
    requires limit > 0 && k <= |goal|
  {
    var next := k + offset + limit;
    && (more ==> next < |goal|)
    && Pages(goal[k..], offset, limit) == if more then [page] + Pages(goal[next..], offset, limit) else [page]
  }

  lemma PageUnrolls(goal: seq<Doc>, k: nat, offset: nat, limit: nat, page: seq<Doc>, more: bool)
    requires limit > 0 && IsPage(goal, k, offset, limit, page, more)
    ensures Unrolls(goal, k, offset, limit, page, more)
  {
    if more {
      SliceOfRest(goal, k, offset + limit, |goal| - k);
      SliceOfRest(goal, k, offset, offset + limit);
    } else if |goal| - k > offset {
      SliceOfRest(goal, k, offset, |goal| - k);
      assert page == goal[k + offset..|goal|] == goal[k + offset..];
    }
  }

  lemma SliceOfRest(s: seq<Doc>, k: nat, a: nat, b: nat)
    requires k <= |s| && a <= b <= |s| - k
    ensures s[k..][a..b] == s[k + a..k + b]
    ensures b == |s| - k ==> s[k..][a..] == s[k + a..]
  {
  }

  datatype Page = Page(docs: seq<Doc>, nextKey: Option<Key>) | Rejected

  /** `sort`: ascending with `reverse`, else descending. */
  function OrderFor(reverse: bool): Order {
    if reverse then Ascending else Descending
  }

  /** Documents by strictly rising (height, _id), or (proposal_id, 0), or (0, _id). */
  predicate Rising(docs: seq<Doc>) {
    forall i, j :: 0 <= i < j < |docs| ==>
      docs[i].key.major < docs[j].key.major
      || (docs[i].key.major == docs[j].key.major && docs[i].key.minor < docs[j].key.minor)
  }

  predicate Falling(docs: seq<Doc>) {
    forall i, j :: 0 <= i < j < |docs| ==>
      docs[i].key.major > docs[j].key.major
      || (docs[i].key.major == docs[j].key.major && docs[i].key.minor > docs[j].key.minor)
  }

  function Reversed(docs: seq<Doc>): (r: seq<Doc>)
    ensures |r| == |docs| && forall i :: 0 <= i < |r| ==> r[i] == docs[|docs| - 1 - i]
  {
    seq(|docs|, i requires 0 <= i < |docs| => docs[|docs| - 1 - i])
  }

  /** The answer to a `sort`, for documents given in rising order. */
  function Arranged(rising: seq<Doc>, order: Order): seq<Doc> {
    match order
    case Ascending => rising
    case Descending => Reversed(rising)
  }

  lemma ArrangedIsSorted(rising: seq<Doc>, order: Order)
    requires Rising(rising)
    ensures Sorted(Arranged(rising, order), order)
    ensures if order == Ascending then Rising(Arranged(rising, order)) else Falling(Arranged(rising, order))
  {
    if order == Descending { ReversedFalls(rising); }
  }

  lemma ReversedFalls(rising: seq<Doc>)
    requires Rising(rising)
    ensures Falling(Reversed(rising))
  {
    var n, falling := |rising|, Reversed(rising);
    forall i, j | 0 <= i < j < n
      ensures Less(falling[j].key, falling[i].key)
    {
      assert falling[i] == rising[n - 1 - i] && falling[j] == rising[n - 1 - j];
    }
  }

  lemma MatchingRises(docs: seq<Doc>, keep: Doc -> bool)
    requires Rising(docs)
    ensures Rising(Matching(docs, keep))
  {
    assert Sorted(docs, Ascending);
    MatchingSorted(docs, keep, Ascending);
  }

  lemma {:induction false} BoundedAreWithin(docs: seq<Doc>, b: Bound)
    ensures forall i :: 0 <= i < |Bounded(docs, b)| ==> Within(Bounded(docs, b)[i].key, b)
  {
    if docs != [] { BoundedAreWithin(docs[..|docs| - 1], b); }
  }

  lemma {:induction false} BoundedSorted(docs: seq<Doc>, b: Bound, order: Order)
    requires Sorted(docs, order)
    ensures Sorted(Bounded(docs, b), order)
    ensures forall i :: 0 <= i < |Bounded(docs, b)| ==> Bounded(docs, b)[i] in docs
  {
    if docs != [] {
      var n := |docs| - 1;
      BoundedSorted(docs[..n], b, order);
      var before := Bounded(docs[..n], b);
      forall i | 0 <= i < |before|
        ensures Precedes(before[i].key, docs[n].key, order)
      {
        var k :| 0 <= k < n && docs[..n][k] == before[i];
        assert docs[k] == before[i];
      }
    }
  }

  /** What a query finds behind a bound that leaves everything from position `k` on. */
  lemma FindRest(goal: seq<Doc>, bound: Bound, k: nat, offset: nat, limit: nat)
    requires k <= |goal| && Bounded(goal, bound) == goal[k..]
    ensures Find(goal, bound, offset, limit) == goal[Min(k + offset, |goal|)..Min(k + offset + limit, |goal|)]
  {
    var rest := goal[k..];
    var a, b := Min(offset, |rest|), Min(offset + limit, |rest|);
    MinShift(k, offset, |goal|);
    MinShift(k, offset + limit, |goal|);
    assert Find(goal, bound, offset, limit) == goal[k..][a..b];
    SliceOfRest(goal, k, a, b);
  }

  lemma MinShift(k: nat, x: nat, n: nat)
    requires k <= n
    ensures k + Min(x, n - k) == Min(k + x, n)
  {
  }

  lemma PastPage(goal: seq<Doc>, order: Order, k: nat, offset: nat, limit: nat)
    requires Sorted(goal, order) && k <= |goal|
    ensures Find(goal, if k > 0 then Past(goal[k - 1].key, order) else NoBound, offset, limit) ==
            goal[Min(k + offset, |goal|)..Min(k + offset + limit, |goal|)]
  {
    var bound := if k > 0 then Past(goal[k - 1].key, order) else NoBound;
    if k > 0 { PastIsRest(goal, k - 1, order); } else { NoBoundKeepsAll(goal); }
    assert Bounded(goal, bound) == goal[k..];
    FindRest(goal, bound, k, offset, limit);
  }

  lemma AtMostPage(goal: seq<Doc>, k: nat, limit: nat)
    requires Sorted(goal, Descending) && (k == 0 || k < |goal|)
    ensures Find(goal, if k > 0 then AtMost(goal[k].key) else NoBound, 0, limit) == goal[k..Min(k + limit, |goal|)]
  {
    if k > 0 {
      AtMostIsRest(goal, k);
      FindRest(goal, AtMost(goal[k].key), k, 0, limit);
    } else {
      NoBoundKeepsAll(goal);
      FindRest(goal, NoBound, 0, 0, limit);
    }
  }

  /** Cutting a page off what was found, which may be one document longer. */
  lemma PageCut(goal: seq<Doc>, k: nat, offset: nat, limit: nat, found: seq<Doc>)
    requires limit > 0 && k <= |goal|
    requires found == goal[Min(k + offset, |goal|)..Min(k + offset + limit + 1, |goal|)]
    ensures |found| <= limit ==> IsPage(goal, k, offset, limit, found, false)
    ensures |found| > limit ==> IsPage(goal, k, offset, limit, found[..limit], true)
    ensures |found| > limit ==> found[limit - 1] == goal[k + offset + limit - 1]
    ensures |found| > limit ==> found[limit] == goal[k + offset + limit]
  {
  }

  // ----- votes -----

  /** What the query of `getVotes` finds, one document more than a page if there is more. */
  function VotesFound(goal: seq<Doc>, nextKey: Option<Key>, order: Order, offset: nat, limit: nat): seq<Doc> {
    Find(goal, if nextKey.Some? then Past(nextKey.value, order) else NoBound, offset, limit + 1)
  }

  /**
   `matching` are the votes of the proposal, and of the answer asked for.  By default the votes behind a key are those
   strictly below it, from the highest down; with `reverse` those strictly above it, from the lowest up.
   */
  method GetVotes(matching: seq<Doc>, nextKey: Option<Key>, reverse: bool, pageOffset: nat, pageLimit: nat)
    returns (page: Page)
    requires pageLimit > 0
    ensures page.Rejected? <==> nextKey.Some? && (nextKey.value.major == 0 || nextKey.value.minor == 0)
    ensures !page.Rejected? ==>
              var goal := Arranged(matching, OrderFor(reverse));
              var found := VotesFound(goal, nextKey, OrderFor(reverse), pageOffset, pageLimit);
              page == if |found| <= pageLimit then Page(found, None)
                      else Page(found[..pageLimit], Some(found[pageLimit - 1].key))
  {
    if nextKey.Some? && !(nextKey.value.minor != 0 && nextKey.value.major != 0) {
      return Rejected;
    }
    var bound, sort := NoBound, Descending;
    if reverse {
      sort := Ascending;
    }
    if nextKey.Some? {
      if reverse {
        bound := GreaterThan(nextKey.value);
      } else {
        bound := LessThan(nextKey.value);
      }
    }
    page := CutVotes(Find(Arranged(matching, sort), bound, pageOffset, pageLimit + 1), pageLimit);
  }

  /** One vote more than a page: it is dropped, and the key is that of the last one left. */
  method CutVotes(found: seq<Doc>, pageLimit: nat) returns (page: Page)
    requires 0 < pageLimit && |found| <= pageLimit + 1
    ensures page == if |found| <= pageLimit then Page(found, None)
                    else Page(found[..pageLimit], Some(found[pageLimit - 1].key))
  {
    var votes := found;
    var newNextKey := if |votes| < 1 || |votes| <= pageLimit then None else Some(votes[|votes| - 2].key);
    if newNextKey.Some? {
      votes := votes[..|votes| - 1];
    }
    page := Page(votes, newNextKey);
  }

  lemma FoundIsSorted(rising: seq<Doc>, bound: Bound, order: Order, offset: nat, limit: nat)
    requires Rising(rising)
    ensures Sorted(Find(Arranged(rising, order), bound, offset, limit), order)
    ensures var found := Find(Arranged(rising, order), bound, offset, limit);
            forall i :: 0 <= i < |found| ==> Within(found[i].key, bound)
  {
    var goal := Arranged(rising, order);
    ArrangedIsSorted(rising, order);
    BoundedSorted(goal, bound, order);
    BoundedAreWithin(goal, bound);
  }

  /** By default the votes found for a key are strictly below it and fall strictly. */
  lemma VotesFall(matching: seq<Doc>, key: Key, offset: nat, limit: nat)
    requires Rising(matching)
    ensures var found := VotesFound(Arranged(matching, OrderFor(false)), Some(key), OrderFor(false), offset, limit);
            && (forall i :: 0 <= i < |found| ==>
                  found[i].key.major < key.major || (found[i].key.major == key.major && found[i].key.minor < key.minor))
            && (forall i, j :: 0 <= i < j < |found| ==>
                  found[j].key.major < found[i].key.major
                  || (found[j].key.major == found[i].key.major && found[j].key.minor < found[i].key.minor))
  {
    FoundIsSorted(matching, LessThan(key), Descending, offset, limit + 1);
  }

  /** With `reverse` they are strictly above it and rise strictly. */
  lemma VotesRise(matching: seq<Doc>, key: Key, offset: nat, limit: nat)
    requires Rising(matching)
    ensures var found := VotesFound(Arranged(matching, OrderFor(true)), Some(key), OrderFor(true), offset, limit);
            && (forall i :: 0 <= i < |found| ==>
                  found[i].key.major > key.major || (found[i].key.major == key.major && found[i].key.minor > key.minor))
            && (forall i, j :: 0 <= i < j < |found| ==>
                  found[j].key.major > found[i].key.major
                  || (found[j].key.major == found[i].key.major && found[j].key.minor > found[i].key.minor))
  {
    FoundIsSorted(matching, GreaterThan(key), Ascending, offset, limit + 1);
  }

  predicate PositiveKeys(docs: seq<Doc>) {
    forall i :: 0 <= i < |docs| ==> docs[i].key.major > 0 && docs[i].key.minor > 0
  }

  /** A request for the votes behind position `k`. */
  method VotesPage(matching: seq<Doc>, reverse: bool, pageOffset: nat, pageLimit: nat, nextKey: Option<Key>,
      ghost goal: seq<Doc>, ghost k: nat)
    returns (page: Page)
    requires goal == Arranged(matching, OrderFor(reverse)) && Sorted(goal, OrderFor(reverse))
    requires PositiveKeys(goal) && pageLimit > 0
    requires k <= |goal| && nextKey == if k == 0 then None else Some(goal[k - 1].key)
    ensures page.Page? && Unrolls(goal, k, pageOffset, pageLimit, page.docs, page.nextKey.Some?)
    ensures page.nextKey.Some? ==> page.nextKey.value == goal[k + pageOffset + pageLimit - 1].key
  {
    PastPage(goal, OrderFor(reverse), k, pageOffset, pageLimit + 1);
    PageCut(goal, k, pageOffset, pageLimit, VotesFound(goal, nextKey, OrderFor(reverse), pageOffset, pageLimit));
    page := GetVotes(matching, nextKey, reverse, pageOffset, pageLimit);
    PageUnrolls(goal, k, pageOffset, pageLimit, page.docs, page.nextKey.Some?);
  }

  /** The requests from position `k` on. */
  method FollowVotesFrom(matching: seq<Doc>, reverse: bool, pageOffset: nat, pageLimit: nat, nextKey: Option<Key>,
      ghost goal: seq<Doc>, ghost k: nat)
    returns (pages: seq<seq<Doc>>)
    requires goal == Arranged(matching, OrderFor(reverse)) && Sorted(goal, OrderFor(reverse))
    requires PositiveKeys(goal) && pageLimit > 0
    requires k <= |goal| && nextKey == if k == 0 then None else Some(goal[k - 1].key)
    ensures pages == Pages(goal[k..], pageOffset, pageLimit)
    decreases |goal| - k
  {
    var page := VotesPage(matching, reverse, pageOffset, pageLimit, nextKey, goal, k);
    pages := [page.docs];
    if page.nextKey.Some? {
      var rest :=
        FollowVotesFrom(matching, reverse, pageOffset, pageLimit, page.nextKey, goal, k + pageOffset + pageLimit);
      pages := pages + rest;
    }
  }

  /**
   Following `nextKey` from no key lists, page by page, what the offset of every request leaves of the matching votes,
   from the highest down, or from the lowest up with `reverse`: without an offset every vote once, in order, in
   ceil(n / limit) requests, and with one never all of them.
   */
  method FollowVotes(docs: seq<Doc>, keep: Doc -> bool, reverse: bool, pageOffset: nat, pageLimit: nat)
    returns (pages: seq<seq<Doc>>)
    requires Rising(docs) && PositiveKeys(docs) && pageLimit > 0
    ensures var goal := if reverse then Matching(docs, keep) else Reversed(Matching(docs, keep));
            && pages == Pages(goal, pageOffset, pageLimit)
            && (Flatten(pages) == goal <==> pageOffset == 0 || goal == [])
  {
    var matching := Matching(docs, keep);
    MatchingRises(docs, keep);
    MatchingSorted(docs, keep, Ascending);
    assert forall i :: 0 <= i < |matching| ==> matching[i] in docs;
    ghost var goal := Arranged(matching, OrderFor(reverse));
    ArrangedIsSorted(matching, OrderFor(reverse));
    PagesIff(goal, pageOffset, pageLimit);
    assert goal[0..] == goal;
    pages := FollowVotesFrom(matching, reverse, pageOffset, pageLimit, None, goal, 0);
  }

  /** By default the answer to any key is cut out of exactly the votes below it, the highest first. */
  lemma VotesBelowKey(matching: seq<Doc>, key: Key, pageOffset: nat, pageLimit: nat, k: nat)
    requires Rising(matching) && k <= |matching|
    requires forall i :: 0 <= i < |matching| ==>
               (i < k <==> matching[i].key.major < key.major
                           || (matching[i].key.major == key.major && matching[i].key.minor < key.minor))
    ensures VotesFound(Reversed(matching), Some(key), OrderFor(false), pageOffset, pageLimit) ==
            Reversed(matching[..k])[Min(pageOffset, k)..Min(pageOffset + pageLimit + 1, k)]
  {
    var goal := Reversed(matching);
    forall i | 0 <= i < |goal|
      ensures Within(goal[i].key, LessThan(key)) <==> i >= |goal| - k
    {
      assert goal[i] == matching[|matching| - 1 - i];
    }
    BoundIsRest(goal, |goal| - k, LessThan(key));
    ReversedFront(matching, k);
  }

  lemma ReversedFront(docs: seq<Doc>, k: nat)
    requires k <= |docs|
    ensures Reversed(docs)[|docs| - k..] == Reversed(docs[..k])
  {
  }

  /** With `reverse` it is cut out of exactly the votes above it, the lowest first. */
  lemma VotesAboveKey(matching: seq<Doc>, key: Key, pageOffset: nat, pageLimit: nat, k: nat)
    requires Rising(matching) && k <= |matching|
    requires forall i :: 0 <= i < |matching| ==>
               (i >= k <==> matching[i].key.major > key.major
                            || (matching[i].key.major == key.major && matching[i].key.minor > key.minor))
    ensures VotesFound(matching, Some(key), OrderFor(true), pageOffset, pageLimit) ==
            matching[k..][Min(pageOffset, |matching| - k)..Min(pageOffset + pageLimit + 1, |matching| - k)]
  {
    BoundIsRest(matching, k, GreaterThan(key));
  }

  // ----- proposals -----

  predicate ProposalKeys(docs: seq<Doc>) {
    forall i :: 0 <= i < |docs| ==> docs[i].key.major > 0 && docs[i].key.minor == 0
  }

  /** What the query of `getByChain` finds; `nextKey` 0 counts as no key, and a key resets the offset. */
  function ProposalsFound(goal: seq<Doc>, nextKey: nat, order: Order, offset: nat, limit: nat): seq<Doc> {
    if nextKey == 0 then Find(goal, NoBound, offset, limit + 1)
    else Find(goal, Past(Key(nextKey, 0), order), 0, limit + 1)
  }

  /**
   `getByChain` without a proposal id; `matching` are the proposals with enough deposit.  By default a key asks for the
   proposals with a smaller id, the largest first; with `reverse` for those with a larger id, the smallest first.
   */
  method GetProposals(matching: seq<Doc>, nextKey: nat, reverse: bool, pageOffset: nat, pageLimit: nat)
    returns (result: seq<Doc>, newNextKey: Option<nat>)
    requires pageLimit > 0 && ProposalKeys(matching)
    ensures var goal := Arranged(matching, OrderFor(reverse));
            var found := ProposalsFound(goal, nextKey, OrderFor(reverse), pageOffset, pageLimit);
            if |found| <= pageLimit then result == found && newNextKey == None
            else result == found[..pageLimit] && newNextKey == Some(found[pageLimit - 1].key.major)
  {
    var bound, offset, sort := NoBound, pageOffset, if reverse then Ascending else Descending;
    if nextKey != 0 {
      if reverse {
        bound := GreaterThan(Key(nextKey, 0));
      } else {
        bound := LessThan(Key(nextKey, 0));
      }
      offset := 0;
    }
    FoundKeys(Arranged(matching, sort), bound, offset, pageLimit + 1);
    result, newNextKey := CutProposals(Find(Arranged(matching, sort), bound, offset, pageLimit + 1), pageLimit);
  }

  method CutProposals(found: seq<Doc>, pageLimit: nat) returns (result: seq<Doc>, newNextKey: Option<nat>)
    requires 0 < pageLimit && |found| <= pageLimit + 1 && ProposalKeys(found)
    ensures if |found| <= pageLimit then result == found && newNextKey == None
            else result == found[..pageLimit] && newNextKey == Some(found[pageLimit - 1].key.major)
  {
    result := found;
    var candidate := if |result| < 1 || |result| <= pageLimit then 0 else result[|result| - 2].key.major;
    if candidate != 0 {
      result := result[..|result| - 1];
    }
    newNextKey := if |result| > 0 && candidate != 0 then Some(candidate) else None;
  }

  /** By default the proposals found for a key have smaller ids, which fall; with `reverse` larger ones, which rise. */
  lemma ProposalsFall(matching: seq<Doc>, key: nat, offset: nat, limit: nat)
    requires Rising(matching) && ProposalKeys(matching) && key > 0
    ensures var found := ProposalsFound(Arranged(matching, OrderFor(false)), key, OrderFor(false), offset, limit);
            && (forall i :: 0 <= i < |found| ==> found[i].key.major < key)
            && (forall i, j :: 0 <= i < j < |found| ==> found[j].key.major < found[i].key.major)
  {
    FoundIsSorted(matching, LessThan(Key(key, 0)), Descending, 0, limit + 1);
    FoundKeys(Reversed(matching), LessThan(Key(key, 0)), 0, limit + 1);
    IdsInOrder(Find(Reversed(matching), LessThan(Key(key, 0)), 0, limit + 1), LessThan(Key(key, 0)), Descending);
  }

  lemma IdsInOrder(found: seq<Doc>, bound: Bound, order: Order)
    requires ProposalKeys(found) && Sorted(found, order)
    requires !bound.NoBound? && bound.key.minor == 0 && forall i :: 0 <= i < |found| ==> Within(found[i].key, bound)
    ensures forall i :: 0 <= i < |found| ==>
              if bound.GreaterThan? then found[i].key.major > bound.key.major
              else if bound.LessThan? then found[i].key.major < bound.key.major
              else found[i].key.major <= bound.key.major
    ensures forall i, j :: 0 <= i < j < |found| ==>
              if order == Descending then found[j].key.major < found[i].key.major
              else found[j].key.major > found[i].key.major
  {
  }

  lemma ProposalsRise(matching: seq<Doc>, key: nat, offset: nat, limit: nat)
    requires Rising(matching) && ProposalKeys(matching) && key > 0
    ensures var found := ProposalsFound(Arranged(matching, OrderFor(true)), key, OrderFor(true), offset, limit);
            && (forall i :: 0 <= i < |found| ==> found[i].key.major > key)
            && (forall i, j :: 0 <= i < j < |found| ==> found[j].key.major > found[i].key.major)
  {
    FoundIsSorted(matching, GreaterThan(Key(key, 0)), Ascending, 0, limit + 1);
    FoundKeys(matching, GreaterThan(Key(key, 0)), 0, limit + 1);
    IdsInOrder(Find(matching, GreaterThan(Key(key, 0)), 0, limit + 1), GreaterThan(Key(key, 0)), Ascending);
  }

  lemma FoundKeys(docs: seq<Doc>, b: Bound, offset: nat, limit: nat)
    requires ProposalKeys(docs)
    ensures ProposalKeys(Find(docs, b, offset, limit))
  {
    BoundedKeys(docs, b);
  }

  lemma {:induction false} BoundedKeys(docs: seq<Doc>, b: Bound)
    requires ProposalKeys(docs)
    ensures ProposalKeys(Bounded(docs, b))
  {
    if docs != [] { BoundedKeys(docs[..|docs| - 1], b); }
  }

  /** `goal` are the matching proposals in the order asked for. */
  ghost predicate Listing(goal: seq<Doc>, matching: seq<Doc>, reverse: bool) {
    && goal == Arranged(matching, OrderFor(reverse)) && Sorted(goal, OrderFor(reverse))
    && ProposalKeys(matching) && ProposalKeys(goal)
  }

  /** The first request, the only one with an offset. */
  method FirstProposals(matching: seq<Doc>, reverse: bool, pageOffset: nat, pageLimit: nat, ghost goal: seq<Doc>)
    returns (result: seq<Doc>, newNextKey: Option<nat>)
    requires Listing(goal, matching, reverse) && pageLimit > 0
    ensures IsPage(goal, 0, pageOffset, pageLimit, result, newNextKey.Some?)
    ensures newNextKey.Some? ==> newNextKey.value == goal[pageOffset + pageLimit - 1].key.major
  {
    PastPage(goal, OrderFor(reverse), 0, pageOffset, pageLimit + 1);
    PageCut(goal, 0, pageOffset, pageLimit, ProposalsFound(goal, 0, OrderFor(reverse), pageOffset, pageLimit));
    result, newNextKey := GetProposals(matching, 0, reverse, pageOffset, pageLimit);
  }

  /** A request for the proposals behind position `k`. */
  method LaterProposals(matching: seq<Doc>, reverse: bool, pageLimit: nat, nextKey: nat,
      ghost goal: seq<Doc>, ghost k: nat)
    returns (result: seq<Doc>, newNextKey: Option<nat>)
    requires Listing(goal, matching, reverse) && pageLimit > 0
    requires 0 < k <= |goal| && nextKey == goal[k - 1].key.major
    ensures Unrolls(goal, k, 0, pageLimit, result, newNextKey.Some?)
    ensures newNextKey.Some? ==> newNextKey.value == goal[k + pageLimit - 1].key.major
  {
    assert goal[k - 1].key == Key(nextKey, 0);
    PastPage(goal, OrderFor(reverse), k, 0, pageLimit + 1);
    PageCut(goal, k, 0, pageLimit, ProposalsFound(goal, nextKey, OrderFor(reverse), 0, pageLimit));
    result, newNextKey := GetProposals(matching, nextKey, reverse, 0, pageLimit);
    PageUnrolls(goal, k, 0, pageLimit, result, newNextKey.Some?);
  }

  method FollowProposalsFrom(matching: seq<Doc>, reverse: bool, pageLimit: nat, nextKey: nat,
      ghost goal: seq<Doc>, ghost k: nat)
    returns (pages: seq<seq<Doc>>)
    requires Listing(goal, matching, reverse) && pageLimit > 0
    requires 0 < k <= |goal| && nextKey == goal[k - 1].key.major
    ensures pages == Pages(goal[k..], 0, pageLimit)
    decreases |goal| - k
  {
    var page, newNextKey := LaterProposals(matching, reverse, pageLimit, nextKey, goal, k);
    pages := [page];
    if newNextKey.Some? {
      var rest := FollowProposalsFrom(matching, reverse, pageLimit, newNextKey.value, goal, k + pageLimit);
      pages := pages + rest;
    }
  }

  /**
   Following `nextKey` over the proposals, from the largest id down, or from the smallest up with `reverse`: all pages
   behind the first request's offset.
   */
  method FollowProposals(docs: seq<Doc>, keep: Doc -> bool, reverse: bool, pageOffset: nat, pageLimit: nat)
    returns (pages: seq<seq<Doc>>)
    requires Rising(docs) && ProposalKeys(docs) && pageLimit > 0
    ensures var goal := if reverse then Matching(docs, keep) else Reversed(Matching(docs, keep));
            var behind := goal[Min(pageOffset, |goal|)..];
            pages == Pages(behind, 0, pageLimit) && Flatten(pages) == behind
  {
    var matching := Matching(docs, keep);
    MatchingRises(docs, keep);
    MatchingSorted(docs, keep, Ascending);
    assert forall i :: 0 <= i < |matching| ==> matching[i] in docs;
    ghost var goal := Arranged(matching, OrderFor(reverse));
    ArrangedIsSorted(matching, OrderFor(reverse));
    PagesWithoutOffset(goal[Min(pageOffset, |goal|)..], pageLimit);
    pages := FollowAllProposals(matching, reverse, pageOffset, pageLimit, goal);
  }

  method FollowAllProposals(matching: seq<Doc>, reverse: bool, pageOffset: nat, pageLimit: nat, ghost goal: seq<Doc>)
    returns (pages: seq<seq<Doc>>)
    requires Listing(goal, matching, reverse) && pageLimit > 0
    ensures pages == Pages(goal[Min(pageOffset, |goal|)..], 0, pageLimit)
  {
    var page, nextKey := FirstProposals(matching, reverse, pageOffset, pageLimit, goal);
    FirstPage(goal, pageOffset, pageLimit, page, nextKey.Some?);
    pages := [page];
    if nextKey.Some? {
      var rest := FollowProposalsFrom(matching, reverse, pageLimit, nextKey.value, goal, pageOffset + pageLimit);
      pages := pages + rest;
    }
  }

  /** The first page behind an offset. */
  lemma FirstPage(goal: seq<Doc>, offset: nat, limit: nat, page: seq<Doc>, more: bool)
    requires limit > 0 && IsPage(goal, 0, offset, limit, page, more)
    ensures var behind := goal[Min(offset, |goal|)..];
            Pages(behind, 0, limit) == if more then [page] + Pages(goal[offset + limit..], 0, limit) else [page]
  {
    var k := Min(offset, |goal|);
    var behind := goal[k..];
    if more {
      SliceOfRest(goal, k, 0, limit);
      SliceOfRest(goal, k, limit, |behind|);
    } else if behind != [] {
      assert page == behind == behind[0..];
    }
  }

  // ----- contracts -----

  function ContractsFound(goal: seq<Doc>, nextKey: Option<Key>, limit: nat): seq<Doc> {
    Find(goal, if nextKey.Some? then AtMost(nextKey.value) else NoBound, 0, limit + 1)
  }

  /** `_id <= nextKey`, from the largest `_id` down: the key is the first document of the next page. */
  method GetContracts(matching: seq<Doc>, nextKey: Option<Key>, limit: nat) returns (page: Page)
    requires limit > 0
    ensures var found := ContractsFound(Reversed(matching), nextKey, limit);
            page == if |found| <= limit then Page(found, None) else Page(found[..limit], Some(found[limit].key))
  {
    var bound := NoBound;
    if nextKey.Some? {
      bound := AtMost(nextKey.value);
    }
    var data := Find(Arranged(matching, Descending), bound, 0, limit + 1);
    var newKey := if |data| == limit + 1 then Some(data[limit].key) else None;
    page := Page(data[..Min(limit, |data|)], newKey);
  }

  /** The contracts found for a key are at most it and fall strictly. */
  lemma ContractsFall(matching: seq<Doc>, key: Key, limit: nat)
    requires Rising(matching)
    ensures var found := ContractsFound(Reversed(matching), Some(key), limit);
            && (forall i :: 0 <= i < |found| ==>
                  found[i].key.major < key.major
                  || (found[i].key.major == key.major && found[i].key.minor <= key.minor))
            && (forall i, j :: 0 <= i < j < |found| ==>
                  found[j].key.major < found[i].key.major
                  || (found[j].key.major == found[i].key.major && found[j].key.minor < found[i].key.minor))
  {
    FoundIsSorted(matching, AtMost(key), Descending, 0, limit + 1);
  }

  method ContractsPage(matching: seq<Doc>, limit: nat, nextKey: Option<Key>, ghost goal: seq<Doc>, ghost k: nat)
    returns (page: Page)
    requires goal == Reversed(matching) && Sorted(goal, Descending) && limit > 0
    requires k == 0 || k < |goal|
    requires nextKey == if k == 0 then None else Some(goal[k].key)
    ensures page.Page? && Unrolls(goal, k, 0, limit, page.docs, page.nextKey.Some?)
    ensures page.nextKey.Some? ==> page.nextKey.value == goal[k + limit].key
  {
    AtMostPage(goal, k, limit + 1);
    PageCut(goal, k, 0, limit, ContractsFound(goal, nextKey, limit));
    page := GetContracts(matching, nextKey, limit);
    PageUnrolls(goal, k, 0, limit, page.docs, page.nextKey.Some?);
  }

  method FollowContractsFrom(matching: seq<Doc>, limit: nat, nextKey: Option<Key>, ghost goal: seq<Doc>, ghost k: nat)
    returns (pages: seq<seq<Doc>>)
    requires goal == Reversed(matching) && Sorted(goal, Descending) && limit > 0
    requires k == 0 || k < |goal|
    requires nextKey == if k == 0 then None else Some(goal[k].key)
    ensures pages == Pages(goal[k..], 0, limit)
    decreases |goal| - k
  {
    var page := ContractsPage(matching, limit, nextKey, goal, k);
    pages := [page.docs];
    if page.nextKey.Some? {
      var rest := FollowContractsFrom(matching, limit, page.nextKey, goal, k + limit);
      pages := pages + rest;
    }
  }

  /** Following the inclusive key over the contracts, from the largest `_id` down. */
  method FollowContracts(docs: seq<Doc>, keep: Doc -> bool, limit: nat) returns (pages: seq<seq<Doc>>)
    requires Rising(docs) && limit > 0
    ensures var goal := Reversed(Matching(docs, keep)); pages == Pages(goal, 0, limit) && Flatten(pages) == goal
  {
    var matching := Matching(docs, keep);
    MatchingRises(docs, keep);
    ArrangedIsSorted(matching, Descending);
    ghost var goal := Reversed(matching);
    PagesWithoutOffset(goal, limit);
    assert goal[0..] == goal;
    pages := FollowContractsFrom(matching, limit, None, goal, 0);
  }
}
