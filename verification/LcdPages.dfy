/** Paging through a chain endpoint: follow `next_key` until there is none. */
module LcdPages {
  import opened Options

  datatype Page<T> = Page(items: seq<T>, nextKey: Option<string>)

  /** The successive answers; a null answer makes the job throw, the last page has no next key. */
  predicate Answers<T>(pages: seq<Option<Page<T>>>) {
    && pages != []
    && (pages[|pages| - 1].Some? ==> pages[|pages| - 1].value.nextKey.None?)
    && forall i :: 0 <= i < |pages| - 1 && pages[i].Some? ==> pages[i].value.nextKey.Some?
  }

  predicate Complete<T(==)>(pages: seq<Option<Page<T>>>) {
    forall p :: p in pages ==> p.Some?
  }

  function AllItems<T>(pages: seq<Option<Page<T>>>): seq<T> {
    if pages == [] then []
    else
      var p := pages[|pages| - 1];
      AllItems(pages[..|pages| - 1]) + if p.Some? then p.value.items else []
  }

  /** How many items the pages hold together. */
  function Length<T>(pages: seq<Option<Page<T>>>): nat {
    if pages == [] then 0
    else (if pages[0].Some? then |pages[0].value.items| else 0) + Length(pages[1..])
  }

  lemma {:induction false} LengthNext<T>(pages: seq<Option<Page<T>>>, i: nat)
    requires i < |pages|
    ensures Length(pages[..i + 1]) == Length(pages[..i]) + if pages[i].Some? then |pages[i].value.items| else 0
  {
    if i > 0 {
      LengthNext(pages[1..], i - 1);
      assert pages[..i + 1][1..] == pages[1..][..i] && pages[..i][1..] == pages[1..][..i - 1];
    } else {
      assert pages[..1][1..] == [];
    }
  }

  lemma {:induction false} ItemsCount<T>(pages: seq<Option<Page<T>>>)
    ensures |AllItems(pages)| == Length(pages)
  {
    if pages != [] {
      var n := |pages| - 1;
      ItemsCount(pages[..n]);
      LengthNext(pages, n);
      assert pages[..n + 1] == pages;
    }
  }

  /** All items of all pages, each in its place, and nothing else. */
  ghost predicate HoldsAll<T>(pages: seq<Option<Page<T>>>, items: seq<T>) {
    |items| == Length(pages) && forall i :: 0 <= i < |pages| && pages[i].Some? ==> HoldsPage(pages, items, i)
  }

  ghost predicate HoldsPage<T>(pages: seq<Option<Page<T>>>, items: seq<T>, i: nat)
    requires i < |pages| && pages[i].Some?
  {
    var page, k := pages[i].value.items, Length(pages[..i]);
    k + |page| <= |items| && items[k..k + |page|] == page
  }

  /** The items of page `i` stand together behind all items of the earlier pages. */
  lemma {:induction false} PageAt<T>(pages: seq<Option<Page<T>>>, i: nat)
    requires i < |pages| && pages[i].Some?
    ensures HoldsPage(pages, AllItems(pages), i)
  {
    var n := |pages| - 1;
    if i < n {
      PageAt(pages[..n], i);
      assert pages[..n][..i] == pages[..i];
    } else {
      ItemsCount(pages[..n]);
    }
  }

  lemma AllItemsHoldsAll<T>(pages: seq<Option<Page<T>>>)
    ensures HoldsAll(pages, AllItems(pages))
  {
    ItemsCount(pages);
    forall i | 0 <= i < |pages| && pages[i].Some?
      ensures HoldsPage(pages, AllItems(pages), i)
    {
      PageAt(pages, i);
    }
  }

  /** The page loop; false when an answer is null. */
  method FetchAll<T(==)>(pages: seq<Option<Page<T>>>) returns (ok: bool, items: seq<T>)
    requires Answers(pages)
    ensures ok <==> Complete(pages)
    ensures ok ==> items == AllItems(pages)
    ensures ok ==> HoldsAll(pages, items)
  {
    items := [];
    var done, call := false, 0;
    while !done
      invariant 0 <= call <= |pages|
      invariant items == AllItems(pages[..call])
      invariant Complete(pages[..call])
      invariant done <==> call == |pages|
      decreases |pages| - call
    {
      if pages[call].None? {
        return false, [];
      }
      assert pages[..call + 1][..call] == pages[..call];
      items := items + pages[call].value.items;
      if pages[call].value.nextKey.None? {
        done := true;
      }
      call := call + 1;
    }
    assert pages[..call] == pages;
    AllItemsHoldsAll(pages);
    return true, items;
  }
}
