/**
 The product list: the server's offset pagination and the client's infinite query
 that walks it.  `limit` is the server's page size (LIMIT_ITEMS), `step` the
 client's (ENTITIES_LIMIT); both are 10 in the repository.
 */
module InfiniteScroll {
  import opened Wrappers

  datatype Metadata = Metadata(total: nat, offset: nat, limit: nat)

  datatype EntryList<T> = EntryList(metadata: Metadata, entries: seq<T>)

  datatype Response<T> = Page(list: EntryList<T>) | OffsetTooBig

  function Min(a: nat, b: nat): nat {
    if a < b then a else b
  }

  // find({ skip, limit }) on the collection in its stored order.
  function Find<T>(products: seq<T>, skip: nat, limit: nat): seq<T> {
    if skip >= |products| then [] else products[skip..Min(skip + limit, |products|)]
  }

  function GetProducts<T>(products: seq<T>, offset: nat, limit: nat): Response<T> {
    if offset >= |products| then OffsetTooBig
    else Page(EntryList(Metadata(|products|, offset, limit), Find(products, offset, limit)))
  }

  // `pages.flatMap(p => p.entries)`
  function Flatten<T>(pages: seq<EntryList<T>>): seq<T> {
    if pages == [] then [] else pages[0].entries + Flatten(pages[1..])
  }

  function OffsetOf(pageParam: nat, step: nat): nat
    requires pageParam >= 1
  {
    (pageParam - 1) * step
  }

  // A further page is asked for only by the number that stands for exactly what is loaded.
  function GetNextPageParam<T>(pages: seq<EntryList<T>>, step: nat): (r: Option<nat>)
    requires pages != [] && step >= 1
    ensures r.Some? ==> r.value >= 1 && OffsetOf(r.value, step) == |Flatten(pages)|
  {
    var loaded := |Flatten(pages)|;
    var lastPage := pages[|pages| - 1];
    if loaded % step != 0 || loaded == lastPage.metadata.total || lastPage.metadata.offset > lastPage.metadata.total
    then None
    else
      NextPageOffset(loaded, step);
      Some(loaded / step + 1)
  }

  // For any pages, consistent or not: nothing more is asked for iff the last page was
  // short, everything is loaded, or the last offset was beyond the total.
  lemma NoNextPageIff<T>(pages: seq<EntryList<T>>, step: nat)
    requires pages != [] && step >= 1
    ensures var loaded, last := |Flatten(pages)|, pages[|pages| - 1].metadata;
            GetNextPageParam(pages, step).None? <==>
            loaded % step > 0 || loaded == last.total || last.total < last.offset
  {
  }

  lemma NextPageOffset(loaded: nat, step: nat)
    requires step >= 1 && loaded % step == 0
    ensures OffsetOf(loaded / step + 1, step) == loaded
  {
  }

  // Scrolling to the end: the responses received, in order, starting from the pages
  // already loaded; it stops when the server refuses or there is no next page.
  function Scroll<T>(products: seq<T>, limit: nat, step: nat, pages: seq<EntryList<T>>, pageParam: nat): seq<Response<T>>
    requires limit >= 1 && step >= 1 && pageParam >= 1
    requires OffsetOf(pageParam, step) == |Flatten(pages)| || OffsetOf(pageParam, step) >= |products|
    decreases if |products| > |Flatten(pages)| then |products| - |Flatten(pages)| else 0
  {
    match GetProducts(products, OffsetOf(pageParam, step), limit)
    case OffsetTooBig => [OffsetTooBig]
    case Page(list) =>
      FlattenAppend(pages, list);
      assert |list.entries| >= 1;
      match GetNextPageParam(pages + [list], step)
      case None => [Page(list)]
      case Some(next) => [Page(list)] + Scroll(products, limit, step, pages + [list], next)
  }

  // What the component shows: the entries of the answered pages.
  function Shown<T>(responses: seq<Response<T>>): seq<T> {
    if responses == [] then []
    else (if responses[0].Page? then responses[0].list.entries else []) + Shown(responses[1..])
  }

  function Visit<T>(products: seq<T>, limit: nat, step: nat): seq<Response<T>>
    requires limit >= 1 && step >= 1
  {
    Scroll(products, limit, step, [], 1)
  }

  lemma {:induction false} FlattenAppend<T>(pages: seq<EntryList<T>>, last: EntryList<T>)
    ensures Flatten(pages + [last]) == Flatten(pages) + last.entries
    decreases |pages|
  {
    if pages == [] {
      assert Flatten([last]) == last.entries + Flatten<T>([last][1..]);
    } else {
      FlattenAppend(pages[1..], last);
      assert (pages + [last])[1..] == pages[1..] + [last];
    }
  }

  // ---- a shared page size, or one that the client's divides evenly ---------------------

  // `count` requests of `limit` products each are what `n` products take: n / limit, rounded up.
  predicate RoundsUp(count: nat, n: nat, limit: nat) {
    (count - 1) * limit < n <= count * limit
  }

  lemma MultipleStep(a: nat, limit: nat, step: nat)
    requires step >= 1 && a % step == 0 && limit % step == 0
    ensures (a + limit) % step == 0
    ensures ((a + limit) / step) * step == a + limit
  {
    var i, j := a / step, limit / step;
    assert a == i * step && limit == j * step;
    assert a + limit == (i + j) * step;
    ModOfMultiple(i + j, step);
  }

  lemma MulAtLeast(k: nat, step: nat)
    requires k >= 1
    ensures k * step >= step
  {
    assert k * step == (k - 1) * step + step;
  }

  lemma ModOfMultiple(i: nat, step: nat)
    requires step >= 1
    ensures (i * step) % step == 0 && (i * step) / step == i
  {
    var q, r := (i * step) / step, (i * step) % step;
    assert i * step == q * step + r;
    assert (i - q) * step == i * step - q * step == r;
    if q < i {
      MulAtLeast(i - q, step);
    }
  }

  // One answered page: what was loaded grows by the next stretch of the collection.
  lemma NextPage<T>(products: seq<T>, limit: nat, pages: seq<EntryList<T>>, shown: seq<T>, list: EntryList<T>)
    requires limit >= 1 && shown == Flatten(pages) && |shown| < |products| && shown == products[..|shown|]
    requires list == EntryList(Metadata(|products|, |shown|, limit), Find(products, |shown|, limit))
    ensures GetProducts(products, |shown|, limit) == Page(list)
    ensures Flatten(pages + [list]) == shown + list.entries
    ensures shown + list.entries == products[..Min(|shown| + limit, |products|)]
  {
    FlattenAppend(pages, list);
    FindContinues(products, |shown|, limit);
  }

  // A page is refused iff its offset is not below the total; otherwise it holds the
  // next products in order, as many as fit.
  lemma PageDecides<T>(products: seq<T>, offset: nat, limit: nat)
    ensures GetProducts(products, offset, limit).OffsetTooBig? <==> offset >= |products|
    ensures offset < |products| ==>
              var list := GetProducts(products, offset, limit).list;
              && list.metadata == Metadata(|products|, offset, limit)
              && |list.entries| == (if offset + limit <= |products| then limit else |products| - offset)
              && forall i :: 0 <= i < |list.entries| ==> list.entries[i] == products[offset + i]
  {
  }

  lemma FindContinues<T>(products: seq<T>, skip: nat, limit: nat)
    requires skip < |products|
    ensures products[..skip] + Find(products, skip, limit) == products[..Min(skip + limit, |products|)]
  {
  }

  lemma ShownCons<T>(first: Response<T>, rest: seq<Response<T>>)
    ensures Shown([first] + rest) == (if first.Page? then first.list.entries else []) + Shown(rest)
  {
    assert ([first] + rest)[1..] == rest;
  }

  // One request of the scroll, seen from outside.
  lemma ScrollStep<T>(products: seq<T>, limit: nat, step: nat, pages: seq<EntryList<T>>, pageParam: nat, list: EntryList<T>)
    requires step >= 1 && limit >= 1 && pageParam >= 1
    requires OffsetOf(pageParam, step) == |Flatten(pages)|
    requires GetProducts(products, |Flatten(pages)|, limit) == Page(list)
    ensures GetNextPageParam(pages + [list], step).None? ==>
              Scroll(products, limit, step, pages, pageParam) == [Page(list)]
    ensures GetNextPageParam(pages + [list], step).Some? ==>
              var next := GetNextPageParam(pages + [list], step).value;
              && next >= 1 && OffsetOf(next, step) == |Flatten(pages + [list])|
              && Scroll(products, limit, step, pages, pageParam) == [Page(list)] + Scroll(products, limit, step, pages + [list], next)
  {
  }

  lemma {:induction false} ScrollCovers<T>(products: seq<T>, limit: nat, step: nat, pages: seq<EntryList<T>>, pageParam: nat)
    requires step >= 1 && limit >= 1 && limit % step == 0 && pageParam >= 1
    requires |Flatten(pages)| < |products| && Flatten(pages) == products[..|Flatten(pages)|]
    requires OffsetOf(pageParam, step) == |Flatten(pages)|
    ensures var responses := Scroll(products, limit, step, pages, pageParam);
            && OffsetTooBig !in responses
            && Flatten(pages) + Shown(responses) == products
            && RoundsUp(|responses|, |products| - |Flatten(pages)|, limit)
    decreases |products| - |Flatten(pages)|
  {
    var loaded := |Flatten(pages)|;
    var list := GetProducts(products, loaded, limit).list;
    NextPage(products, limit, pages, Flatten(pages), list);
    var more := pages + [list];
    ModOfMultiple(pageParam - 1, step);
    MultipleStep(loaded, limit, step);
    ScrollStep(products, limit, step, pages, pageParam, list);
    var left := |products| - |Flatten(more)|;
    if left > 0 {
      var next := GetNextPageParam(more, step).value;
      ScrollCovers(products, limit, step, more, next);
      Prepend(products, Flatten(pages), list, Scroll(products, limit, step, more, next), left, limit);
    } else {
      Prepend(products, Flatten(pages), list, [], 0, limit);
      assert [Page(list)] + [] == [Page(list)];
    }
  }

  lemma Prepend<T>(products: seq<T>, before: seq<T>, list: EntryList<T>, rest: seq<Response<T>>, left: nat, limit: nat)
    requires (before + list.entries) + Shown(rest) == products && OffsetTooBig !in rest
    requires if left == 0 then rest == [] && 0 < |list.entries| <= limit else |list.entries| == limit && RoundsUp(|rest|, left, limit)
    ensures before + Shown([Page(list)] + rest) == products && OffsetTooBig !in [Page(list)] + rest
    ensures RoundsUp(|[Page(list)] + rest|, |list.entries| + left, limit)
  {
    ShownCons(Page(list), rest);
    assert (1 + |rest|) * limit == limit + |rest| * limit;
  }

  // With the page sizes of the repository (equal on both sides) the list shows every
  // product once and in order, in |products| / limit requests rounded up, and never
  // asks for an offset the server refuses.
  lemma InfiniteScrollCoversCatalogue<T>(products: seq<T>, limit: nat)
    requires |products| >= 1 && limit >= 1
    ensures var responses := Visit(products, limit, limit);
            && Shown(responses) == products
            && OffsetTooBig !in responses
            && RoundsUp(|responses|, |products|, limit)
  {
    assert limit % limit == 0;
    assert Flatten<T>([]) == [];
    ScrollCovers(products, limit, limit, [], 1);
  }

  // An empty collection is refused at the first request.
  lemma EmptyCatalogueIsRefused<T>(limit: nat, step: nat)
    requires limit >= 1 && step >= 1
    ensures Visit<T>([], limit, step) == [OffsetTooBig]
  {
  }

  // If the two sizes ever differ: the whole list is shown iff it fits in one page or
  // the client's size divides the server's.
  lemma CoversIff<T>(products: seq<T>, limit: nat, step: nat)
    requires |products| >= 1 && limit >= 1 && step >= 1
    ensures Shown(Visit(products, limit, step)) == products <==> (|products| <= limit || limit % step == 0)
  {
    assert Flatten<T>([]) == [];
    if limit % step == 0 {
      ScrollCovers(products, limit, step, [], 1);
    } else {
      var list := GetProducts(products, 0, limit).list;
      NextPage(products, limit, [], [], list);
      assert Visit(products, limit, step) == [Page(list)];
      ShownCons(Page(list), []);
      assert [Page(list)] + [] == [Page(list)];
    }
  }
}
