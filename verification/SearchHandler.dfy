/**
 * The v1 search handler's `collect`: the ranked lists of the search are filtered by access
 * in batches, with a verdict remembered per name, until the requested page is filled.
 */
module SearchHandler {
  import opened Common
  import opened SearchItems

  const CHECK_ACCESS_BATCH_SIZE := 50

  /** How checkAccess ends for an item. */
  datatype Verdict = Allowed | Denied | Error

  type Check = Item -> Verdict

  // ---------------------------------------------------------------- filter, then slice

  function Filter(keep: Item -> bool, items: seq<Item>): (kept: seq<Item>)
    ensures |kept| <= |items|
  {
    if items == [] then []
    else Filter(keep, items[..|items| - 1]) + (if keep(items[|items| - 1]) then [items[|items| - 1]] else [])
  }

  /** Array.prototype.slice for positions that are not negative. */
  function Slice(items: seq<Item>, from: nat, to: nat): seq<Item> {
    var end := if to < |items| then to else |items|;
    if from < end then items[from..end] else []
  }

  /** The list the handler ends on: the first that fills the page, otherwise the last. */
  function Consumed(keep: Item -> bool, lists: seq<seq<Item>>, requested: nat): seq<Item> {
    if lists == [] then []
    else if |lists| == 1 || |Filter(keep, lists[0])| >= requested then lists[0]
    else Consumed(keep, lists[1..], requested)
  }

  /** Filtering all of the consumed list and cutting the page out of it. */
  function Page(keep: Item -> bool, lists: seq<seq<Item>>, from: nat, size: nat): seq<Item> {
    Slice(Filter(keep, Consumed(keep, lists, from + size)), from, from + size)
  }

  function By(access: map<string, bool>): Item -> bool {
    (item: Item) => item.name in access && access[item.name]
  }

  function Passes(check: Check): Item -> bool {
    (item: Item) => check(item).Allowed?
  }

  /** Access depends on the name alone. */
  ghost predicate NameOnly(check: Check) {
    exists byName: string -> Verdict :: IsByName(check, byName)
  }

  ghost predicate IsByName(check: Check, byName: string -> Verdict) {
    forall item: Item :: check(item) == byName(item.name)
  }

  // ---------------------------------------------------------------- what a page shows

  /** `at` lists the places of the items that pass, all of them, in order. */
  ghost predicate Places(keep: Item -> bool, items: seq<Item>, at: seq<nat>) {
    && (forall j :: 0 <= j < |at| ==> at[j] < |items| && keep(items[at[j]]))
    && (forall j, k :: 0 <= j < k < |at| ==> at[j] < at[k])
    && (forall i :: 0 <= i < |items| && keep(items[i]) ==> i in at)
  }

  /** The page shows the items at the places from `from` on, at most `size` of them. */
  ghost predicate Cuts(page: seq<Item>, items: seq<Item>, at: seq<nat>, from: nat, size: nat)
    requires forall j :: 0 <= j < |at| ==> at[j] < |items|
  {
    && |page| == (if |at| <= from then 0 else if |at| - from < size then |at| - from else size)
    && forall i :: 0 <= i < |page| ==> page[i] == items[at[from + i]]
  }

  /** Item by item: the page is the part from `from` of what passes of the list. */
  ghost predicate Shows(keep: Item -> bool, items: seq<Item>, from: nat, size: nat, page: seq<Item>) {
    exists at: seq<nat> :: Places(keep, items, at) && Cuts(page, items, at, from, size)
  }

  // One more item behind those whose places are known.
  lemma PlacesOneMore(keep: Item -> bool, items: seq<Item>, last: Item, before: seq<nat>)
    requires Places(keep, items, before)
    ensures Places(keep, items + [last], before + if keep(last) then [|items|] else [])
  {
    var at := before + if keep(last) then [|items|] else [];
    forall i | 0 <= i < |items| + 1 && keep((items + [last])[i]) ensures i in at {
      if i < |items| {
        assert i in before;
      } else {
        assert at[|before|] == i;
      }
    }
  }

  // `kept` holds the items at the places.
  ghost predicate Picks(kept: seq<Item>, items: seq<Item>, at: seq<nat>) {
    |kept| == |at| && forall j :: 0 <= j < |at| ==> at[j] < |items| && kept[j] == items[at[j]]
  }

  lemma PicksOneMore(kept: seq<Item>, items: seq<Item>, at: seq<nat>, last: Item, passes: bool)
    requires Picks(kept, items, at)
    ensures Picks(kept + (if passes then [last] else []), items + [last], at + if passes then [|items|] else [])
  {
  }

  lemma {:induction false} FilterPlaces(keep: Item -> bool, items: seq<Item>) returns (at: seq<nat>)
    ensures Places(keep, items, at) && Picks(Filter(keep, items), items, at)
  {
    if items == [] {
      at := [];
    } else {
      var init, last := items[..|items| - 1], items[|items| - 1];
      var before := FilterPlaces(keep, init);
      PlacesOneMore(keep, init, last, before);
      PicksOneMore(Filter(keep, init), init, before, last, keep(last));
      assert init + [last] == items;
      at := before + if keep(last) then [|init|] else [];
    }
  }

  /** Filtering keeps the items that pass, each as often as it was there, and no others. */
  lemma FilterKeeps(keep: Item -> bool, items: seq<Item>, x: Item)
    ensures x in Filter(keep, items) <==> x in items && keep(x)
  {
    var at := FilterPlaces(keep, items);
    if x in items && keep(x) {
      var i :| 0 <= i < |items| && items[i] == x;
      assert i in at;
      var j :| 0 <= j < |at| && at[j] == i;
      assert Filter(keep, items)[j] == x;
    }
  }

  lemma PageShows(keep: Item -> bool, items: seq<Item>, from: nat, size: nat)
    ensures Shows(keep, items, from, size, Slice(Filter(keep, items), from, from + size))
  {
    var at := FilterPlaces(keep, items);
    assert Cuts(Slice(Filter(keep, items), from, from + size), items, at, from, size);
  }

  /** What passes and stands on an unfilled first page: everything. */
  lemma ShownIs(keep: Item -> bool, items: seq<Item>, from: nat, size: nat, page: seq<Item>, x: Item)
    requires Shows(keep, items, from, size, page)
    ensures x in page ==> x in items && keep(x)
    ensures from == 0 && |page| < size && x in items && keep(x) ==> x in page
  {
    var at :| Places(keep, items, at) && Cuts(page, items, at, from, size);
    if from == 0 && |page| < size && x in items && keep(x) {
      var i :| 0 <= i < |items| && items[i] == x;
      assert i in at;
      var j :| 0 <= j < |at| && at[j] == i;
      assert page[j] == x;
    }
  }

  /** The list has at least `requested` items that pass. */
  ghost predicate Enough(keep: Item -> bool, items: seq<Item>, requested: nat) {
    exists at: seq<nat> :: Places(keep, items, at) && |at| >= requested
  }

  // The places before a place are those of the items before it.
  lemma PlacesBefore(keep: Item -> bool, items: seq<Item>, at: seq<nat>, j: nat)
    requires Places(keep, items, at) && j < |at|
    ensures at[j] < |items| && Places(keep, items[..at[j]], at[..j])
  {
    forall i | 0 <= i < at[j] && keep(items[i]) ensures i in at[..j] {
      assert i in at;
      var k :| 0 <= k < |at| && at[k] == i;
      assert at[..j][k] == i;
    }
  }

  lemma {:induction false} PlacesAreUnique(keep: Item -> bool, items: seq<Item>, a: seq<nat>, b: seq<nat>)
    requires Places(keep, items, a) && Places(keep, items, b)
    ensures |a| <= |b|
  {
    if a != [] {
      var last := a[|a| - 1];
      assert last in b;
      var j :| 0 <= j < |b| && b[j] == last;
      PlacesBefore(keep, items, a, |a| - 1);
      PlacesBefore(keep, items, b, j);
      PlacesAreUnique(keep, items[..last], a[..|a| - 1], b[..j]);
    }
  }

  lemma EnoughIs(keep: Item -> bool, items: seq<Item>, requested: nat)
    ensures Enough(keep, items, requested) <==> |Filter(keep, items)| >= requested
  {
    var at := FilterPlaces(keep, items);
    if Enough(keep, items, requested) {
      var b: seq<nat> :| Places(keep, items, b) && |b| >= requested;
      PlacesAreUnique(keep, items, b, at);
    }
  }

  /** The handler stops at list r: the first that has enough for the page, otherwise the last. */
  ghost predicate StopsAt(keep: Item -> bool, lists: seq<seq<Item>>, requested: nat, r: nat)
    requires r < |lists|
  {
    && (forall q :: 0 <= q < r ==> !Enough(keep, lists[q], requested))
    && (r == |lists| - 1 || Enough(keep, lists[r], requested))
  }

  lemma {:induction false} ConsumedStops(keep: Item -> bool, lists: seq<seq<Item>>, requested: nat) returns (r: nat)
    requires lists != []
    ensures r < |lists| && Consumed(keep, lists, requested) == lists[r] && StopsAt(keep, lists, requested, r)
  {
    EnoughIs(keep, lists[0], requested);
    if |lists| == 1 || |Filter(keep, lists[0])| >= requested {
      r := 0;
    } else {
      r := ConsumedStops(keep, lists[1..], requested);
      assert forall q :: 0 < q <= r + 1 ==> lists[q] == lists[1..][q - 1];
      r := r + 1;
    }
  }

  /** The page is cut from what the verdicts allow of the list, and an unfilled first page misses none of it. */
  ghost predicate VerdictPage(access: map<string, bool>, list: seq<Item>, from: nat, size: nat, page: seq<Item>) {
    && Shows(By(access), list, from, size, page)
    && (forall x :: x in page ==> x in list && x.name in access && access[x.name])
    && (from == 0 && |page| < size ==>
          forall x :: x in list && x.name in access && access[x.name] ==> x in page)
  }

  /** The same for the verdicts of the check itself. */
  ghost predicate AllowedPage(check: Check, list: seq<Item>, from: nat, size: nat, page: seq<Item>) {
    && Shows(Passes(check), list, from, size, page)
    && (forall x :: x in page ==> x in list && check(x).Allowed?)
    && (from == 0 && |page| < size ==> forall x :: x in list && check(x).Allowed? ==> x in page)
  }

  lemma FilterIsVerdictPage(access: map<string, bool>, list: seq<Item>, from: nat, size: nat)
    ensures VerdictPage(access, list, from, size, Slice(Filter(By(access), list), from, from + size))
  {
    var page := Slice(Filter(By(access), list), from, from + size);
    PageShows(By(access), list, from, size);
    forall x ensures x in page ==> x in list && x.name in access && access[x.name]
             ensures from == 0 && |page| < size && x in list && x.name in access && access[x.name] ==> x in page {
      ShownIs(By(access), list, from, size, page, x);
    }
  }

  lemma FilterIsAllowedPage(check: Check, list: seq<Item>, from: nat, size: nat)
    ensures AllowedPage(check, list, from, size, Slice(Filter(Passes(check), list), from, from + size))
  {
    var page := Slice(Filter(Passes(check), list), from, from + size);
    PageShows(Passes(check), list, from, size);
    forall x ensures x in page ==> x in list && check(x).Allowed?
             ensures from == 0 && |page| < size && x in list && check(x).Allowed? ==> x in page {
      ShownIs(Passes(check), list, from, size, page, x);
    }
  }

  /** The page of a run over the lists: of the list the handler stops at. */
  ghost predicate VerdictPageOf(
    access: map<string, bool>, lists: seq<seq<Item>>, from: nat, size: nat, page: seq<Item>)
  {
    if lists == [] then page == []
    else exists r: nat ::
           r < |lists| && StopsAt(By(access), lists, from + size, r) && VerdictPage(access, lists[r], from, size, page)
  }

  ghost predicate AllowedPageOf(check: Check, lists: seq<seq<Item>>, from: nat, size: nat, page: seq<Item>) {
    if lists == [] then page == []
    else exists r: nat ::
           && r < |lists| && StopsAt(Passes(check), lists, from + size, r)
           && AllowedPage(check, lists[r], from, size, page)
  }

  lemma PageOfList(keep: Item -> bool, lists: seq<seq<Item>>, from: nat, size: nat, list: seq<Item>)
    requires Consumed(keep, lists, from + size) == list
    ensures Page(keep, lists, from, size) == Slice(Filter(keep, list), from, from + size)
  {
  }

  lemma PageOfConsumed(keep: Item -> bool, lists: seq<seq<Item>>, from: nat, size: nat) returns (r: nat)
    requires lists != []
    ensures r < |lists| && StopsAt(keep, lists, from + size, r)
    ensures Page(keep, lists, from, size) == Slice(Filter(keep, lists[r]), from, from + size)
  {
    r := ConsumedStops(keep, lists, from + size);
    PageOfList(keep, lists, from, size, lists[r]);
  }

  lemma PageIsVerdictPage(access: map<string, bool>, lists: seq<seq<Item>>, from: nat, size: nat)
    ensures VerdictPageOf(access, lists, from, size, Page(By(access), lists, from, size))
  {
    if lists != [] {
      var r := PageOfConsumed(By(access), lists, from, size);
      FilterIsVerdictPage(access, lists[r], from, size);
    }
  }

  lemma PageIsAllowedPage(check: Check, lists: seq<seq<Item>>, from: nat, size: nat)
    ensures AllowedPageOf(check, lists, from, size, Page(Passes(check), lists, from, size))
  {
    if lists != [] {
      var r := PageOfConsumed(Passes(check), lists, from, size);
      FilterIsAllowedPage(check, lists[r], from, size);
    }
  }

  // ---------------------------------------------------------------- lemmas

  lemma {:induction false} FilterSplits(keep: Item -> bool, a: seq<Item>, b: seq<Item>)
    ensures Filter(keep, a + b) == Filter(keep, a) + Filter(keep, b)
  {
    if b == [] {
      assert a + b == a;
    } else {
      assert (a + b)[..|a + b| - 1] == a + b[..|b| - 1];
      FilterSplits(keep, a, b[..|b| - 1]);
    }
  }

  lemma {:induction false} FilterAgrees(keep: Item -> bool, other: Item -> bool, items: seq<Item>)
    requires forall i :: 0 <= i < |items| ==> keep(items[i]) == other(items[i])
    ensures Filter(keep, items) == Filter(other, items)
  {
    if items != [] {
      FilterAgrees(keep, other, items[..|items| - 1]);
    }
  }

  // Stopping once the page is filled does not change the page.
  lemma {:induction false} PrefixDecides(keep: Item -> bool, list: seq<Item>, i: nat, from: nat, requested: nat)
    requires i <= |list|
    requires i == |list| || |Filter(keep, list[..i])| >= requested
    ensures |Filter(keep, list)| >= requested <==> |Filter(keep, list[..i])| >= requested
    ensures Slice(Filter(keep, list), from, requested) == Slice(Filter(keep, list[..i]), from, requested)
  {
    assert list == list[..i] + list[i..];
    FilterSplits(keep, list[..i], list[i..]);
    if i == |list| {
      assert list[..i] == list;
    }
  }

  // The lists before r leave the page unfilled, list r is where the handler stops.
  lemma {:induction false} ConsumedIs(keep: Item -> bool, lists: seq<seq<Item>>, r: nat, requested: nat)
    requires r < |lists|
    requires forall q :: 0 <= q < r ==> |Filter(keep, lists[q])| < requested
    requires r == |lists| - 1 || |Filter(keep, lists[r])| >= requested
    ensures Consumed(keep, lists, requested) == lists[r]
  {
    if r > 0 {
      assert forall q :: 0 <= q < r - 1 ==> lists[1..][q] == lists[q + 1];
      ConsumedIs(keep, lists[1..], r - 1, requested);
    }
  }

  // ---------------------------------------------------------------- the handler

  // `access` holds the verdicts of `calls`, one call a name.
  ghost predicate Remembers(check: Check, access: map<string, bool>, calls: seq<Item>) {
    && (forall i, j :: 0 <= i < j < |calls| ==> calls[i].name != calls[j].name)
    && (forall i :: 0 <= i < |calls| ==>
          calls[i].name in access && access[calls[i].name] == check(calls[i]).Allowed?)
    && (forall name :: name in access ==> exists i :: 0 <= i < |calls| && calls[i].name == name)
  }

  predicate Extends(access: map<string, bool>, later: map<string, bool>) {
    forall name :: name in access ==> name in later && later[name] == access[name]
  }

  predicate Known(access: map<string, bool>, items: seq<Item>) {
    forall i :: 0 <= i < |items| ==> items[i].name in access
  }

  lemma {:induction false} KnownFiltersStay(access: map<string, bool>, later: map<string, bool>, items: seq<Item>)
    requires Extends(access, later) && Known(access, items)
    ensures Known(later, items) && Filter(By(later), items) == Filter(By(access), items)
  {
    FilterAgrees(By(later), By(access), items);
  }

  // When access depends on the name alone, remembered verdicts are the items' own.
  lemma {:induction false} MemoIsCheck(check: Check, access: map<string, bool>, calls: seq<Item>, items: seq<Item>)
    requires Remembers(check, access, calls) && Known(access, items) && NameOnly(check)
    ensures Filter(By(access), items) == Filter(Passes(check), items)
  {
    var byName :| IsByName(check, byName);
    forall i | 0 <= i < |items| ensures By(access)(items[i]) == Passes(check)(items[i]) {
      var j :| 0 <= j < |calls| && calls[j].name == items[i].name;
      assert check(calls[j]) == check(items[i]);
    }
    FilterAgrees(By(access), Passes(check), items);
  }

  // No call so far failed.
  ghost predicate Clean(check: Check, calls: seq<Item>) {
    forall i :: 0 <= i < |calls| ==> !check(calls[i]).Error?
  }

  lemma {:induction false} RemembersOneMore(check: Check, access: map<string, bool>, calls: seq<Item>, item: Item)
    requires Remembers(check, access, calls) && item.name !in access
    ensures Remembers(check, access[item.name := check(item).Allowed?], calls + [item])
    ensures Clean(check, calls + [item]) <==> Clean(check, calls) && !check(item).Error?
  {
    var access', calls' := access[item.name := check(item).Allowed?], calls + [item];
    assert calls'[|calls|] == item;
    assert forall i :: 0 <= i < |calls| ==> calls'[i] == calls[i];
    forall name | name in access' ensures exists i :: 0 <= i < |calls'| && calls'[i].name == name {
      if name != item.name {
        var i :| 0 <= i < |calls| && calls[i].name == name;
        assert calls'[i].name == name;
      }
    }
  }

  // The names of a batch that are not yet known are checked.
  method CheckNames(check: Check, batch: seq<Item>, access: map<string, bool>, calls: seq<Item>)
    returns (ok: bool, access': map<string, bool>, calls': seq<Item>)
    requires Remembers(check, access, calls) && Clean(check, calls)
    ensures Remembers(check, access', calls') && Extends(access, access') && Known(access', batch)
    ensures ok <==> Clean(check, calls')
  {
    access', calls', ok := access, calls, true;
    for i := 0 to |batch|
      invariant Remembers(check, access', calls') && Extends(access, access')
      invariant forall j :: 0 <= j < i ==> batch[j].name in access'
      invariant ok <==> Clean(check, calls')
    {
      var item := batch[i];
      if item.name !in access' {
        var verdict := check(item);
        RemembersOneMore(check, access', calls', item);
        ok := ok && !verdict.Error?;
        calls' := calls' + [item];
        access' := access'[item.name := verdict.Allowed?];
      }
    }
  }

  /** One batch: names not yet known are checked, then the allowed items are kept. */
  method CheckBatch(check: Check, batch: seq<Item>, access: map<string, bool>, calls: seq<Item>)
    returns (ok: bool, access': map<string, bool>, calls': seq<Item>, kept: seq<Item>)
    requires Remembers(check, access, calls) && Clean(check, calls)
    ensures Remembers(check, access', calls') && Extends(access, access') && Known(access', batch)
    ensures ok <==> Clean(check, calls')
    ensures ok ==> kept == Filter(By(access'), batch)
    ensures ok ==> forall x :: x in kept <==> x in batch && access'[x.name]
  {
    kept := [];
    ok, access', calls' := CheckNames(check, batch, access, calls);
    if !ok {
      return;
    }
    for i := 0 to |batch|
      invariant kept == Filter(By(access'), batch[..i])
    {
      assert batch[..i + 1][..i] == batch[..i];
      if access'[batch[i].name] {
        kept := kept + [batch[i]];
      }
    }
    assert batch[..|batch|] == batch;
    forall x ensures x in kept <==> x in batch && access'[x.name] {
      FilterKeeps(By(access'), batch, x);
    }
  }

  // The first `examined` items of the list are known, and `allowed` are those that pass.
  ghost predicate Scanned(access: map<string, bool>, list: seq<Item>, examined: nat, allowed: seq<Item>) {
    && examined <= |list|
    && Known(access, list[..examined])
    && allowed == Filter(By(access), list[..examined])
  }

  lemma {:induction false} ScannedFurther(
    access: map<string, bool>, later: map<string, bool>, list: seq<Item>, i: nat, end: nat,
    allowed: seq<Item>, kept: seq<Item>)
    requires Scanned(access, list, i, allowed) && Extends(access, later) && i <= end <= |list|
    requires Known(later, list[i..end]) && kept == Filter(By(later), list[i..end])
    ensures Scanned(later, list, end, allowed + kept)
  {
    KnownFiltersStay(access, later, list[..i]);
    assert list[..end] == list[..i] + list[i..end];
    FilterSplits(By(later), list[..i], list[i..end]);
  }

  /** One list: batch after batch until it ends or the page is filled. */
  method ScanList(check: Check, list: seq<Item>, requested: nat, access: map<string, bool>, calls: seq<Item>)
    returns (ok: bool, access': map<string, bool>, calls': seq<Item>, allowed: seq<Item>, ghost examined: nat)
    requires Remembers(check, access, calls) && Clean(check, calls)
    ensures Remembers(check, access', calls') && Extends(access, access')
    ensures ok <==> Clean(check, calls')
    ensures ok ==> Scanned(access', list, examined, allowed) && (examined == |list| || |allowed| >= requested)
    ensures ok ==> forall x :: x in allowed <==> x in list[..examined] && x.name in access' && access'[x.name]
  {
    access', calls', ok, allowed, examined := access, calls, true, [], 0;
    var i := 0;
    while i < |list| && |allowed| < requested
      invariant Remembers(check, access', calls') && Extends(access, access')
      invariant ok && Clean(check, calls')
      invariant examined == (if i < |list| then i else |list|)
      invariant Scanned(access', list, examined, allowed)
      decreases |list| - i
    {
      var end := if i + CHECK_ACCESS_BATCH_SIZE < |list| then i + CHECK_ACCESS_BATCH_SIZE else |list|;
      var done, a, c, kept := CheckBatch(check, list[i..end], access', calls');
      if !done {
        return false, a, c, allowed, examined;
      }
      ScannedFurther(access', a, list, i, end, allowed, kept);
      access', calls', allowed := a, c, allowed + kept;
      i := i + CHECK_ACCESS_BATCH_SIZE;
      examined := end;
    }
    forall x ensures x in allowed <==> x in list[..examined] && x.name in access' && access'[x.name] {
      FilterKeeps(By(access'), list[..examined], x);
    }
  }

  // The lists before n were known entirely and did not fill the page.
  ghost predicate Passed(access: map<string, bool>, lists: seq<seq<Item>>, n: nat, requested: nat)
    requires n <= |lists|
  {
    forall q :: 0 <= q < n ==> Known(access, lists[q]) && |Filter(By(access), lists[q])| < requested
  }

  lemma {:induction false} PassedStays(access: map<string, bool>, later: map<string, bool>, lists: seq<seq<Item>>,
      n: nat, requested: nat)
    requires n <= |lists| && Extends(access, later) && Passed(access, lists, n, requested)
    ensures Passed(later, lists, n, requested)
  {
    forall q | 0 <= q < n ensures Known(later, lists[q]) && |Filter(By(later), lists[q])| < requested {
      KnownFiltersStay(access, later, lists[q]);
    }
  }

  // Stopping in list r, after `examined` of its items, cuts the page out of the right list.
  lemma {:induction false} StopsAtPage(keep: Item -> bool, lists: seq<seq<Item>>, r: nat, examined: nat, from: nat,
      size: nat)
    requires r < |lists| && examined <= |lists[r]|
    requires forall q :: 0 <= q < r ==> |Filter(keep, lists[q])| < from + size
    requires |Filter(keep, lists[r][..examined])| >= from + size || (examined == |lists[r]| && r == |lists| - 1)
    ensures Slice(Filter(keep, lists[r][..examined]), from, from + size) == Page(keep, lists, from, size)
  {
    PrefixDecides(keep, lists[r], examined, from, from + size);
    ConsumedIs(keep, lists, r, from + size);
  }

  lemma {:induction false} StopsAtPageByCheck(
    check: Check, access: map<string, bool>, calls: seq<Item>, lists: seq<seq<Item>>, r: nat, examined: nat,
    from: nat, size: nat)
    requires Remembers(check, access, calls) && r < |lists| && Passed(access, lists, r, from + size)
    requires examined <= |lists[r]| && Known(access, lists[r][..examined])
    requires |Filter(By(access), lists[r][..examined])| >= from + size || (examined == |lists[r]| && r == |lists| - 1)
    requires NameOnly(check)
    ensures Slice(Filter(By(access), lists[r][..examined]), from, from + size) == Page(Passes(check), lists, from, size)
  {
    forall q | 0 <= q < r ensures |Filter(Passes(check), lists[q])| < from + size {
      MemoIsCheck(check, access, calls, lists[q]);
    }
    MemoIsCheck(check, access, calls, lists[r][..examined]);
    StopsAtPage(Passes(check), lists, r, examined, from, size);
  }

  // What collect promises of the page it returns.
  ghost predicate IsPage(check: Check, access: map<string, bool>, lists: seq<seq<Item>>, from: nat, size: nat,
      page: seq<Item>)
  {
    && |page| <= size
    && page == Page(By(access), lists, from, size)
    && (NameOnly(check) ==> page == Page(Passes(check), lists, from, size))
    && (size > 0 ==> VerdictPageOf(access, lists, from, size, page))
    && (size > 0 && NameOnly(check) ==> AllowedPageOf(check, lists, from, size, page))
  }

  lemma {:induction false} StoppedOnPage(
    check: Check, access: map<string, bool>, calls: seq<Item>, lists: seq<seq<Item>>, r: nat, examined: nat,
    allowed: seq<Item>, from: nat, size: nat)
    requires Remembers(check, access, calls) && r < |lists| && Passed(access, lists, r, from + size)
    requires Scanned(access, lists[r], examined, allowed)
    requires |allowed| >= from + size || (examined == |lists[r]| && r == |lists| - 1)
    ensures IsPage(check, access, lists, from, size, Slice(allowed, from, from + size))
  {
    StopsAtPage(By(access), lists, r, examined, from, size);
    PageIsVerdictPage(access, lists, from, size);
    if NameOnly(check) {
      StopsAtPageByCheck(check, access, calls, lists, r, examined, from, size);
      PageIsAllowedPage(check, lists, from, size);
    }
  }

  lemma NothingIsPage(check: Check, access: map<string, bool>, lists: seq<seq<Item>>, from: nat)
    ensures IsPage(check, access, lists, from, 0, [])
  {
  }

  lemma {:induction false} PassedOneMore(
    access: map<string, bool>, lists: seq<seq<Item>>, r: nat, allowed: seq<Item>, requested: nat)
    requires r < |lists| && Passed(access, lists, r, requested)
    requires Scanned(access, lists[r], |lists[r]|, allowed) && |allowed| < requested
    ensures Passed(access, lists, r + 1, requested)
  {
    assert lists[r][..|lists[r]|] == lists[r];
  }

  // Between two lists: what `allowed` is, and that the page is not filled.
  ghost predicate Between(access: map<string, bool>, lists: seq<seq<Item>>, r: nat, allowed: seq<Item>, requested: nat)
    requires r <= |lists|
  {
    && Passed(access, lists, r, requested)
    && if r == 0 then allowed == [] else Scanned(access, lists[r - 1], |lists[r - 1]|, allowed)
  }

  // The handler ended in list r after `examined` items, or there was no list at all.
  ghost predicate Stopped(
    access: map<string, bool>, lists: seq<seq<Item>>, r: nat, examined: nat, allowed: seq<Item>, requested: nat)
  {
    if lists == [] then allowed == []
    else
      && r < |lists| && Passed(access, lists, r, requested)
      && Scanned(access, lists[r], examined, allowed)
      && (|allowed| >= requested || (examined == |lists[r]| && r == |lists| - 1))
  }

  lemma {:induction false} NextList(
    before: map<string, bool>, access: map<string, bool>, lists: seq<seq<Item>>, r: nat,
    examined: nat, allowed: seq<Item>, requested: nat)
    requires Extends(before, access)
    requires r < |lists| && Passed(before, lists, r, requested)
    requires Scanned(access, lists[r], examined, allowed) && (examined == |lists[r]| || |allowed| >= requested)
    ensures if |allowed| >= requested then Stopped(access, lists, r, examined, allowed, requested)
            else Between(access, lists, r + 1, allowed, requested)
  {
    PassedStays(before, access, lists, r, requested);
    if |allowed| < requested {
      PassedOneMore(access, lists, r, allowed, requested);
    }
  }

  // The handler goes on with list `next`.
  ghost predicate GoesOn(
    check: Check, lists: seq<seq<Item>>, next: nat, requested: nat, access: map<string, bool>, calls: seq<Item>,
    allowed: seq<Item>)
    requires next <= |lists|
  {
    Remembers(check, access, calls) && Clean(check, calls) && Between(access, lists, next, allowed, requested)
  }

  // The handler ended, in an error or on the list its page is cut from.
  ghost predicate Ended(
    check: Check, lists: seq<seq<Item>>, requested: nat, ok: bool, access: map<string, bool>, calls: seq<Item>,
    allowed: seq<Item>, r: nat, examined: nat)
  {
    && Remembers(check, access, calls)
    && (ok <==> Clean(check, calls))
    && (ok ==> Stopped(access, lists, r, examined, allowed, requested))
  }

  // One turn of the loop over the lists.
  method ScanNext(check: Check, lists: seq<seq<Item>>, next: nat, requested: nat, access: map<string, bool>,
      calls: seq<Item>, ghost before: seq<Item>)
    returns (ok: bool, access': map<string, bool>, calls': seq<Item>, allowed: seq<Item>, ghost examined: nat)
    requires next < |lists| && GoesOn(check, lists, next, requested, access, calls, before)
    ensures if ok && |allowed| < requested then GoesOn(check, lists, next + 1, requested, access', calls', allowed)
            else Ended(check, lists, requested, ok, access', calls', allowed, next, examined)
  {
    ok, access', calls', allowed, examined := ScanList(check, lists[next], requested, access, calls);
    if ok {
      NextList(access, access', lists, next, examined, allowed, requested);
    }
  }

  /** The loop over the lists: what is allowed of the list it ends on, which the page is cut from. */
  method ScanLists(check: Check, lists: seq<seq<Item>>, requested: nat)
    returns (ok: bool, access: map<string, bool>, calls: seq<Item>, allowed: seq<Item>,
      ghost r: nat, ghost examined: nat)
    ensures Ended(check, lists, requested, ok, access, calls, allowed, r, examined)
  {
    access, calls, allowed, ok, r, examined := map[], [], [], true, 0, 0;
    var next := 0;
    while next < |lists|
      invariant next <= |lists| && ok
      invariant GoesOn(check, lists, next, requested, access, calls, allowed)
    {
      r := next;
      ok, access, calls, allowed, examined := ScanNext(check, lists, next, requested, access, calls, allowed);
      if !ok || |allowed| >= requested {
        return;
      }
      next := next + 1;
    }
    r, examined := LastList(lists), if lists == [] then 0 else |lists[LastList(lists)]|;
    EndedBetween(access, lists, r, examined, allowed, requested);
  }

  function LastList(lists: seq<seq<Item>>): (r: nat)
    ensures lists != [] ==> r == |lists| - 1
  {
    if lists == [] then 0 else |lists| - 1
  }

  lemma EndedBetween(
    access: map<string, bool>, lists: seq<seq<Item>>, r: nat, examined: nat, allowed: seq<Item>, requested: nat)
    requires Between(access, lists, |lists|, allowed, requested)
    requires lists != [] ==> r == |lists| - 1 && examined == |lists[r]|
    ensures Stopped(access, lists, r, examined, allowed, requested)
  {
    if lists != [] {
      assert Passed(access, lists, r, requested);
    }
  }

  lemma {:induction false} StoppedMeansPage(
    check: Check, access: map<string, bool>, calls: seq<Item>, lists: seq<seq<Item>>, r: nat, examined: nat,
    allowed: seq<Item>, from: nat, size: nat)
    requires Remembers(check, access, calls) && Stopped(access, lists, r, examined, allowed, from + size)
    ensures IsPage(check, access, lists, from, size, Slice(allowed, from, from + size))
  {
    if lists != [] {
      StoppedOnPage(check, access, calls, lists, r, examined, allowed, from, size);
    }
  }

  /**
   * collect: the page, the verdicts in the `access` map and the items checkAccess was
   * called for, in order. Nothing is thrown exactly when no call failed; then the page is
   * what filtering all of the last consumed list by the verdicts and slicing gives, and by
   * the items' own access when that depends on the name alone. No name is checked twice.
   */
  method Collect(check: Check, lists: seq<seq<Item>>, from: nat, size: nat)
    returns (page: Option<seq<Item>>, access: map<string, bool>, calls: seq<Item>)
    ensures Remembers(check, access, calls)
    ensures page.Some? <==> Clean(check, calls)
    ensures page.Some? ==> IsPage(check, access, lists, from, size, page.value)
  {
    if size == 0 {
      access, calls := map[], [];
      NothingIsPage(check, access, lists, from);
      return Some([]), access, calls;
    }
    var ok, verdicts, called, allowed, r, examined := ScanLists(check, lists, from + size);
    access, calls, page := verdicts, called, None;
    if ok {
      StoppedMeansPage(check, access, calls, lists, r, examined, allowed, from, size);
      page := Some(Slice(allowed, from, from + size));
    }
  }
}
