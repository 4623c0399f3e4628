/**
 * The paginated search over uplinks (search-pages.ts): one page per uplink per round, two
 * budgets, and the rules that tell the end of a source from a failure.
 *
 * `respond(uplink, offset, request)` is what the uplink answers the request-th request of
 * the search when asked from `offset`: any behaviour at all, except where a property says
 * otherwise. Each item of a round carries the number of the uplink it came from.
 */
module SearchPages {
  import opened Common
  import opened SearchItems

  const SEARCH_PAGE_SIZE := 250
  const SEARCH_MAX_REQUESTS := 100
  const SEARCH_MAX_CANDIDATES := 25_000

  /** An element of a chunk: an item, or something without a string name and version. */
  datatype Entry = Valid(item: Item) | Malformed

  datatype Chunk = Entries(entries: seq<Entry>) | NotArray

  /** `breaks` is a stream that errors after its chunks. */
  datatype Response = Unavailable | Stream(chunks: seq<Chunk>, total: Option<int>, breaks: bool)

  datatype Error =
    | BudgetExhausted
    | SourceLost
    | StreamBroke
    | InvalidPage
    | InvalidPackage
    | DidNotAdvance

  datatype Outcome = Finished | Failed(error: Error)

  datatype Hit = Hit(uplink: nat, item: Item)

  type Respond = (nat, nat, nat) -> Response

  type Key = (string, string)

  // ---------------------------------------------------------------- one page

  function EntriesOf(c: Chunk): seq<Entry> {
    if c.Entries? then c.entries else []
  }

  function Concat(chunks: seq<Chunk>): seq<Entry> {
    if chunks == [] then [] else Concat(chunks[..|chunks| - 1]) + EntriesOf(chunks[|chunks| - 1])
  }

  predicate WellFormedPage(response: Response) {
    && response.Stream? && !response.breaks
    && (forall c :: c in response.chunks ==> c.Entries?)
    && |Concat(response.chunks)| <= SEARCH_PAGE_SIZE
  }

  lemma {:induction false} ConcatGrows(chunks: seq<Chunk>, n: nat)
    requires n <= |chunks|
    ensures |Concat(chunks[..n])| <= |Concat(chunks)|
  {
    if n < |chunks| {
      assert chunks[..|chunks| - 1][..n] == chunks[..n];
      ConcatGrows(chunks[..|chunks| - 1], n);
    } else {
      assert chunks[..n] == chunks;
    }
  }

  /** How many elements the chunks have. */
  function Total(chunks: seq<Chunk>): nat {
    if chunks == [] then 0
    else Total(chunks[..|chunks| - 1]) + match chunks[|chunks| - 1] { case Entries(es) => |es| case NotArray => 0 }
  }

  /** The elements of a page are those of its chunks, one chunk after the other. */
  lemma {:induction false} ConcatIs(chunks: seq<Chunk>, k: nat, i: nat)
    ensures |Concat(chunks)| == Total(chunks)
    ensures k < |chunks| && chunks[k].Entries? && i < |chunks[k].entries| ==>
              && Total(chunks[..k]) + i < |Concat(chunks)|
              && Concat(chunks)[Total(chunks[..k]) + i] == chunks[k].entries[i]
  {
    if chunks != [] {
      var init := chunks[..|chunks| - 1];
      ConcatIs(init, k, i);
      if k < |init| {
        assert init[..k] == chunks[..k];
      } else if k < |chunks| {
        assert init == chunks[..k];
      }
    }
  }

  /** Drains a stream: a page within the size limit, or the error the loop throws. */
  method ReadPage(response: Response) returns (page: Result<seq<Entry>, Error>)
    requires response.Stream?
    ensures page.Success? <==> WellFormedPage(response)
    ensures page.Success? <==>
            && !response.breaks && Total(response.chunks) <= SEARCH_PAGE_SIZE
            && forall c :: c in response.chunks ==> !c.NotArray?
    ensures page.Success? ==> page.value == Concat(response.chunks)
    ensures page.Failure? ==> page.error in {InvalidPage, StreamBroke}
  {
    var entries: seq<Entry> := [];
    ConcatIs(response.chunks, 0, 0);
    for i := 0 to |response.chunks|
      invariant entries == Concat(response.chunks[..i]) && |entries| <= SEARCH_PAGE_SIZE
      invariant forall c :: c in response.chunks[..i] ==> c.Entries?
    {
      var chunk := response.chunks[i];
      ConcatGrows(response.chunks, i + 1);
      assert response.chunks[..i + 1][..i] == response.chunks[..i];
      if chunk.NotArray? || |entries| + |chunk.entries| > SEARCH_PAGE_SIZE {
        return Failure(InvalidPage);
      }
      entries := entries + chunk.entries;
    }
    assert response.chunks[..|response.chunks|] == response.chunks;
    if response.breaks {
      return Failure(StreamBroke);
    }
    return Success(entries);
  }

  /** An item as the pager yields it. */
  function FromUplink(item: Item): Item {
    item.(cached := false, isPrivate := false)
  }

  function KeyOf(item: Item): Key {
    (item.name, item.version)
  }

  predicate AllValid(page: seq<Entry>) {
    forall i :: 0 <= i < |page| ==> page[i].Valid?
  }

  function HitsOf(uplink: nat, page: seq<Entry>): (hits: seq<Hit>)
    requires AllValid(page)
    ensures |hits| == |page|
  {
    seq(|page|, i requires 0 <= i < |page| => Hit(uplink, FromUplink(page[i].item)))
  }

  function KeysOf(page: seq<Entry>): set<Key>
    requires AllValid(page)
  {
    set i | 0 <= i < |page| :: KeyOf(page[i].item)
  }

  /** Takes the items of a page into the round; whether any of them was new to the source. */
  method TakePage(uplink: nat, page: seq<Entry>, seen: set<Key>)
    returns (hits: Result<seq<Hit>, Error>, seen': set<Key>, progress: bool)
    ensures hits.Success? <==> AllValid(page)
    ensures hits.Success? ==>
              && hits.value == HitsOf(uplink, page)
              && seen' == seen + KeysOf(page)
              && (progress <==> !(KeysOf(page) <= seen))
    ensures hits.Failure? ==> hits.error == InvalidPackage
  {
    var round: seq<Hit> := [];
    progress := false;
    seen' := seen;
    for i := 0 to |page|
      invariant AllValid(page[..i])
      invariant round == HitsOf(uplink, page[..i])
      invariant seen' == seen + KeysOf(page[..i])
      invariant progress <==> !(KeysOf(page[..i]) <= seen)
    {
      if page[i].Malformed? {
        return Failure(InvalidPackage), seen', progress;
      }
      var key := KeyOf(page[i].item);
      assert KeysOf(page[..i + 1]) == KeysOf(page[..i]) + {key};
      if key !in seen' {
        progress := true;
      }
      seen' := seen' + {key};
      round := round + [Hit(uplink, FromUplink(page[i].item))];
    }
    assert page[..|page|] == page;
    hits := Success(round);
  }

  // ---------------------------------------------------------------- honest sources

  /** What one uplink contributed to a list of hits, in order. */
  function From(hits: seq<Hit>, uplink: nat): seq<Item> {
    if hits == [] then []
    else (if hits[0].uplink == uplink then [hits[0].item] else []) + From(hits[1..], uplink)
  }

  function Flatten(rounds: seq<seq<Hit>>): seq<Hit> {
    if rounds == [] then [] else rounds[0] + Flatten(rounds[1..])
  }

  function FromUplinks(items: seq<Item>): (r: seq<Item>)
    ensures |r| == |items|
  {
    seq(|items|, i requires 0 <= i < |items| => FromUplink(items[i]))
  }

  predicate DistinctKeys(items: seq<Item>) {
    forall i, j :: 0 <= i < j < |items| ==> KeyOf(items[i]) != KeyOf(items[j])
  }

  // The page is a piece of `list` from `offset`, non-empty unless the list ends there.
  predicate PageOf(page: seq<Entry>, list: seq<Item>, offset: nat) {
    && offset + |page| <= |list|
    && (offset < |list| ==> |page| > 0)
    && forall i :: 0 <= i < |page| ==> page[i] == Valid(list[offset + i])
  }

  // One request of an uplink that serves `list`: a page, or unavailable.
  predicate Serves(response: Response, list: seq<Item>, offset: nat) {
    response.Stream? ==>
      && WellFormedPage(response)
      && (offset <= |list| ==> PageOf(Concat(response.chunks), list, offset))
      && (response.total.None? || response.total.value == |list|)
  }

  /**
   * The uplink serves a fixed list without duplicates, in pages of any positive size up to
   * 250, cut into chunks in any way, reporting its true total or none; a request may find
   * it unavailable.
   */
  ghost predicate Honest(respond: Respond, uplink: nat, list: seq<Item>) {
    && DistinctKeys(list)
    && forall offset: nat, request: nat :: Serves(respond(uplink, offset, request), list, offset)
  }

  ghost predicate UnavailableAtStart(respond: Respond, uplink: nat) {
    exists request: nat :: respond(uplink, 0, request).Unavailable?
  }

  // The hits of an uplink so far are the first `offset` items of its list.
  predicate Contributed(hits: seq<Hit>, uplink: nat, list: seq<Item>, offset: nat) {
    offset <= |list| && From(hits, uplink) == FromUplinks(list[..offset])
  }

  lemma {:induction false} FromAppend(a: seq<Hit>, b: seq<Hit>, uplink: nat)
    ensures From(a + b, uplink) == From(a, uplink) + From(b, uplink)
  {
    if a == [] {
      assert a + b == b;
    } else {
      var whole, first := a + b, if a[0].uplink == uplink then [a[0].item] else [];
      assert whole[0] == a[0] && whole[1..] == a[1..] + b;
      FromAppend(a[1..], b, uplink);
      assert first + (From(a[1..], uplink) + From(b, uplink)) == (first + From(a[1..], uplink)) + From(b, uplink);
    }
  }

  lemma {:induction false} FlattenLast(rounds: seq<seq<Hit>>, round: seq<Hit>)
    ensures Flatten(rounds + [round]) == Flatten(rounds) + round
  {
    if rounds == [] {
      assert [round][1..] == [];
    } else {
      assert (rounds + [round])[1..] == rounds[1..] + [round];
      FlattenLast(rounds[1..], round);
    }
  }

  lemma {:induction false} FromHitsOf(uplink: nat, page: seq<Entry>, u: nat)
    requires AllValid(page)
    ensures From(HitsOf(uplink, page), u)
            == (if u == uplink then seq(|page|, i requires 0 <= i < |page| => FromUplink(page[i].item)) else [])
  {
    if page != [] {
      assert HitsOf(uplink, page)[1..] == HitsOf(uplink, page[1..]);
      FromHitsOf(uplink, page[1..], u);
      if u == uplink {
        assert From(HitsOf(uplink, page), u) == [FromUplink(page[0].item)] + From(HitsOf(uplink, page[1..]), u);
      }
    }
  }

  // Taking a page of an honest source extends its contribution and leaves the others.
  lemma {:induction false} PageContributes(hits: seq<Hit>, uplink: nat, page: seq<Entry>, list: seq<Item>, offset: nat)
    requires AllValid(page) && PageOf(page, list, offset) && Contributed(hits, uplink, list, offset)
    ensures Contributed(hits + HitsOf(uplink, page), uplink, list, offset + |page|)
  {
    FromAppend(hits, HitsOf(uplink, page), uplink);
    FromHitsOf(uplink, page, uplink);
    assert FromUplinks(list[..offset + |page|])
        == FromUplinks(list[..offset]) + seq(|page|, i requires 0 <= i < |page| => FromUplink(page[i].item));
  }

  lemma {:induction false} OthersContribute(hits: seq<Hit>, uplink: nat, page: seq<Entry>, u: nat)
    requires AllValid(page) && u != uplink
    ensures From(hits + HitsOf(uplink, page), u) == From(hits, u)
  {
    FromAppend(hits, HitsOf(uplink, page), u);
    FromHitsOf(uplink, page, u);
  }

  // ---------------------------------------------------------------- the pager

  /** What the search remembers of one uplink. */
  datatype Source = Source(offset: nat, done: bool, seen: set<Key>)

  // What one request does when nothing is thrown.
  ghost predicate Asked(response: Response, uplink: nat, before: Source, after: Source, hits: seq<Hit>) {
    match response
    case Unavailable => before.offset == 0 && after == before.(done := true) && hits == []
    case Stream(chunks, total, _) =>
      var page := Concat(chunks);
      && WellFormedPage(response) && AllValid(page)
      && (page != [] ==> !(KeysOf(page) <= before.seen))
      && hits == HitsOf(uplink, page)
      && after.offset == before.offset + |page|
      && after.done == (page == [] || (total.Some? && after.offset >= total.value))
      && after.seen == before.seen + KeysOf(page)
  }

  // Why one request makes the search throw.
  ghost predicate Throws(response: Response, before: Source, candidates: nat, error: Error) {
    match error
    case SourceLost => response.Unavailable? && before.offset > 0
    case InvalidPage => response.Stream? && !WellFormedPage(response)
    case StreamBroke => response.Stream? && !WellFormedPage(response)
    case BudgetExhausted => response.Stream? && candidates + |Concat(response.chunks)| > SEARCH_MAX_CANDIDATES
    case InvalidPackage => response.Stream? && !AllValid(Concat(response.chunks))
    case DidNotAdvance =>
      && response.Stream? && AllValid(Concat(response.chunks)) && Concat(response.chunks) != []
      && KeysOf(Concat(response.chunks)) <= before.seen
  }

  method Ask(respond: Respond, uplink: nat, before: Source, request: nat, candidates: nat)
    returns (after: Source, hits: seq<Hit>, error: Option<Error>)
    ensures error.None? ==>
              && Asked(respond(uplink, before.offset, request), uplink, before, after, hits)
              && (candidates <= SEARCH_MAX_CANDIDATES ==> candidates + |hits| <= SEARCH_MAX_CANDIDATES)
    ensures error.Some? ==> Throws(respond(uplink, before.offset, request), before, candidates, error.value)
  {
    after, hits, error := before, [], None;
    var response := respond(uplink, before.offset, request);
    if response.Unavailable? {
      if before.offset > 0 {
        error := Some(SourceLost);
      } else {
        after := before.(done := true);
      }
      return;
    }
    var page := ReadPage(response);
    if page.Failure? {
      error := Some(page.error);
      return;
    }
    if candidates + |page.value| > SEARCH_MAX_CANDIDATES {
      error := Some(BudgetExhausted);
      return;
    }
    var taken, seen, progress := TakePage(uplink, page.value, before.seen);
    if taken.Failure? {
      error := Some(taken.error);
      return;
    }
    if |page.value| > 0 && !progress {
      error := Some(DidNotAdvance);
      return;
    }
    hits := taken.value;
    var offset := before.offset + |page.value|;
    after := Source(offset, |page.value| == 0 || (response.total.Some? && offset >= response.total.value), seen);
  }

  // ---------------------------------------------------------------- honest sources, one request

  // What holds of an honest source between requests.
  ghost predicate SourceOk(respond: Respond, hits: seq<Hit>, uplink: nat, list: seq<Item>, s: Source) {
    && Contributed(hits, uplink, list, s.offset)
    && (forall key :: key in s.seen ==> exists i :: 0 <= i < s.offset && KeyOf(list[i]) == key)
    && (s.done ==> s.offset == |list| || (s.offset == 0 && UnavailableAtStart(respond, uplink)))
  }

  lemma {:induction false} HonestPageIsNew(page: seq<Entry>, list: seq<Item>, offset: nat, seen: set<Key>)
    requires DistinctKeys(list) && PageOf(page, list, offset) && page != []
    requires forall key :: key in seen ==> exists i :: 0 <= i < offset && KeyOf(list[i]) == key
    ensures AllValid(page) && !(KeysOf(page) <= seen)
  {
    assert page[0] == Valid(list[offset]);
    assert KeyOf(page[0].item) in KeysOf(page);
  }

  lemma {:induction false} HonestAsk(
    respond: Respond, hits: seq<Hit>, uplink: nat, list: seq<Item>, before: Source, request: nat,
    after: Source, more: seq<Hit>)
    requires Honest(respond, uplink, list) && SourceOk(respond, hits, uplink, list, before) && !before.done
    requires Asked(respond(uplink, before.offset, request), uplink, before, after, more)
    ensures SourceOk(respond, hits + more, uplink, list, after)
  {
    var response := respond(uplink, before.offset, request);
    assert Serves(response, list, before.offset);
    if response.Unavailable? {
      assert hits + more == hits;
    } else {
      var page := Concat(response.chunks);
      PageContributes(hits, uplink, page, list, before.offset);
      forall key | key in after.seen ensures exists i :: 0 <= i < after.offset && KeyOf(list[i]) == key {
        if key in KeysOf(page) {
          var i :| 0 <= i < |page| && KeyOf(page[i].item) == key;
          assert KeyOf(list[before.offset + i]) == key;
        } else {
          var i :| 0 <= i < before.offset && KeyOf(list[i]) == key;
          assert i < after.offset;
        }
      }
    }
  }

  lemma {:induction false} HonestFailures(
    respond: Respond, hits: seq<Hit>, uplink: nat, list: seq<Item>, before: Source, request: nat,
    candidates: nat, error: Error)
    requires Honest(respond, uplink, list) && SourceOk(respond, hits, uplink, list, before)
    requires Throws(respond(uplink, before.offset, request), before, candidates, error)
    ensures error.BudgetExhausted?
            || (error.SourceLost? && respond(uplink, before.offset, request).Unavailable? && before.offset > 0)
  {
    var response := respond(uplink, before.offset, request);
    assert Serves(response, list, before.offset);
    if error.DidNotAdvance? {
      HonestPageIsNew(Concat(response.chunks), list, before.offset, before.seen);
    }
  }

  lemma {:induction false} OtherAsk(
    respond: Respond, hits: seq<Hit>, uplink: nat, before: Source, response: Response, after: Source, more: seq<Hit>,
    other: nat, list: seq<Item>, s: Source)
    requires SourceOk(respond, hits, other, list, s) && other != uplink
    requires Asked(response, uplink, before, after, more)
    ensures SourceOk(respond, hits + more, other, list, s)
  {
    if response.Unavailable? {
      assert hits + more == hits;
    } else {
      OthersContribute(hits, uplink, Concat(response.chunks), other);
    }
  }

  // ---------------------------------------------------------------- the search

  ghost predicate AllOk(respond: Respond, lists: seq<seq<Item>>, hits: seq<Hit>, states: seq<Source>) {
    && |states| == |lists|
    && forall u: nat :: u < |lists| && Honest(respond, u, lists[u]) ==> SourceOk(respond, hits, u, lists[u], states[u])
  }

  ghost predicate AllHonest(respond: Respond, lists: seq<seq<Item>>) {
    forall u: nat :: u < |lists| ==> Honest(respond, u, lists[u])
  }

  lemma {:induction false} AskKeepsAllOk(
    respond: Respond, lists: seq<seq<Item>>, hits: seq<Hit>, states: seq<Source>, u: nat, request: nat,
    after: Source, more: seq<Hit>)
    requires AllOk(respond, lists, hits, states) && u < |lists| && !states[u].done
    requires Asked(respond(u, states[u].offset, request), u, states[u], after, more)
    ensures AllOk(respond, lists, hits + more, states[u := after])
  {
    forall o: nat | o < |lists| && Honest(respond, o, lists[o])
      ensures SourceOk(respond, hits + more, o, lists[o], states[u := after][o])
    {
      if o == u {
        HonestAsk(respond, hits, u, lists[u], states[u], request, after, more);
      } else {
        OtherAsk(respond, hits, u, states[u], respond(u, states[u].offset, request), after, more,
                 o, lists[o], states[o]);
      }
    }
  }

  // The uplink failed after it had contributed.
  ghost predicate LostLater(respond: Respond, n: nat) {
    exists u: nat, offset: nat, request: nat :: u < n && offset > 0 && respond(u, offset, request).Unavailable?
  }

  // An error that honest sources can cause.
  ghost predicate HonestError(respond: Respond, n: nat, error: Error) {
    error.BudgetExhausted? || (error.SourceLost? && LostLater(respond, n))
  }

  // ---------------------------------------------------------------- small catalogues finish

  // Requests the source can still cost: at worst one item per page, and an empty last page.
  function Left(list: seq<Item>, s: Source): nat {
    if s.done || s.offset > |list| then 0 else |list| - s.offset + 1
  }

  function Work(lists: seq<seq<Item>>, states: seq<Source>, n: nat): nat
    requires n <= |lists| == |states|
  {
    if n == 0 then 0 else Work(lists, states, n - 1) + Left(lists[n - 1], states[n - 1])
  }

  function Items(lists: seq<seq<Item>>): nat {
    if lists == [] then 0 else Items(lists[..|lists| - 1]) + |lists[|lists| - 1]|
  }

  lemma {:induction false} WorkAtStart(lists: seq<seq<Item>>, states: seq<Source>, n: nat)
    requires n <= |lists| == |states| && forall s :: s in states ==> s.offset == 0 && !s.done
    ensures Work(lists, states, n) == Items(lists[..n]) + n
    ensures n == |lists| ==> lists[..n] == lists
  {
    if n > 0 {
      WorkAtStart(lists, states, n - 1);
      assert lists[..n][..n - 1] == lists[..n - 1];
      assert states[n - 1] in states;
    }
  }

  ghost predicate AlwaysAvailable(respond: Respond, n: nat) {
    forall u: nat, offset: nat, request: nat :: u < n ==> !respond(u, offset, request).Unavailable?
  }

  // Nothing but the budgets can go wrong, and they suffice for what is left.
  ghost predicate WithinBudget(respond: Respond, lists: seq<seq<Item>>, states: seq<Source>, requests: nat,
      candidates: nat)
  {
    && |lists| == |states|
    && AllHonest(respond, lists) && AlwaysAvailable(respond, |lists|)
    && requests + Work(lists, states, |lists|) <= SEARCH_MAX_REQUESTS
    && candidates + Work(lists, states, |lists|) <= SEARCH_MAX_REQUESTS
  }

  lemma {:induction false} WorkUpdate(lists: seq<seq<Item>>, states: seq<Source>, n: nat, u: nat, s: Source)
    requires n <= |lists| == |states| && u < |states|
    ensures Work(lists, states[u := s], n)
            == Work(lists, states, n) - (if u < n then Left(lists[u], states[u]) - Left(lists[u], s) else 0)
  {
    if n > 0 {
      WorkUpdate(lists, states, n - 1, u, s);
    }
  }

  lemma {:induction false} AskCostsWork(
    respond: Respond, lists: seq<seq<Item>>, hits: seq<Hit>, states: seq<Source>, u: nat,
    requests: nat, candidates: nat, after: Source, more: seq<Hit>)
    requires WithinBudget(respond, lists, states, requests, candidates) && AllOk(respond, lists, hits, states)
    requires u < |lists| && !states[u].done
    requires Asked(respond(u, states[u].offset, requests), u, states[u], after, more)
    ensures WithinBudget(respond, lists, states[u := after], requests + 1, candidates + |more|)
  {
    assert Honest(respond, u, lists[u]) && SourceOk(respond, hits, u, lists[u], states[u]);
    assert Serves(respond(u, states[u].offset, requests), lists[u], states[u].offset);
    WorkUpdate(lists, states, |lists|, u, after);
  }

  lemma {:induction false} WorkIsPositive(lists: seq<seq<Item>>, states: seq<Source>, n: nat, u: nat)
    requires u < n <= |lists| == |states| && !states[u].done && states[u].offset <= |lists[u]|
    ensures Work(lists, states, n) > 0
  {
    if u < n - 1 {
      WorkIsPositive(lists, states, n - 1, u);
    }
  }

  // Within budget, an honest source that is always available makes nothing throw.
  lemma {:induction false} NothingThrows(
    respond: Respond, lists: seq<seq<Item>>, hits: seq<Hit>, states: seq<Source>, u: nat, requests: nat,
    candidates: nat)
    requires WithinBudget(respond, lists, states, requests, candidates) && AllOk(respond, lists, hits, states)
    requires u < |lists| && !states[u].done
    ensures requests < SEARCH_MAX_REQUESTS && candidates < SEARCH_MAX_CANDIDATES
    ensures forall error :: !Throws(respond(u, states[u].offset, requests), states[u], candidates, error)
  {
    assert Honest(respond, u, lists[u]) && SourceOk(respond, hits, u, lists[u], states[u]);
    WorkIsPositive(lists, states, |lists|, u);
    var response := respond(u, states[u].offset, requests);
    assert Serves(response, lists[u], states[u].offset);
    forall error ensures !Throws(response, states[u], candidates, error) {
      if Throws(response, states[u], candidates, error) {
        HonestFailures(respond, hits, u, lists[u], states[u], requests, candidates, error);
      }
    }
  }

  // ---------------------------------------------------------------- what the search yields

  /** How far a search has got. */
  datatype Progress = Progress(states: seq<Source>, hits: seq<Hit>, requests: nat)

  predicate Usable(response: Response) {
    WellFormedPage(response) && AllValid(Concat(response.chunks))
  }

  /** The hits of an answer: all its items, in order. */
  function YieldOf(response: Response, uplink: nat): seq<Hit> {
    if Usable(response) then HitsOf(uplink, Concat(response.chunks)) else []
  }

  /** What is known of a source after an answer. */
  function After(response: Response, before: Source): Source {
    if response.Unavailable? || !Usable(response) then before.(done := true)
    else
      var page := Concat(response.chunks);
      var offset := before.offset + |page|;
      Source(offset, page == [] || (response.total.Some? && offset >= response.total.value), before.seen + KeysOf(page))
  }

  /** One source asked from its offset, unless it is done. */
  function AskOne(respond: Respond, p: Progress, u: nat): (after: Progress)
    requires u < |p.states|
    ensures |after.states| == |p.states|
  {
    if p.states[u].done then p
    else
      var response := respond(u, p.states[u].offset, p.requests);
      Progress(p.states[u := After(response, p.states[u])], p.hits + YieldOf(response, u), p.requests + 1)
  }

  /** The first n sources asked in configuration order. */
  function AskFirst(respond: Respond, p: Progress, n: nat): (after: Progress)
    requires n <= |p.states|
    ensures |after.states| == |p.states|
  {
    if n == 0 then p else AskOne(respond, AskFirst(respond, p, n - 1), n - 1)
  }

  function OneRound(respond: Respond, p: Progress): Progress {
    AskFirst(respond, p, |p.states|)
  }

  function Beginning(n: nat): Progress {
    Progress(seq(n, _ => Source(0, false, {})), [], 0)
  }

  /** A search over n uplinks after k whole rounds. */
  function AfterRounds(respond: Respond, n: nat, k: nat): (after: Progress)
    ensures |after.states| == n
  {
    if k == 0 then Beginning(n) else OneRound(respond, AfterRounds(respond, n, k - 1))
  }

  lemma AskedIs(response: Response, uplink: nat, before: Source, after: Source, hits: seq<Hit>)
    requires Asked(response, uplink, before, after, hits)
    ensures after == After(response, before) && hits == YieldOf(response, uplink)
  {
  }

  /** The hit is an item of an answer to a request of its uplink, one of the first `requests`. */
  ghost predicate Sent(respond: Respond, n: nat, requests: nat, hit: Hit) {
    && hit.uplink < n
    && exists offset: nat, request: nat, i: nat :: request < requests && SentAs(respond, hit, offset, request, i)
  }

  predicate SentAs(respond: Respond, hit: Hit, offset: nat, request: nat, i: nat) {
    var response := respond(hit.uplink, offset, request);
    && response.Stream? && i < |Concat(response.chunks)|
    && Concat(response.chunks)[i].Valid?
    && hit.item == Concat(response.chunks)[i].item.(cached := false, isPrivate := false)
  }

  ghost predicate AllSent(respond: Respond, n: nat, p: Progress) {
    forall hit :: hit in p.hits ==> Sent(respond, n, p.requests, hit)
  }

  lemma AskOneIsSent(respond: Respond, p: Progress, u: nat)
    requires u < |p.states| && AllSent(respond, |p.states|, p)
    ensures AllSent(respond, |p.states|, AskOne(respond, p, u))
  {
    var after := AskOne(respond, p, u);
    if !p.states[u].done {
      var offset := p.states[u].offset;
      var response := respond(u, offset, p.requests);
      forall hit | hit in after.hits ensures Sent(respond, |p.states|, after.requests, hit) {
        if hit in p.hits {
          var o: nat, request: nat, i: nat :| request < p.requests && SentAs(respond, hit, o, request, i);
          assert request < after.requests;
        } else {
          var i: nat :| i < |YieldOf(response, u)| && YieldOf(response, u)[i] == hit;
          assert SentAs(respond, hit, offset, p.requests, i);
        }
      }
    }
  }

  lemma {:induction false} AskFirstIsSent(respond: Respond, p: Progress, n: nat)
    requires n <= |p.states| && AllSent(respond, |p.states|, p)
    ensures AllSent(respond, |p.states|, AskFirst(respond, p, n))
  {
    if n > 0 {
      AskFirstIsSent(respond, p, n - 1);
      AskOneIsSent(respond, AskFirst(respond, p, n - 1), n - 1);
    }
  }

  /** Whatever the uplinks answer, a search yields nothing they did not send. */
  lemma {:induction false} HitsAreSent(respond: Respond, n: nat, k: nat)
    ensures AllSent(respond, n, AfterRounds(respond, n, k))
  {
    if k > 0 {
      HitsAreSent(respond, n, k - 1);
      AskFirstIsSent(respond, AfterRounds(respond, n, k - 1), n);
    }
  }

  lemma SentByLater(respond: Respond, n: nat, p: Progress, requests: nat)
    requires AllSent(respond, n, p) && p.requests <= requests
    ensures AllSent(respond, n, p.(requests := requests))
  {
    forall hit | hit in p.hits ensures Sent(respond, n, requests, hit) {
      var offset: nat, request: nat, i: nat :| request < p.requests && SentAs(respond, hit, offset, request, i);
      assert request < requests;
    }
  }

  // In a round that began at `before`, with c0 candidates, the sources before u have been asked.
  ghost predicate InRound(
    respond: Respond, lists: seq<seq<Item>>, before: Progress, c0: nat, p: Progress, c: nat, u: nat)
  {
    && u <= |before.states| && p == AskFirst(respond, before, u)
    && AllOk(respond, lists, p.hits, p.states)
    && (WithinBudget(respond, lists, before.states, before.requests, c0) ==>
          WithinBudget(respond, lists, p.states, p.requests, c))
  }

  lemma AskInRound(
    respond: Respond, lists: seq<seq<Item>>, before: Progress, c0: nat, p: Progress, c: nat, u: nat,
    after: Source, hits: seq<Hit>)
    requires InRound(respond, lists, before, c0, p, c, u) && u < |p.states| && !p.states[u].done
    requires Asked(respond(u, p.states[u].offset, p.requests), u, p.states[u], after, hits)
    ensures InRound(respond, lists, before, c0,
                    Progress(p.states[u := after], p.hits + hits, p.requests + 1), c + |hits|, u + 1)
  {
    AskedIs(respond(u, p.states[u].offset, p.requests), u, p.states[u], after, hits);
    AskKeepsAllOk(respond, lists, p.hits, p.states, u, p.requests, after, hits);
    if WithinBudget(respond, lists, p.states, p.requests, c) {
      AskCostsWork(respond, lists, p.hits, p.states, u, p.requests, c, after, hits);
    }
  }

  lemma SkipInRound(respond: Respond, lists: seq<seq<Item>>, before: Progress, c0: nat, p: Progress, c: nat, u: nat)
    requires InRound(respond, lists, before, c0, p, c, u) && u < |p.states| && p.states[u].done
    ensures InRound(respond, lists, before, c0, p, c, u + 1)
  {
  }

  // Why a round fails, when it does.
  lemma FailsInRound(
    respond: Respond, lists: seq<seq<Item>>, before: Progress, c0: nat, p: Progress, c: nat, u: nat, error: Error)
    requires InRound(respond, lists, before, c0, p, c, u) && u < |p.states| && !p.states[u].done
    requires || Throws(respond(u, p.states[u].offset, p.requests), p.states[u], c, error)
             || (error.BudgetExhausted? && (p.requests >= SEARCH_MAX_REQUESTS || c >= SEARCH_MAX_CANDIDATES))
    ensures !WithinBudget(respond, lists, before.states, before.requests, c0)
    ensures AllHonest(respond, lists) ==> HonestError(respond, |lists|, error)
  {
    if WithinBudget(respond, lists, before.states, before.requests, c0) {
      NothingThrows(respond, lists, p.hits, p.states, u, p.requests, c);
    }
    if AllHonest(respond, lists) && !error.BudgetExhausted? {
      HonestFailures(respond, p.hits, u, lists[u], p.states[u], p.requests, c, error);
    }
  }

  lemma Regroup(a: seq<Hit>, b: seq<Hit>, c: seq<Hit>)
    ensures a + b + c == a + (b + c)
  {
  }

  // What a failed round tells of the uplinks.
  ghost predicate RoundFails(respond: Respond, lists: seq<seq<Item>>, before: Progress, c0: nat, error: Error) {
    && !WithinBudget(respond, lists, before.states, before.requests, c0)
    && (AllHonest(respond, lists) ==> HonestError(respond, |lists|, error))
  }

  // One source in a round: asked unless it is done, within both budgets.
  method AskSource(
    respond: Respond, u: nat, states: seq<Source>, requests: nat, candidates: nat,
    ghost lists: seq<seq<Item>>, ghost before: Progress, ghost c0: nat, ghost p: Progress)
    returns (states': seq<Source>, requests': nat, hits: seq<Hit>, error: Option<Error>, ghost p': Progress)
    requires p == Progress(states, p.hits, requests) && u < |states| && requests <= SEARCH_MAX_REQUESTS
    requires InRound(respond, lists, before, c0, p, candidates, u)
    ensures |states'| == |states| && forall i :: 0 <= i < |states| && i != u ==> states'[i] == states[i]
    ensures requests <= requests' <= SEARCH_MAX_REQUESTS
    ensures error.None? ==>
              && (requests == requests' ==> states[u].done)
              && (candidates <= SEARCH_MAX_CANDIDATES ==> candidates + |hits| <= SEARCH_MAX_CANDIDATES)
              && p' == Progress(states', p.hits + hits, requests')
              && InRound(respond, lists, before, c0, p', candidates + |hits|, u + 1)
    ensures error.Some? ==> RoundFails(respond, lists, before, c0, error.value)
  {
    states', requests', hits, error, p' := states, requests, [], None, p;
    if states[u].done {
      SkipInRound(respond, lists, before, c0, p, candidates, u);
      return;
    }
    if requests >= SEARCH_MAX_REQUESTS || candidates >= SEARCH_MAX_CANDIDATES {
      error := Some(BudgetExhausted);
      FailsInRound(respond, lists, before, c0, p, candidates, u, BudgetExhausted);
      return;
    }
    var after;
    after, hits, error := Ask(respond, u, states[u], requests, candidates);
    requests' := requests + 1;
    if error.Some? {
      FailsInRound(respond, lists, before, c0, p, candidates, u, error.value);
      return;
    }
    AskInRound(respond, lists, before, c0, p, candidates, u, after, hits);
    states' := states[u := after];
    p' := Progress(states', p.hits + hits, requests');
  }

  /** One round: every source that is not done is asked once, in configuration order. */
  method Round(respond: Respond, states: seq<Source>, requests: nat, candidates: nat, ghost lists: seq<seq<Item>>,
      ghost yielded: seq<Hit>)
    returns (states': seq<Source>, requests': nat, candidates': nat, round: seq<Hit>, error: Option<Error>)
    requires requests <= SEARCH_MAX_REQUESTS
    requires AllOk(respond, lists, yielded, states)
    ensures |states'| == |states|
    ensures requests <= requests' <= SEARCH_MAX_REQUESTS
    ensures error.None? && (exists s :: s in states && !s.done) ==> requests < requests'
    ensures error.None? ==>
              && candidates' == candidates + |round|
              && (candidates <= SEARCH_MAX_CANDIDATES ==> candidates' <= SEARCH_MAX_CANDIDATES)
              && AllOk(respond, lists, yielded + round, states')
              && Progress(states', yielded + round, requests') == OneRound(respond, Progress(states, yielded, requests))
    ensures error.Some? && AllHonest(respond, lists) ==> HonestError(respond, |lists|, error.value)
    ensures WithinBudget(respond, lists, states, requests, candidates) ==>
              error.None? && WithinBudget(respond, lists, states', requests', candidates')
  {
    states', requests', candidates', round, error := states, requests, candidates, [], None;
    ghost var before := Progress(states, yielded, requests);
    ghost var p := before;
    for u := 0 to |states|
      invariant p == Progress(states', p.hits, requests') && p.hits == yielded + round
      invariant error.None? && InRound(respond, lists, before, candidates, p, candidates', u)
      invariant |states'| == |states| && forall i :: u <= i < |states| ==> states'[i] == states[i]
      invariant requests <= requests' <= SEARCH_MAX_REQUESTS
      invariant requests' == requests ==> forall i :: 0 <= i < u ==> states[i].done
      invariant candidates' == candidates + |round|
      invariant candidates <= SEARCH_MAX_CANDIDATES ==> candidates' <= SEARCH_MAX_CANDIDATES
    {
      var hits;
      states', requests', hits, error, p :=
        AskSource(respond, u, states', requests', candidates', lists, before, candidates, p);
      if error.Some? {
        return;
      }
      Regroup(yielded, round, hits);
      candidates' := candidates' + |hits|;
      round := round + hits;
    }
  }

  // Between two rounds of a search.
  ghost predicate InSearch(respond: Respond, lists: seq<seq<Item>>, p: Progress, rounds: nat) {
    && p == AfterRounds(respond, |lists|, rounds)
    && AllOk(respond, lists, p.hits, p.states)
    && AllSent(respond, |lists|, p)
  }

  lemma SearchBegins(respond: Respond, lists: seq<seq<Item>>)
    ensures InSearch(respond, lists, Beginning(|lists|), 0)
    ensures AllHonest(respond, lists) && AlwaysAvailable(respond, |lists|)
            && Items(lists) + |lists| <= SEARCH_MAX_REQUESTS ==>
              WithinBudget(respond, lists, Beginning(|lists|).states, 0, 0)
  {
    WorkAtStart(lists, Beginning(|lists|).states, |lists|);
  }

  lemma RoundInSearch(respond: Respond, lists: seq<seq<Item>>, p: Progress, rounds: nat, after: Progress)
    requires InSearch(respond, lists, p, rounds) && after == OneRound(respond, p)
    requires AllOk(respond, lists, after.hits, after.states)
    ensures InSearch(respond, lists, after, rounds + 1)
  {
    HitsAreSent(respond, |lists|, rounds + 1);
  }

  /**
   * Every honest uplink has contributed its whole list in order, or was unavailable at first and
   * contributed nothing.
   */
  ghost predicate AllContributed(respond: Respond, lists: seq<seq<Item>>, hits: seq<Hit>) {
    forall u: nat :: u < |lists| && Honest(respond, u, lists[u]) ==>
      || From(hits, u) == FromUplinks(lists[u])
      || (UnavailableAtStart(respond, u) && From(hits, u) == [])
  }

  lemma DoneMeansContributed(respond: Respond, lists: seq<seq<Item>>, hits: seq<Hit>, states: seq<Source>)
    requires AllOk(respond, lists, hits, states) && forall s :: s in states ==> s.done
    ensures AllContributed(respond, lists, hits)
  {
    forall u: nat | u < |lists| && Honest(respond, u, lists[u])
      ensures || From(hits, u) == FromUplinks(lists[u])
              || (UnavailableAtStart(respond, u) && From(hits, u) == [])
    {
      assert states[u] in states && states[u].done;
      assert SourceOk(respond, hits, u, lists[u], states[u]);
      assert lists[u][..|lists[u]|] == lists[u];
    }
  }

  /**
   * The whole generator: the rounds it yields, the requests it made and how it ended.
   * `lists` names what each uplink serves, for the promises about honest ones.
   *
   * It makes at most 100 requests (and so terminates) and yields at most 25,000 items. When
   * it ends normally, an honest uplink has contributed exactly its list in order, or was
   * unavailable at its first request and contributed nothing. Honest uplinks cause no other
   * failure than an exhausted budget or the loss of a source that had contributed, and none
   * at all when they are always available and small enough. The rounds hold what the rounds
   * of AfterRounds yield, so nothing but what the uplinks sent.
   */
  method SearchPages(n: nat, respond: Respond, ghost lists: seq<seq<Item>>)
    returns (rounds: seq<seq<Hit>>, requests: nat, outcome: Outcome)
    requires |lists| == n
    ensures requests <= SEARCH_MAX_REQUESTS
    ensures |Flatten(rounds)| <= SEARCH_MAX_CANDIDATES
    ensures Flatten(rounds) == AfterRounds(respond, n, |rounds|).hits
    ensures forall hit :: hit in Flatten(rounds) ==> Sent(respond, n, requests, hit)
    ensures outcome.Finished? ==>
              && requests == AfterRounds(respond, n, |rounds|).requests
              && forall s :: s in AfterRounds(respond, n, |rounds|).states ==> s.done
    ensures outcome.Finished? ==> AllContributed(respond, lists, Flatten(rounds))
    ensures outcome.Failed? && AllHonest(respond, lists) ==> HonestError(respond, n, outcome.error)
    ensures AllHonest(respond, lists) && AlwaysAvailable(respond, n) && Items(lists) + n <= SEARCH_MAX_REQUESTS
            ==> outcome.Finished?
  {
    var states: seq<Source> := Beginning(n).states;
    rounds, requests := [], 0;
    var candidates := 0;
    ghost var enough :=
      AllHonest(respond, lists) && AlwaysAvailable(respond, n) && Items(lists) + n <= SEARCH_MAX_REQUESTS;
    SearchBegins(respond, lists);
    while exists s :: s in states && !s.done
      invariant requests <= SEARCH_MAX_REQUESTS
      invariant candidates == |Flatten(rounds)| <= SEARCH_MAX_CANDIDATES
      invariant InSearch(respond, lists, Progress(states, Flatten(rounds), requests), |rounds|)
      invariant enough ==> WithinBudget(respond, lists, states, requests, candidates)
      decreases SEARCH_MAX_REQUESTS - requests
    {
      var states', requests', candidates', round, error :=
        Round(respond, states, requests, candidates, lists, Flatten(rounds));
      if error.Some? {
        SentByLater(respond, n, Progress(states, Flatten(rounds), requests), requests');
        requests, outcome := requests', Failed(error.value);
        return;
      }
      RoundInSearch(respond, lists, Progress(states, Flatten(rounds), requests), |rounds|,
                    Progress(states', Flatten(rounds) + round, requests'));
      FlattenLast(rounds, round);
      rounds, requests := rounds + [round], requests';
      states, candidates := states', candidates';
    }
    outcome := Finished;
    DoneMeansContributed(respond, lists, Flatten(rounds), states);
  }
}
