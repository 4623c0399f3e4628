/**
 * The page the v1 search answers: the handler draws list after list from the ranked search,
 * which draws round after round from the uplinks, and stops at the first list that fills the
 * page.
 */
module SearchService {
  import opened Common
  import opened SearchItems
  import opened Versions
  import Pages = SearchPages
  import Ranking = RankedSearch
  import Handler = SearchHandler

  const DEFAULT_SIZE := 20
  const MAX_SIZE := 250
  const MAX_FROM := 10_000

  /** parseQueryInt, given what Number.parseInt makes of the text (none for NaN). */
  function ParseQueryInt(parsed: Option<int>, defaultValue: nat, max: nat): nat {
    if parsed.None? || parsed.value < 0 then defaultValue
    else if parsed.value < max then parsed.value
    else max
  }

  /** A number of the query counts when it is not negative, up to the maximum; anything else is the default. */
  lemma ParseQueryIntIs(parsed: Option<int>, defaultValue: nat, max: nat)
    ensures var n := ParseQueryInt(parsed, defaultValue, max);
            && (parsed.None? ==> n == defaultValue)
            && (parsed.Some? && parsed.value < 0 ==> n == defaultValue)
            && (parsed.Some? && 0 <= parsed.value <= max ==> n == parsed.value)
            && (parsed.Some? && max <= parsed.value ==> n == max)
  {
  }

  function ItemsOf(hits: seq<Pages.Hit>): (items: seq<Item>)
    ensures |items| == |hits|
    ensures forall i :: 0 <= i < |hits| ==> items[i] == hits[i].item
  {
    seq(|hits|, i requires 0 <= i < |hits| => hits[i].item)
  }

  lemma ItemsOfSum(a: seq<Pages.Hit>, b: seq<Pages.Hit>)
    ensures ItemsOf(a + b) == ItemsOf(a) + ItemsOf(b)
  {
  }

  /** Everything known after the local items and the hits, one entry a name. */
  function MergedList(sv: Semver, local: seq<Item>, hits: seq<Pages.Hit>): seq<Item> {
    Ranking.MergeAll(sv, [], local + ItemsOf(hits))
  }

  /** The list the handler sees; without uplinks the local items come unranked. */
  function ListOf(sv: Semver, local: seq<Item>, hits: seq<Pages.Hit>, uplinks: nat): seq<Item> {
    if uplinks == 0 then MergedList(sv, local, hits) else Ranking.Ranked(MergedList(sv, local, hits))
  }

  /** The list has one entry a name; with uplinks it is in descending order of score, without them as it was merged. */
  lemma ListOfIs(sv: Semver, local: seq<Item>, hits: seq<Pages.Hit>, uplinks: nat)
    ensures var list, merged := ListOf(sv, local, hits, uplinks), MergedList(sv, local, hits);
            && multiset(list) == multiset(merged)
            && (uplinks == 0 ==> list == merged)
            && (uplinks > 0 ==> Ranking.Descending(list))
  {
    Ranking.RankedIsStableSort(MergedList(sv, local, hits));
  }

  lemma MergeOneRound(sv: Semver, local: seq<Item>, hits: seq<Pages.Hit>, round: seq<Pages.Hit>)
    ensures MergedList(sv, local, hits + round) == Ranking.MergeAll(sv, MergedList(sv, local, hits), ItemsOf(round))
  {
    ItemsOfSum(hits, round);
    Ranking.MergeInTwo(sv, [], local + ItemsOf(hits), ItemsOf(round));
    Regroup(local, ItemsOf(hits), ItemsOf(round));
  }

  lemma Regroup<T>(a: seq<T>, b: seq<T>, c: seq<T>)
    ensures a + b + c == a + (b + c)
  {
  }

  // ---------------------------------------------------------------- what a page is

  /** A search: what there is, what the uplinks answer, who may see what, and the page wanted. */
  datatype Query = Query(
    sv: Semver, check: Handler.Check, local: seq<Item>, respond: Pages.Respond, lists: seq<seq<Item>>,
    from: nat, size: nat)
  {
    function Requested(): nat {
      from + size
    }

    function ListAfter(hits: seq<Pages.Hit>): seq<Item> {
      ListOf(sv, local, hits, |lists|)
    }
  }

  /** How far the handler is: the rounds drawn, and the names checked. */
  datatype Draw = Draw(
    states: seq<Pages.Source>, rounds: nat, requests: nat, hits: seq<Pages.Hit>,
    access: map<string, bool>, calls: seq<Item>)

  /** The uplinks and the local items are few enough, honest and available, and no check fails. */
  ghost predicate NothingCanFail(q: Query) {
    && Pages.AllHonest(q.respond, q.lists) && Pages.AlwaysAvailable(q.respond, |q.lists|)
    && Pages.Items(q.lists) + |q.lists| <= Pages.SEARCH_MAX_REQUESTS
    && |q.local| + Pages.SEARCH_MAX_REQUESTS <= Ranking.SEARCH_MAX_CANDIDATES
    && forall item :: !q.check(item).Error?
  }

  /** What the verdicts say of a page: it is cut from the filtered list, and an unfilled one from all there is. */
  ghost predicate Served(q: Query, hits: seq<Pages.Hit>, access: map<string, bool>, page: seq<Item>) {
    var list := q.ListAfter(hits);
    && |page| <= q.size
    && page == Handler.Slice(Handler.Filter(Handler.By(access), list), q.from, q.Requested())
    && (Handler.NameOnly(q.check) ==>
        page == Handler.Slice(Handler.Filter(Handler.Passes(q.check), list), q.from, q.Requested()))
    && Handler.VerdictPage(access, list, q.from, q.size, page)
    && (Handler.NameOnly(q.check) ==> Handler.AllowedPage(q.check, list, q.from, q.size, page))
    && (|Handler.Filter(Handler.By(access), list)| < q.Requested() ==> Pages.AllContributed(q.respond, q.lists, hits))
  }

  // The page cut from what was kept of a list up to a filled page or its end.
  lemma PageOfList(check: Handler.Check, access: map<string, bool>, calls: seq<Item>, list: seq<Item>, examined: nat,
      allowed: seq<Item>, from: nat, size: nat)
    requires Handler.Remembers(check, access, calls) && Handler.Scanned(access, list, examined, allowed)
    requires |allowed| >= from + size || examined == |list|
    ensures var page := Handler.Slice(allowed, from, from + size);
            && |page| <= size
            && page == Handler.Slice(Handler.Filter(Handler.By(access), list), from, from + size)
            && (Handler.NameOnly(check) ==>
                page == Handler.Slice(Handler.Filter(Handler.Passes(check), list), from, from + size))
    ensures |Handler.Filter(Handler.By(access), list)| < from + size ==> |allowed| < from + size
    ensures var page := Handler.Slice(allowed, from, from + size);
            && Handler.VerdictPage(access, list, from, size, page)
            && (Handler.NameOnly(check) ==> Handler.AllowedPage(check, list, from, size, page))
  {
    Handler.FilterIsVerdictPage(access, list, from, size);
    Handler.FilterIsAllowedPage(check, list, from, size);
    assert Handler.Passed(access, [list], 0, from + size);
    Handler.StoppedOnPage(check, access, calls, [list], 0, examined, allowed, from, size);
    Handler.PrefixDecides(Handler.By(access), list, examined, from, from + size);
    assert Handler.Consumed(Handler.By(access), [list], from + size) == list;
    assert Handler.Consumed(Handler.Passes(check), [list], from + size) == list;
  }

  lemma ServedFrom(q: Query, hits: seq<Pages.Hit>, access: map<string, bool>, calls: seq<Item>, examined: nat,
      allowed: seq<Item>)
    requires Handler.Remembers(q.check, access, calls)
    requires Handler.Scanned(access, q.ListAfter(hits), examined, allowed)
    requires |allowed| >= q.Requested()
             || (examined == |q.ListAfter(hits)| && Pages.AllContributed(q.respond, q.lists, hits))
    ensures Served(q, hits, access, Handler.Slice(allowed, q.from, q.Requested()))
  {
    PageOfList(q.check, access, calls, q.ListAfter(hits), examined, allowed, q.from, q.size);
  }

  /**
   * What the handler drew: the hits of so many whole rounds, all of them items the uplinks sent,
   * and of an honest uplink the first items of its list, in order.
   */
  ghost predicate Found(q: Query, rounds: nat, requests: nat, hits: seq<Pages.Hit>) {
    var drawn := Pages.AfterRounds(q.respond, |q.lists|, rounds);
    && drawn.hits == hits && drawn.requests == requests
    && (forall hit :: hit in hits ==> Pages.Sent(q.respond, |q.lists|, requests, hit))
    && (forall u: nat :: u < |q.lists| && Pages.Honest(q.respond, u, q.lists[u]) ==>
          Pages.Contributed(hits, u, q.lists[u], |Pages.From(hits, u)|))
  }

  /** The list after k rounds fills the page, with access decided by the check. */
  ghost predicate Fills(q: Query, k: nat) {
    var list := q.ListAfter(Pages.AfterRounds(q.respond, |q.lists|, k).hits);
    |Handler.Filter(Handler.Passes(q.check), list)| >= q.Requested()
  }

  // With access decided by name, no list up to this round fills the page.
  ghost predicate NoneFills(q: Query, rounds: nat) {
    Handler.NameOnly(q.check) ==> forall k :: 0 < k <= rounds ==> !Fills(q, k)
  }

  /** Every uplink is done after so many rounds. */
  ghost predicate AllDone(q: Query, rounds: nat) {
    forall s :: s in Pages.AfterRounds(q.respond, |q.lists|, rounds).states ==> s.done
  }

  /**
   * The handler draws until the page is filled or every uplink is done: with access decided by
   * name, the round it stops after is the first one that fills the page.
   */
  ghost predicate StopsInTime(q: Query, rounds: nat) {
    && (rounds > 0 <==> q.lists != [])
    && (rounds > 0 ==> NoneFills(q, rounds - 1))
    && (Handler.NameOnly(q.check) ==> Fills(q, rounds) || AllDone(q, rounds))
  }

  /** What is promised of the answer to a query. */
  ghost predicate Answers(q: Query, d: Draw, page: seq<Item>) {
    && Served(q, d.hits, d.access, page)
    && Found(q, d.rounds, d.requests, d.hits)
    && StopsInTime(q, d.rounds)
  }

  ghost predicate Paged(q: Query, d: Draw, page: seq<Item>) {
    Answers(q, d, page) && |page| <= q.size && |d.hits| <= Pages.SEARCH_MAX_CANDIDATES
  }

  ghost predicate PagedFrom(q: Query, d: Draw, allowed: seq<Item>) {
    Paged(q, d, Handler.Slice(allowed, q.from, q.Requested()))
  }

  // ---------------------------------------------------------------- drawing

  // Between two rounds.
  ghost predicate Drawn(q: Query, d: Draw) {
    && Pages.Progress(d.states, d.hits, d.requests) == Pages.AfterRounds(q.respond, |q.lists|, d.rounds)
    && d.requests <= Pages.SEARCH_MAX_REQUESTS && |d.hits| <= Pages.SEARCH_MAX_CANDIDATES
    && Pages.AllOk(q.respond, q.lists, d.hits, d.states)
    && Handler.Remembers(q.check, d.access, d.calls) && Handler.Clean(q.check, d.calls)
    && (NothingCanFail(q) ==> Pages.WithinBudget(q.respond, q.lists, d.states, d.requests, |d.hits|))
  }

  /** Nothing drawn yet. */
  function AtStart(n: nat): Draw {
    Draw(Pages.Beginning(n).states, 0, 0, [], map[], [])
  }

  lemma DrawnAtStart(q: Query)
    ensures Drawn(q, AtStart(|q.lists|))
  {
    Pages.WorkAtStart(q.lists, AtStart(|q.lists|).states, |q.lists|);
  }

  lemma DrawnIsFound(q: Query, d: Draw)
    requires Drawn(q, d)
    ensures Found(q, d.rounds, d.requests, d.hits)
  {
    Pages.HitsAreSent(q.respond, |q.lists|, d.rounds);
    forall u: nat | u < |q.lists| && Pages.Honest(q.respond, u, q.lists[u])
      ensures Pages.Contributed(d.hits, u, q.lists[u], |Pages.From(d.hits, u)|)
    {
      assert Pages.SourceOk(q.respond, d.hits, u, q.lists[u], d.states[u]);
    }
  }

  // The search holds what has been drawn.
  ghost predicate Holds(search: Ranking.Search, q: Query, hits: seq<Pages.Hit>)
    reads search
  {
    search.sv == q.sv && search.merged == MergedList(q.sv, q.local, hits) && search.candidates == |q.local| + |hits|
  }

  // The verdicts on the list of what has been drawn, up to a filled page or its end.
  ghost predicate Judged(q: Query, d: Draw, examined: nat, allowed: seq<Item>) {
    && Handler.Scanned(d.access, q.ListAfter(d.hits), examined, allowed)
    && (examined == |q.ListAfter(d.hits)| || |allowed| >= q.Requested())
  }

  // With access decided by name, whether a page is filled does not depend on the memo.
  lemma JudgedFills(q: Query, d: Draw, examined: nat, allowed: seq<Item>)
    requires Drawn(q, d) && Judged(q, d, examined, allowed) && Handler.NameOnly(q.check)
    ensures Fills(q, d.rounds) <==> |allowed| >= q.Requested()
  {
    var list := q.ListAfter(d.hits);
    Handler.MemoIsCheck(q.check, d.access, d.calls, list[..examined]);
    Handler.PrefixDecides(Handler.Passes(q.check), list, examined, 0, q.Requested());
  }

  // Some rounds drawn, the last list judged and the page not filled.
  ghost predicate GoesOn(q: Query, d: Draw, examined: nat, allowed: seq<Item>) {
    && Drawn(q, d) && NoneFills(q, d.rounds)
    && if d.rounds == 0 then d.requests == 0 && d.hits == [] && forall s :: s in d.states ==> !s.done
       else q.lists != [] && Judged(q, d, examined, allowed) && |allowed| < q.Requested()
  }

  lemma GoesOnAtStart(q: Query)
    ensures GoesOn(q, AtStart(|q.lists|), 0, [])
  {
    DrawnAtStart(q);
  }

  lemma GoesOnUnfilled(q: Query, d: Draw, examined: nat, allowed: seq<Item>)
    requires Drawn(q, d) && d.rounds > 0 && NoneFills(q, d.rounds - 1) && q.lists != []
    requires Judged(q, d, examined, allowed) && |allowed| < q.Requested()
    ensures GoesOn(q, d, examined, allowed)
  {
    if Handler.NameOnly(q.check) {
      JudgedFills(q, d, examined, allowed);
    }
  }

  lemma AnswersFilled(q: Query, d: Draw, examined: nat, allowed: seq<Item>)
    requires Drawn(q, d) && d.rounds > 0 && NoneFills(q, d.rounds - 1) && q.lists != []
    requires Judged(q, d, examined, allowed) && |allowed| >= q.Requested()
    ensures PagedFrom(q, d, allowed)
  {
    ServedFrom(q, d.hits, d.access, d.calls, examined, allowed);
    DrawnIsFound(q, d);
    if Handler.NameOnly(q.check) {
      JudgedFills(q, d, examined, allowed);
    }
  }

  lemma AnswersAll(q: Query, d: Draw, examined: nat, allowed: seq<Item>)
    requires Drawn(q, d) && (forall s :: s in d.states ==> s.done)
    requires d.rounds > 0 <==> q.lists != []
    requires d.rounds > 0 ==> NoneFills(q, d.rounds - 1)
    requires Judged(q, d, examined, allowed)
    ensures PagedFrom(q, d, allowed)
  {
    Pages.DoneMeansContributed(q.respond, q.lists, d.hits, d.states);
    ServedFrom(q, d.hits, d.access, d.calls, examined, allowed);
    DrawnIsFound(q, d);
  }

  // The last list is judged and no uplink is left.
  lemma AnswersAtEnd(q: Query, d: Draw, examined: nat, allowed: seq<Item>)
    requires GoesOn(q, d, examined, allowed) && q.lists != [] && !(exists s :: s in d.states && !s.done)
    ensures PagedFrom(q, d, allowed)
  {
    assert d.states[0] in d.states;
    AnswersAll(q, d, examined, allowed);
  }

  // The answer, cut from what was kept.
  method CutPage(allowed: seq<Item>, from: nat, size: nat, ghost q: Query, ghost d: Draw)
    returns (page: Option<seq<Item>>)
    requires q.from == from && q.size == size && PagedFrom(q, d, allowed)
    ensures page.Some? && Paged(q, d, page.value)
  {
    page := Some(Handler.Slice(allowed, from, from + size));
  }

  // A list just judged gives the page, or there is more to draw.
  lemma JudgedTurns(q: Query, d: Draw, examined: nat, allowed: seq<Item>, before: nat)
    requires Drawn(q, d) && d.rounds == before + 1 && NoneFills(q, before) && q.lists != []
    requires Judged(q, d, examined, allowed)
    ensures if |allowed| >= q.from + q.size then PagedFrom(q, d, allowed) else GoesOn(q, d, examined, allowed)
  {
    if |allowed| >= q.Requested() {
      AnswersFilled(q, d, examined, allowed);
    } else {
      GoesOnUnfilled(q, d, examined, allowed);
    }
  }

  // A round further, with the names checked since.
  lemma DrawnFurther(q: Query, d: Draw, states: seq<Pages.Source>, requests: nat, round: seq<Pages.Hit>, d': Draw)
    requires Drawn(q, d) && d' == Draw(states, d.rounds + 1, requests, d.hits + round, d'.access, d'.calls)
    requires Pages.Progress(states, d.hits + round, requests)
          == Pages.OneRound(q.respond, Pages.Progress(d.states, d.hits, d.requests))
    requires requests <= Pages.SEARCH_MAX_REQUESTS && |d.hits| + |round| <= Pages.SEARCH_MAX_CANDIDATES
    requires Pages.AllOk(q.respond, q.lists, d.hits + round, states)
    requires Handler.Remembers(q.check, d'.access, d'.calls) && Handler.Clean(q.check, d'.calls)
    requires NothingCanFail(q) ==>
               Pages.WithinBudget(q.respond, q.lists, states, requests, |d.hits| + |round|)
    ensures Drawn(q, d')
  {
  }

  // One list: the round of the uplinks, merged, ranked and judged.
  method DrawList(
    check: Handler.Check, respond: Pages.Respond, search: Ranking.Search, requested: nat,
    states: seq<Pages.Source>, requests: nat, candidates: nat, access: map<string, bool>, calls: seq<Item>,
    ghost q: Query, ghost d: Draw)
    returns (ok: bool, states': seq<Pages.Source>, requests': nat, candidates': nat,
      access': map<string, bool>, calls': seq<Item>, allowed: seq<Item>,
      ghost d': Draw, ghost examined: nat)
    requires q.check == check && q.respond == respond && q.Requested() == requested
    requires Drawn(q, d) && d == Draw(states, d.rounds, requests, d.hits, access, calls) && candidates == |d.hits|
    requires Holds(search, q, d.hits) && exists s :: s in states && !s.done
    modifies search
    ensures requests' <= Pages.SEARCH_MAX_REQUESTS
    ensures Handler.Remembers(check, access', calls')
    ensures ok ==>
              && requests < requests' && candidates' == |d'.hits|
              && d' == Draw(states', d.rounds + 1, requests', d'.hits, access', calls')
              && Drawn(q, d') && Holds(search, q, d'.hits)
              && Judged(q, d', examined, allowed)
    ensures NothingCanFail(q) ==> ok
  {
    access', calls', allowed, examined, d' := access, calls, [], 0, d;
    var round, error;
    states', requests', candidates', round, error :=
      Pages.Round(respond, states, requests, candidates, q.lists, d.hits);
    if error.Some? {
      ok := false;
      return;
    }
    MergeOneRound(q.sv, q.local, d.hits, round);
    var ranked;
    ok, ranked := search.Append(ItemsOf(round));
    if !ok {
      return;
    }
    ok, access', calls', allowed, examined := Handler.ScanList(check, ranked, requested, access, calls);
    d' := Draw(states', d.rounds + 1, requests', d.hits + round, access', calls');
    if ok {
      DrawnFurther(q, d, states', requests', round, d');
    }
  }

  // Without uplinks the local items are the list.
  method JudgeLocal(
    check: Handler.Check, search: Ranking.Search, requested: nat, access: map<string, bool>, calls: seq<Item>,
    ghost q: Query, ghost d: Draw)
    returns (ok: bool, access': map<string, bool>, calls': seq<Item>, allowed: seq<Item>,
      ghost d': Draw, ghost examined: nat)
    requires q.check == check && q.Requested() == requested && q.lists == []
    requires Drawn(q, d) && d.hits == [] && d.access == access && d.calls == calls && Holds(search, q, [])
    ensures Handler.Remembers(check, access', calls')
    ensures d' == d.(access := access', calls := calls')
    ensures ok ==> Drawn(q, d') && Judged(q, d', examined, allowed)
    ensures NothingCanFail(q) ==> ok
  {
    ok, access', calls', allowed, examined := Handler.ScanList(check, search.merged, requested, access, calls);
    d' := d.(access := access', calls := calls');
  }

  /**
   * Search v1, from the numbers of the query to the page. The page is none when the search or
   * a check of access fails. Otherwise it is cut from the ranking of the local items and the
   * uplinks' rounds so far, filtered by access. The hits of these rounds are what the uplinks
   * sent, and no more rounds are made than it takes to fill the page; when it is not filled,
   * every honest uplink has contributed its whole list or was unavailable from the start.
   */
  method Serve(
    sv: Semver, check: Handler.Check, local: seq<Item>, respond: Pages.Respond, n: nat,
    parsedFrom: Option<int>, parsedSize: Option<int>, ghost lists: seq<seq<Item>>)
    returns (page: Option<seq<Item>>, requests: nat, access: map<string, bool>, calls: seq<Item>, ghost d: Draw)
    requires |lists| == n
    ensures requests <= Pages.SEARCH_MAX_REQUESTS && Handler.Remembers(check, access, calls)
    ensures var size, from := ParseQueryInt(parsedSize, DEFAULT_SIZE, MAX_SIZE), ParseQueryInt(parsedFrom, 0, MAX_FROM);
            var q := Query(sv, check, local, respond, lists, from, size);
            && (page.Some? ==>
                  if size == 0 then page.value == []
                  else d.requests == requests && d.access == access && Paged(q, d, page.value))
            && (NothingCanFail(q) ==> page.Some?)
    ensures page.Some? ==> |page.value| <= MAX_SIZE
  {
    var size, from := ParseQueryInt(parsedSize, DEFAULT_SIZE, MAX_SIZE), ParseQueryInt(parsedFrom, 0, MAX_FROM);
    if size == 0 {
      return Some([]), 0, map[], [], Draw([], 0, 0, [], map[], []);
    }
    ghost var q := Query(sv, check, local, respond, lists, from, size);
    page, requests, access, calls, d := Collect(sv, check, local, respond, n, from, size, q);
  }

  // The loop of the handler over the lists, one uplink round each.
  method Collect(
    sv: Semver, check: Handler.Check, local: seq<Item>, respond: Pages.Respond, n: nat, from: nat, size: nat,
    ghost q: Query)
    returns (page: Option<seq<Item>>, requests: nat, access: map<string, bool>, calls: seq<Item>, ghost d: Draw)
    requires q.sv == sv && q.check == check && q.local == local && q.respond == respond && |q.lists| == n
    requires q.from == from && q.size == size
    ensures requests <= Pages.SEARCH_MAX_REQUESTS && Handler.Remembers(check, access, calls)
    ensures page.Some? ==>
              d.requests == requests && d.access == access && Paged(q, d, page.value)
    ensures NothingCanFail(q) ==> page.Some?
  {
    page, requests, access, calls, d := None, 0, map[], [], AtStart(n);
    var search := new Ranking.Search(sv);
    var ok, ranked := search.Append(local);
    if !ok {
      return;
    }
    var states := Pages.Beginning(n).states;
    var candidates: nat, allowed: seq<Item> := 0, [];
    ghost var examined: nat := 0;
    GoesOnAtStart(q);
    assert local + ItemsOf([]) == local;
    while exists s :: s in states && !s.done
      invariant GoesOn(q, d, examined, allowed) && d == Draw(states, d.rounds, requests, d.hits, access, calls)
      invariant page == None && candidates == |d.hits| && Holds(search, q, d.hits)
      decreases Pages.SEARCH_MAX_REQUESTS - requests
    {
      ghost var rounds := d.rounds;
      ok, states, requests, candidates, access, calls, allowed, d, examined :=
        DrawList(check, respond, search, from + size, states, requests, candidates, access, calls, q, d);
      if !ok {
        return;
      }
      JudgedTurns(q, d, examined, allowed, rounds);
      if |allowed| >= from + size {
        page := CutPage(allowed, from, size, q, d);
        return;
      }
    }
    if n == 0 {
      ok, access, calls, allowed, d, examined := JudgeLocal(check, search, from + size, access, calls, q, d);
      if !ok {
        return;
      }
      AnswersAll(q, d, examined, allowed);
    } else {
      AnswersAtEnd(q, d, examined, allowed);
    }
    page := CutPage(allowed, from, size, q, d);
  }

  // ---------------------------------------------------------------- what an unfilled page is cut from

  lemma {:induction false} NamedHas(items: seq<Item>, x: Item)
    requires x in items
    ensures x in Ranking.Named(items, x.name)
  {
    if items[|items| - 1] != x {
      NamedHas(items[..|items| - 1], x);
    }
  }

  // Every candidate's name is listed, at a version the candidate is not newer than.
  lemma CandidateIsListed(sv: Semver, items: seq<Item>, x: Item) returns (entry: Item)
    requires x in items
    ensures entry in Ranking.Ranked(Ranking.MergeAll(sv, [], items)) && entry in Ranking.MergeAll(sv, [], items)
    ensures entry.name == x.name && !Ranking.StrictlyNewer(sv, x.version, entry.version)
  {
    NamedHas(items, x);
    var candidates, merged := Ranking.Named(items, x.name), Ranking.MergeAll(sv, [], items);
    entry := Ranking.Kept(sv, candidates);
    Ranking.KeptHasName(sv, items, x.name);
    Ranking.RankedListIsComplete(sv, items);
    Ranking.RankedIsStableSort(merged);
    assert entry in multiset(Ranking.Ranked(merged));
    var i :| 0 <= i < |candidates| && candidates[i] == x;
    Ranking.KeptIsNotOlder(sv, candidates, i);
  }

  lemma {:induction false} FromIsAmong(hits: seq<Pages.Hit>, u: nat, x: Item)
    requires x in Pages.From(hits, u)
    ensures x in ItemsOf(hits)
  {
    if hits[0].uplink == u && hits[0].item == x {
      assert ItemsOf(hits)[0] == x;
    } else {
      FromIsAmong(hits[1..], u, x);
      var i :| 0 <= i < |hits[1..]| && ItemsOf(hits[1..])[i] == x;
      assert ItemsOf(hits)[i + 1] == x;
    }
  }

  /**
   * Once the uplinks have contributed, the list names every local item and every item of an
   * honest, available uplink.
   */
  lemma ContributedIsListed(
    sv: Semver, local: seq<Item>, respond: Pages.Respond, lists: seq<seq<Item>>, hits: seq<Pages.Hit>, u: nat, x: Item)
    returns (entry: Item)
    requires Pages.AllContributed(respond, lists, hits)
    requires || x in local
             || (u < |lists| && Pages.Honest(respond, u, lists[u])
                 && !Pages.UnavailableAtStart(respond, u) && x in lists[u])
    ensures entry in ListOf(sv, local, hits, |lists|)
    ensures entry.name == x.name && !Ranking.StrictlyNewer(sv, x.version, entry.version)
  {
    if x in local {
      entry := CandidateIsListed(sv, local + ItemsOf(hits), x);
    } else {
      var sent := Pages.FromUplink(x);
      var i :| 0 <= i < |lists[u]| && lists[u][i] == x;
      assert Pages.FromUplinks(lists[u])[i] == sent;
      FromIsAmong(hits, u, sent);
      entry := CandidateIsListed(sv, local + ItemsOf(hits), sent);
    }
  }
}
