/**
 * Storage.searchPages: local hits and uplink rounds merged by name, newest version first
 * come, and ranked by score after every round.
 */
module RankedSearch {
  import opened Common
  import opened SearchItems
  import opened Versions

  const SEARCH_MAX_CANDIDATES := 25_000

  predicate StrictlyNewer(sv: Semver, a: string, b: string) {
    sv.Valid(a) && sv.Valid(b) && sv.rank(a).value > sv.rank(b).value
  }

  // ---------------------------------------------------------------- merging

  // The position of a name in the map, in insertion order.
  function IndexOf(merged: seq<Item>, name: string): (i: int)
    ensures -1 <= i < |merged|
    ensures i >= 0 ==> merged[i].name == name
    ensures i < 0 <==> forall j :: 0 <= j < |merged| ==> merged[j].name != name
  {
    if merged == [] then -1
    else if merged[0].name == name then 0
    else
      var i := IndexOf(merged[1..], name);
      if i < 0 then
        assert forall j :: 1 <= j < |merged| ==> merged[j] == merged[1..][j - 1];
        -1
      else i + 1
  }

  predicate HasScore(item: Item) {
    item.score.Some? || item.searchScore.Some?
  }

  /** An item that replaces another keeps its visibility and score where it brings none. */
  function Inherit(item: Item, previous: Item): Item {
    var visible := if item.visibility.None? then item.(visibility := previous.visibility) else item;
    if HasScore(item) then visible else visible.(score := previous.score, searchScore := previous.searchScore)
  }

  predicate Replaces(sv: Semver, item: Item, previous: Item) {
    item.version != previous.version && IsNewerVersion(sv, item.version, previous.version)
  }

  /** What a candidate that replaces another comes to: itself, with the visibility and the scores it does not bring. */
  lemma InheritIs(item: Item, previous: Item)
    ensures var kept := Inherit(item, previous);
            && kept == item.(visibility := kept.visibility, score := kept.score, searchScore := kept.searchScore)
            && kept.visibility == (if item.visibility.Some? then item.visibility else previous.visibility)
            && (item.score.Some? || item.searchScore.Some? ==>
                  kept.score == item.score && kept.searchScore == item.searchScore)
            && (item.score.None? && item.searchScore.None? ==>
                  kept.score == previous.score && kept.searchScore == previous.searchScore)
  {
  }

  function MergeOne(sv: Semver, merged: seq<Item>, item: Item): seq<Item> {
    var i := IndexOf(merged, item.name);
    if i < 0 then merged + [item]
    else if Replaces(sv, item, merged[i]) then merged[i := Inherit(item, merged[i])]
    else merged
  }

  function MergeAll(sv: Semver, merged: seq<Item>, items: seq<Item>): seq<Item> {
    if items == [] then merged
    else MergeOne(sv, MergeAll(sv, merged, items[..|items| - 1]), items[|items| - 1])
  }

  lemma {:induction false} MergeInTwo(sv: Semver, merged: seq<Item>, a: seq<Item>, b: seq<Item>)
    ensures MergeAll(sv, MergeAll(sv, merged, a), b) == MergeAll(sv, merged, a + b)
  {
    if b == [] {
      assert a + b == a;
    } else {
      assert (a + b)[..|a + b| - 1] == a + b[..|b| - 1];
      MergeInTwo(sv, merged, a, b[..|b| - 1]);
    }
  }

  // ---------------------------------------------------------------- ranking

  function Rank(item: Item): real {
    if item.score.Some? then item.score.value else if item.searchScore.Some? then item.searchScore.value else 0.0
  }

  // The stable descending sort Array.prototype.sort performs with this comparison.
  function Insert(item: Item, ranked: seq<Item>): seq<Item> {
    if ranked == [] || Rank(ranked[0]) <= Rank(item) then [item] + ranked
    else [ranked[0]] + Insert(item, ranked[1..])
  }

  function Ranked(items: seq<Item>): seq<Item> {
    if items == [] then [] else Insert(items[0], Ranked(items[1..]))
  }

  predicate Descending(items: seq<Item>) {
    forall i, j :: 0 <= i < j < |items| ==> Rank(items[i]) >= Rank(items[j])
  }

  function WithRank(items: seq<Item>, r: real): seq<Item> {
    if items == [] then [] else (if Rank(items[0]) == r then [items[0]] else []) + WithRank(items[1..], r)
  }

  lemma {:induction false} InsertElements(item: Item, ranked: seq<Item>)
    ensures multiset(Insert(item, ranked)) == multiset(ranked) + multiset{item}
  {
    if ranked != [] && Rank(ranked[0]) > Rank(item) {
      InsertElements(item, ranked[1..]);
      assert ranked == [ranked[0]] + ranked[1..];
    }
  }

  predicate AtMost(items: seq<Item>, r: real) {
    forall k :: 0 <= k < |items| ==> Rank(items[k]) <= r
  }

  lemma {:induction false} InsertAtMost(item: Item, ranked: seq<Item>, r: real)
    requires AtMost(ranked, r) && Rank(item) <= r
    ensures AtMost(Insert(item, ranked), r)
  {
    if ranked != [] && Rank(ranked[0]) > Rank(item) {
      InsertAtMost(item, ranked[1..], r);
    }
  }

  lemma {:induction false} InsertDescends(item: Item, ranked: seq<Item>)
    requires Descending(ranked)
    ensures Descending(Insert(item, ranked))
  {
    if ranked != [] && Rank(ranked[0]) > Rank(item) {
      InsertDescends(item, ranked[1..]);
      InsertAtMost(item, ranked[1..], Rank(ranked[0]));
    }
  }

  lemma {:induction false} InsertIsStable(item: Item, ranked: seq<Item>, r: real)
    ensures WithRank(Insert(item, ranked), r) == (if Rank(item) == r then [item] else []) + WithRank(ranked, r)
  {
    if ranked == [] || Rank(ranked[0]) <= Rank(item) {
      WithRankCons(item, ranked, r);
    } else {
      InsertIsStable(item, ranked[1..], r);
      WithRankCons(ranked[0], Insert(item, ranked[1..]), r);
    }
  }

  lemma WithRankCons(item: Item, rest: seq<Item>, r: real)
    ensures WithRank([item] + rest, r) == (if Rank(item) == r then [item] else []) + WithRank(rest, r)
  {
    assert ([item] + rest)[1..] == rest;
  }

  lemma {:induction false} RankedIsSorted(items: seq<Item>)
    ensures Descending(Ranked(items)) && multiset(Ranked(items)) == multiset(items)
  {
    if items != [] {
      RankedIsSorted(items[1..]);
      InsertDescends(items[0], Ranked(items[1..]));
      InsertElements(items[0], Ranked(items[1..]));
      assert items == [items[0]] + items[1..];
    }
  }

  lemma {:induction false} RankedIsStable(items: seq<Item>, r: real)
    ensures WithRank(Ranked(items), r) == WithRank(items, r)
  {
    if items != [] {
      RankedIsSorted(items[1..]);
      RankedIsStable(items[1..], r);
      InsertIsStable(items[0], Ranked(items[1..]), r);
    }
  }

  /** The ranking is a stable descending sort: items of one rank keep their order. */
  lemma RankedIsStableSort(items: seq<Item>)
    ensures Descending(Ranked(items)) && multiset(Ranked(items)) == multiset(items)
    ensures forall r :: WithRank(Ranked(items), r) == WithRank(items, r)
  {
    RankedIsSorted(items);
    forall r ensures WithRank(Ranked(items), r) == WithRank(items, r) {
      RankedIsStable(items, r);
    }
  }

  /** What an item is ranked by: its score, without one its search score, without either nothing. */
  predicate RanksAt(item: Item, r: real) {
    || item.score == Some(r)
    || (item.score.None? && item.searchScore == Some(r))
    || (item.score.None? && item.searchScore.None? && r == 0.0)
  }

  /** The higher an item scores the further in front it stands, and items that score alike keep their order. */
  lemma RankedByScore(items: seq<Item>, i: nat, j: nat, x: real, y: real)
    requires i < j < |Ranked(items)| && RanksAt(Ranked(items)[i], x) && RanksAt(Ranked(items)[j], y)
    ensures x >= y
    ensures WithRank(Ranked(items), x) == WithRank(items, x)
    ensures forall item :: item in WithRank(items, x) <==> item in items && RanksAt(item, x)
  {
    RankedIsSorted(items);
    RankedIsStable(items, x);
    forall item ensures item in WithRank(items, x) <==> item in items && RanksAt(item, x) {
      WithRankIs(items, x, item);
    }
  }

  lemma {:induction false} WithRankIs(items: seq<Item>, r: real, item: Item)
    ensures item in WithRank(items, r) <==> item in items && RanksAt(item, r)
  {
    if items != [] {
      WithRankIs(items[1..], r, item);
    }
  }

  // ---------------------------------------------------------------- the search

  class Search {
    const sv: Semver
    var merged: seq<Item>
    var candidates: nat

    constructor (sv: Semver)
      ensures this.sv == sv && merged == [] && candidates == 0
    {
      this.sv := sv;
      merged, candidates := [], 0;
    }

    /** append: false when the candidate budget is exhausted, before anything is merged. */
    method Append(items: seq<Item>) returns (ok: bool, ranked: seq<Item>)
      modifies this
      ensures candidates == old(candidates) + |items|
      ensures ok <==> candidates <= SEARCH_MAX_CANDIDATES
      ensures merged == if ok then MergeAll(sv, old(merged), items) else old(merged)
      ensures ok ==> ranked == Ranked(merged)
    {
      ranked := [];
      candidates := candidates + |items|;
      if candidates > SEARCH_MAX_CANDIDATES {
        return false, [];
      }
      for i := 0 to |items|
        invariant merged == MergeAll(sv, old(merged), items[..i])
        invariant candidates == old(candidates) + |items|
      {
        var item := items[i];
        var at := IndexOf(merged, item.name);
        if at < 0 {
          merged := merged + [item];
        } else if item.version != merged[at].version && IsNewerVersion(sv, item.version, merged[at].version) {
          var previous := merged[at];
          var shadowing := item;
          if item.visibility.None? {
            shadowing := shadowing.(visibility := previous.visibility);
          }
          if item.score.None? && item.searchScore.None? {
            shadowing := shadowing.(score := previous.score, searchScore := previous.searchScore);
          }
          merged := merged[at := shadowing];
        }
        assert items[..i + 1][..i] == items[..i];
      }
      assert items[..|items|] == items;
      ok, ranked := true, Ranked(merged);
    }
  }

  function Concat(rounds: seq<seq<Item>>): seq<Item> {
    if rounds == [] then [] else Concat(rounds[..|rounds| - 1]) + rounds[|rounds| - 1]
  }

  /** The merged map after the local hits and the first n rounds. */
  function MergedAfter(sv: Semver, local: seq<Item>, rounds: seq<seq<Item>>, n: nat): seq<Item>
    requires n <= |rounds|
  {
    MergeAll(sv, [], local + Concat(rounds[..n]))
  }

  /** One ranked list per round: everything merged so far, best score first. */
  function ListsAfter(sv: Semver, local: seq<Item>, rounds: seq<seq<Item>>, n: nat): (lists: seq<seq<Item>>)
    requires n <= |rounds|
    ensures |lists| == n
    ensures forall i :: 0 <= i < n ==> lists[i] == Ranked(MergedAfter(sv, local, rounds, i + 1))
  {
    if n == 0 then [] else ListsAfter(sv, local, rounds, n - 1) + [Ranked(MergedAfter(sv, local, rounds, n))]
  }

  /** The candidates counted after the local hits and the first n rounds. */
  function CountAfter(local: seq<Item>, rounds: seq<seq<Item>>, n: nat): nat
    requires n <= |rounds|
  {
    |local| + |Concat(rounds[..n])|
  }

  /**
   * The generator: the list it yields after each round, and whether it got through all of
   * them. Without any round (no uplinks) it yields the local hits once, unranked.
   */
  method SearchPages(sv: Semver, local: seq<Item>, rounds: seq<seq<Item>>) returns (ok: bool, lists: seq<seq<Item>>)
    ensures ok <==> CountAfter(local, rounds, |rounds|) <= SEARCH_MAX_CANDIDATES
    ensures ok ==> |lists| == if rounds == [] then 1 else |rounds|
    ensures rounds != [] ==> |lists| <= |rounds| && lists == ListsAfter(sv, local, rounds, |lists|)
    ensures ok && rounds == [] ==> lists == [MergeAll(sv, [], local)]
  {
    var search := new Search(sv);
    var ranked: seq<Item>;
    ok, ranked := search.Append(local);
    lists := [];
    Starts(sv, local, rounds);
    CountGrows(local, rounds, 0);
    if !ok {
      return;
    }
    for r := 0 to |rounds|
      invariant ok && search.sv == sv
      invariant search.candidates == CountAfter(local, rounds, r) <= SEARCH_MAX_CANDIDATES
      invariant search.merged == MergedAfter(sv, local, rounds, r)
      invariant lists == ListsAfter(sv, local, rounds, r)
    {
      NextRound(sv, local, rounds, r);
      CountGrows(local, rounds, r + 1);
      ok, ranked := search.Append(rounds[r]);
      if !ok {
        return;
      }
      lists := lists + [ranked];
    }
    if rounds == [] {
      lists := [search.merged];
    }
  }

  lemma Starts(sv: Semver, local: seq<Item>, rounds: seq<seq<Item>>)
    ensures MergedAfter(sv, local, rounds, 0) == MergeAll(sv, [], local)
    ensures CountAfter(local, rounds, 0) == |local|
  {
    assert local + Concat(rounds[..0]) == local;
  }

  lemma ConcatNext(rounds: seq<seq<Item>>, n: nat)
    requires n < |rounds|
    ensures Concat(rounds[..n + 1]) == Concat(rounds[..n]) + rounds[n]
  {
    assert rounds[..n + 1][..n] == rounds[..n];
  }

  lemma NextRound(sv: Semver, local: seq<Item>, rounds: seq<seq<Item>>, n: nat)
    requires n < |rounds|
    ensures MergedAfter(sv, local, rounds, n + 1) == MergeAll(sv, MergedAfter(sv, local, rounds, n), rounds[n])
    ensures CountAfter(local, rounds, n + 1) == CountAfter(local, rounds, n) + |rounds[n]|
  {
    ConcatNext(rounds, n);
    MergeInTwo(sv, [], local + Concat(rounds[..n]), rounds[n]);
    assert local + Concat(rounds[..n]) + rounds[n] == local + (Concat(rounds[..n]) + rounds[n]);
  }

  lemma {:induction false} CountGrows(local: seq<Item>, rounds: seq<seq<Item>>, n: nat)
    requires n <= |rounds|
    ensures CountAfter(local, rounds, n) <= CountAfter(local, rounds, |rounds|)
    decreases |rounds| - n
  {
    if n < |rounds| {
      ConcatNext(rounds, n);
      CountGrows(local, rounds, n + 1);
    }
  }

  // ---------------------------------------------------------------- name by name

  function Named(items: seq<Item>, name: string): seq<Item> {
    if items == [] then []
    else Named(items[..|items| - 1], name) + (if items[|items| - 1].name == name then [items[|items| - 1]] else [])
  }

  /** What one name's candidates, in order of arrival, amount to. */
  function Kept(sv: Semver, candidates: seq<Item>): Item
    requires candidates != []
  {
    var last := candidates[|candidates| - 1];
    if |candidates| == 1 then last
    else
      var previous := Kept(sv, candidates[..|candidates| - 1]);
      if Replaces(sv, last, previous) then Inherit(last, previous) else previous
  }

  predicate DistinctNames(items: seq<Item>) {
    forall i, j :: 0 <= i < j < |items| ==> items[i].name != items[j].name
  }

  lemma {:induction false} MergeOneLooksUp(sv: Semver, merged: seq<Item>, item: Item, name: string)
    requires DistinctNames(merged)
    ensures var after := MergeOne(sv, merged, item);
            var i, j := IndexOf(merged, name), IndexOf(after, name);
            && DistinctNames(after)
            && (if name != item.name then (i < 0 <==> j < 0) && (i >= 0 ==> after[j] == merged[i])
                else if i < 0 then j >= 0 && after[j] == item
                else
                  && j >= 0
                  && after[j] == if Replaces(sv, item, merged[i]) then Inherit(item, merged[i]) else merged[i])
  {
    var after := MergeOne(sv, merged, item);
    var at := IndexOf(merged, item.name);
    if at < 0 {
      assert after[|merged|] == item;
      assert forall k :: 0 <= k < |merged| ==> after[k] == merged[k];
    } else {
      assert forall k :: 0 <= k < |merged| ==> after[k].name == merged[k].name;
    }
  }

  lemma KeptOfLast(sv: Semver, before: seq<Item>, last: Item)
    ensures Kept(sv, before + [last])
            == if before == [] || Replaces(sv, last, Kept(sv, before))
               then if before == [] then last else Inherit(last, Kept(sv, before))
               else Kept(sv, before)
  {
    assert (before + [last])[..|before|] == before;
  }

  // The map's entry under a name is what the name's candidates amount to.
  ghost predicate EntryIsKept(sv: Semver, merged: seq<Item>, candidates: seq<Item>, name: string) {
    var i := IndexOf(merged, name);
    if i < 0 then candidates == [] else candidates != [] && merged[i] == Kept(sv, candidates)
  }

  lemma {:induction false} MergeOneKeeps(sv: Semver, merged: seq<Item>, candidates: seq<Item>, item: Item, name: string)
    requires DistinctNames(merged) && EntryIsKept(sv, merged, candidates, name)
    ensures DistinctNames(MergeOne(sv, merged, item))
    ensures EntryIsKept(sv, MergeOne(sv, merged, item),
                        if item.name == name then candidates + [item] else candidates, name)
  {
    MergeOneLooksUp(sv, merged, item, name);
    KeptOfLast(sv, candidates, item);
  }

  lemma {:induction false} MergedIsKept(sv: Semver, items: seq<Item>, name: string)
    ensures DistinctNames(MergeAll(sv, [], items))
    ensures EntryIsKept(sv, MergeAll(sv, [], items), Named(items, name), name)
  {
    if items != [] {
      var before, last := items[..|items| - 1], items[|items| - 1];
      MergedIsKept(sv, before, name);
      MergeOneKeeps(sv, MergeAll(sv, [], before), Named(before, name), last, name);
      assert Named(items, name) == if last.name == name then Named(before, name) + [last] else Named(before, name);
    }
  }

  // One more candidate does not make the kept one older.
  lemma KeptDoesNotAge(sv: Semver, candidates: seq<Item>)
    requires |candidates| > 1
    ensures var before, kept := Kept(sv, candidates[..|candidates| - 1]), Kept(sv, candidates);
            && (kept.version == before.version || kept.version == candidates[|candidates| - 1].version)
            && !StrictlyNewer(sv, candidates[|candidates| - 1].version, kept.version)
            && (forall v :: !StrictlyNewer(sv, v, before.version) ==> !StrictlyNewer(sv, v, kept.version))
  {
  }

  lemma {:induction false} KeptIsOneOf(sv: Semver, candidates: seq<Item>) returns (i: nat)
    requires candidates != []
    ensures i < |candidates| && candidates[i].version == Kept(sv, candidates).version
  {
    i := |candidates| - 1;
    if |candidates| > 1 {
      KeptDoesNotAge(sv, candidates);
      if candidates[i].version != Kept(sv, candidates).version {
        i := KeptIsOneOf(sv, candidates[..i]);
      }
    }
  }

  /** No candidate is newer than the kept one. */
  lemma {:induction false} KeptIsNotOlder(sv: Semver, candidates: seq<Item>, i: nat)
    requires i < |candidates|
    ensures !StrictlyNewer(sv, candidates[i].version, Kept(sv, candidates).version)
  {
    if |candidates| > 1 {
      KeptDoesNotAge(sv, candidates);
      if i < |candidates| - 1 {
        KeptIsNotOlder(sv, candidates[..|candidates| - 1], i);
      }
    }
  }

  /**
   * The kept version is valid, and so newest among the valid candidates, exactly when the
   * first candidate's was: an invalid first version is never replaced.
   */
  lemma {:induction false} KeptIsValidIfFirstIs(sv: Semver, candidates: seq<Item>)
    requires candidates != []
    ensures sv.Valid(Kept(sv, candidates).version) <==> sv.Valid(candidates[0].version)
    ensures !sv.Valid(candidates[0].version) ==> Kept(sv, candidates) == candidates[0]
  {
    if |candidates| > 1 {
      KeptIsValidIfFirstIs(sv, candidates[..|candidates| - 1]);
    }
  }

  function VersionsOf(candidates: seq<Item>): (versions: seq<string>)
    ensures |versions| == |candidates|
    ensures forall i :: 0 <= i < |candidates| ==> versions[i] == candidates[i].version
  {
    seq(|candidates|, i requires 0 <= i < |candidates| => candidates[i].version)
  }

  /** The kept version is a newest one among the candidates' exactly when the first candidate's is valid. */
  lemma KeptIsNewest(sv: Semver, candidates: seq<Item>)
    requires candidates != []
    ensures sv.IsNewest(Kept(sv, candidates).version, VersionsOf(candidates)) <==> sv.Valid(candidates[0].version)
  {
    KeptIsValidIfFirstIs(sv, candidates);
    var kept, versions := Kept(sv, candidates).version, VersionsOf(candidates);
    var i := KeptIsOneOf(sv, candidates);
    assert versions[i] == kept;
    forall j | 0 <= j < |versions| && sv.Valid(kept) && sv.Valid(versions[j])
      ensures sv.rank(versions[j]).value <= sv.rank(kept).value
    {
      KeptIsNotOlder(sv, candidates, j);
    }
  }

  /** The first candidate's visibility survives later ones that send none, and a score is never lost. */
  lemma {:induction false} KeptInherits(sv: Semver, candidates: seq<Item>)
    requires candidates != []
    ensures (forall i :: 0 < i < |candidates| ==> candidates[i].visibility.None?) ==>
              Kept(sv, candidates).visibility == candidates[0].visibility
    ensures HasScore(candidates[0]) ==> HasScore(Kept(sv, candidates))
  {
    if |candidates| > 1 {
      KeptInherits(sv, candidates[..|candidates| - 1]);
    }
  }


  /**
   * A yielded list, after any local hits and rounds (`items`, in order of arrival): best
   * score first, one entry for every name that arrived and no other, and each entry is what
   * its name's candidates amount to.
   */
  lemma {:induction false} RankedListIsComplete(sv: Semver, items: seq<Item>)
    ensures var list := Ranked(MergeAll(sv, [], items));
            && Descending(list) && DistinctNames(list)
            && (forall item :: item in list <==>
                Named(items, item.name) != [] && item == Kept(sv, Named(items, item.name)))
  {
    var merged := MergeAll(sv, [], items);
    var list := Ranked(merged);
    RankedIsStableSort(merged);
    MergedIsKept(sv, items, "");
    SortKeepsNamesDistinct(merged, list);
    forall item ensures item in list <==> Named(items, item.name) != [] && item == Kept(sv, Named(items, item.name)) {
      assert item in list <==> item in multiset(list);
      assert item in merged <==> item in multiset(merged);
      MergedIsKept(sv, items, item.name);
      var i := IndexOf(merged, item.name);
      if item in merged {
        var j :| 0 <= j < |merged| && merged[j] == item;
        assert merged[i].name == merged[j].name;
        assert i == j;
      }
      if i >= 0 {
        KeptHasName(sv, items, item.name);
      }
    }
  }

  lemma {:induction false} KeptHasName(sv: Semver, items: seq<Item>, name: string)
    requires Named(items, name) != []
    ensures Kept(sv, Named(items, name)).name == name
  {
    MergedIsKept(sv, items, name);
  }

  lemma {:induction false} SortKeepsNamesDistinct(a: seq<Item>, b: seq<Item>)
    requires multiset(a) == multiset(b) && DistinctNames(a)
    ensures DistinctNames(b)
  {
    forall i, j | 0 <= i < j < |b| ensures b[i].name != b[j].name {
      assert b == b[..i] + [b[i]] + b[i + 1..j] + [b[j]] + b[j + 1..];
      assert multiset{b[i], b[j]} <= multiset(a);
      assert b[i] in multiset(a) && b[j] in multiset(a);
      if b[i] == b[j] {
        CountsOnce(a, b[i]);
      } else {
        var k :| 0 <= k < |a| && a[k] == b[i];
        var l :| 0 <= l < |a| && a[l] == b[j];
        assert k != l;
      }
    }
  }

  lemma {:induction false} CountsOnce(a: seq<Item>, x: Item)
    requires DistinctNames(a)
    ensures multiset(a)[x] <= 1
  {
    if a != [] {
      assert a == [a[0]] + a[1..];
      CountsOnce(a[1..], x);
      assert x == a[0] ==> x !in a[1..];
    }
  }

  /** A name once listed stays listed in every later list. */
  lemma {:induction false} NamesAreNeverLost(sv: Semver, earlier: seq<Item>, more: seq<Item>, item: Item)
    requires item in Ranked(MergeAll(sv, [], earlier))
    ensures exists now :: now in Ranked(MergeAll(sv, [], earlier + more)) && now.name == item.name
  {
    RankedListIsComplete(sv, earlier);
    RankedListIsComplete(sv, earlier + more);
    NamedGrows(earlier, more, item.name);
    KeptHasName(sv, earlier + more, item.name);
    var now := Kept(sv, Named(earlier + more, item.name));
    assert now in Ranked(MergeAll(sv, [], earlier + more));
  }

  lemma {:induction false} NamedGrows(earlier: seq<Item>, more: seq<Item>, name: string)
    ensures Named(earlier + more, name) == Named(earlier, name) + Named(more, name)
  {
    if more == [] {
      assert earlier + more == earlier;
    } else {
      assert (earlier + more)[..|earlier + more| - 1] == earlier + more[..|more| - 1];
      NamedGrows(earlier, more[..|more| - 1], name);
    }
  }
}
