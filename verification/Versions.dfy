/**
 * Comparing version names (store/src/lib/versions-utils.ts). The semver library is an argument.
 */
module Versions {
  import opened Common

  /**
   * `rank` is the place of a valid version in the order of semver.compare, or none where semver.valid
   * gives null; `loose` says whether semver.parse accepts the name in its loose mode.
   */
  datatype Semver = Semver(rank: string -> Option<real>, loose: string -> bool) {
    predicate Valid(version: string) {
      rank(version).Some?
    }

    /** `version` is valid and no name of the list is a newer valid version. */
    ghost predicate IsNewest(version: string, names: seq<string>) {
      && version in names && Valid(version)
      && forall i :: 0 <= i < |names| && Valid(names[i]) ==> rank(names[i]).value <= rank(version).value
    }
  }

  /** isNewerVersion: at least as new, and false as soon as one of the two is not valid. */
  predicate IsNewerVersion(sv: Semver, newVersion: string, oldVersion: string) {
    sv.Valid(newVersion) && sv.Valid(oldVersion) && sv.rank(newVersion).value >= sv.rank(oldVersion).value
  }

  /** Folding a list from the left: the name kept so far stays when it counts as newer than the next one. */
  function Reduced(sv: Semver, names: seq<string>): (r: string)
    requires names != []
    ensures r in names
  {
    var last := names[|names| - 1];
    if |names| == 1 then last
    else
      var a := Reduced(sv, names[..|names| - 1]);
      if IsNewerVersion(sv, a, last) then a else last
  }

  // No name from index `i` on is invalid.
  ghost predicate ValidFrom(sv: Semver, names: seq<string>, i: nat) {
    forall j :: i <= j < |names| ==> sv.Valid(names[j])
  }

  // `at` is the place of a best name behind the last invalid one, or of the last name when that is invalid.
  ghost predicate BestOfTheEnd(sv: Semver, names: seq<string>, at: nat) {
    && at < |names|
    && (sv.Valid(names[at]) <==> sv.Valid(names[|names| - 1]))
    && (sv.Valid(names[at]) ==> ValidFrom(sv, names, at))
    && (forall i :: 0 <= i < |names| && ValidFrom(sv, names, i) ==>
          sv.Valid(names[at]) && sv.rank(names[i]).value <= sv.rank(names[at]).value)
  }

  lemma ValidFromInit(sv: Semver, names: seq<string>, i: nat)
    requires i < |names| - 1
    ensures ValidFrom(sv, names, i) <==> ValidFrom(sv, names[..|names| - 1], i) && sv.Valid(names[|names| - 1])
  {
    var init := names[..|names| - 1];
    if ValidFrom(sv, names, i) {
      forall j | i <= j < |init| ensures sv.Valid(init[j]) {
        assert init[j] == names[j];
      }
    } else {
      var j :| i <= j < |names| && !sv.Valid(names[j]);
      assert j < |init| ==> init[j] == names[j];
    }
  }

  // The name before the last stays when it is at least as new as the last.
  lemma BestStays(sv: Semver, names: seq<string>, a: nat)
    requires |names| > 1 && BestOfTheEnd(sv, names[..|names| - 1], a)
             && IsNewerVersion(sv, names[a], names[|names| - 1])
    ensures BestOfTheEnd(sv, names, a)
  {
    var init, last := names[..|names| - 1], |names| - 1;
    assert init[a] == names[a];
    ValidFromInit(sv, names, a);
    forall i | 0 <= i < |names| && ValidFrom(sv, names, i) ensures sv.rank(names[i]).value <= sv.rank(names[a]).value {
      if i < last {
        ValidFromInit(sv, names, i);
        assert init[i] == names[i];
      }
    }
  }

  // Otherwise the last one takes over.
  lemma LastTakesOver(sv: Semver, names: seq<string>, a: nat)
    requires |names| > 1 && BestOfTheEnd(sv, names[..|names| - 1], a)
             && !IsNewerVersion(sv, names[a], names[|names| - 1])
    ensures BestOfTheEnd(sv, names, |names| - 1)
  {
    var init, last := names[..|names| - 1], |names| - 1;
    assert init[a] == names[a];
    forall i | 0 <= i < |names| && ValidFrom(sv, names, i)
      ensures sv.Valid(names[last]) && sv.rank(names[i]).value <= sv.rank(names[last]).value
    {
      if i < last {
        ValidFromInit(sv, names, i);
        assert init[i] == names[i];
      }
    }
  }

  lemma {:induction false} ReducedIsBestOfTheEnd(sv: Semver, names: seq<string>) returns (at: nat)
    requires names != []
    ensures BestOfTheEnd(sv, names, at) && names[at] == Reduced(sv, names)
  {
    at := |names| - 1;
    if |names| > 1 {
      var a := ReducedIsBestOfTheEnd(sv, names[..|names| - 1]);
      if IsNewerVersion(sv, names[a], names[at]) {
        BestStays(sv, names, a);
        at := a;
      } else {
        LastTakesOver(sv, names, a);
      }
    }
  }

  // A newest valid version stands behind every name that is not a version.
  ghost predicate NewestStandsLast(sv: Semver, names: seq<string>) {
    exists i :: 0 <= i < |names| && sv.IsNewest(names[i], names) && ValidFrom(sv, names, i)
  }

  /** The reduction picks a newest version exactly when one is listed behind every name semver rejects. */
  lemma ReducedIsNewest(sv: Semver, names: seq<string>)
    requires names != []
    ensures sv.IsNewest(Reduced(sv, names), names) <==> NewestStandsLast(sv, names)
  {
    var at := ReducedIsBestOfTheEnd(sv, names);
    if NewestStandsLast(sv, names) {
      var i :| 0 <= i < |names| && sv.IsNewest(names[i], names) && ValidFrom(sv, names, i);
      assert sv.rank(names[i]).value <= sv.rank(names[at]).value;
    }
  }

  lemma {:induction false} SomeNewest(sv: Semver, names: seq<string>) returns (i: nat)
    requires names != [] && ValidFrom(sv, names, 0)
    ensures i < |names| && sv.IsNewest(names[i], names)
  {
    i := ReducedIsBestOfTheEnd(sv, names);
    assert forall j :: 0 <= j < |names| ==> ValidFrom(sv, names, j);
  }

  /** Among valid versions alone the reduction always picks a newest one. */
  lemma ReducedOfValidIsNewest(sv: Semver, names: seq<string>)
    requires names != [] && ValidFrom(sv, names, 0)
    ensures sv.IsNewest(Reduced(sv, names), names)
  {
    var i := SomeNewest(sv, names);
    assert ValidFrom(sv, names, i);
    ReducedIsNewest(sv, names);
  }

  /** Of several newest versions it picks the one listed first. */
  lemma {:induction false} ReducedIsFirst(sv: Semver, names: seq<string>) returns (i: nat)
    requires names != [] && ValidFrom(sv, names, 0)
    ensures i < |names| && names[i] == Reduced(sv, names)
    ensures forall j :: 0 <= j < i ==> sv.rank(names[j]).value < sv.rank(names[i]).value
    ensures forall j :: i < j < |names| ==> sv.rank(names[j]).value <= sv.rank(names[i]).value
  {
    var init, last := names[..|names| - 1], names[|names| - 1];
    if init == [] {
      i := 0;
    } else {
      assert forall j :: 0 <= j < |init| ==> init[j] == names[j];
      assert ValidFrom(sv, init, 0);
      i := ReducedIsFirst(sv, init);
      if !IsNewerVersion(sv, init[i], last) {
        i := |init|;
      }
    }
  }

  /** One name that is no version hides the newer versions listed before it. */
  lemma InvalidNameHidesNewer(sv: Semver, newer: string, bad: string, older: string)
    requires sv.Valid(newer) && sv.Valid(older) && !sv.Valid(bad) && sv.rank(newer).value > sv.rank(older).value
    ensures Reduced(sv, [newer, bad, older]) == older && !sv.IsNewest(older, [newer, bad, older])
  {
    var names := [newer, bad, older];
    assert names[..2] == [newer, bad] && names[..2][..1] == [newer];
    assert names[0] == newer;
  }
}
