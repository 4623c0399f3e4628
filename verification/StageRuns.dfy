/**
 * Staged publishing without interference: what each of the calls comes to when nothing fails
 * and no other call moves in between.
 */
module StageRuns {
  import opened Common
  import opened StageStorage

  function Next(s: State, p: nat): State {
    Apply(s, Step(p, Succeeds))
  }

  /** n steps of a process that all succeed. */
  function Steps(s: State, p: nat, n: nat): State
    decreases n
  {
    if n == 0 then s else Steps(Next(s, p), p, n - 1)
  }

  /** The call, then n steps of its process that all succeed. */
  function Alone(s: State, call: Action, n: nat): State {
    Steps(Apply(s, call), |s.procs|, n)
  }

  lemma {:induction false} StepsAreRun(acts: seq<Action>, p: nat, n: nat)
    ensures Steps(Exec(EMPTY, acts), p, n) == Exec(EMPTY, acts + seq(n, _ => Step(p, Succeeds)))
    decreases n
  {
    var steps := seq(n, _ => Step(p, Succeeds));
    if n == 0 {
      assert acts + steps == acts;
    } else {
      var next := acts + [Step(p, Succeeds)];
      assert next[..|acts|] == acts;
      StepsAreRun(next, p, n - 1);
      assert next + seq(n - 1, _ => Step(p, Succeeds)) == acts + steps;
    }
  }

  /** So a call alone is the end of a run. */
  lemma AloneIsRun(acts: seq<Action>, call: Action, n: nat)
    ensures Alone(Exec(EMPTY, acts), call, n)
         == Exec(EMPTY, acts + [call] + seq(n, _ => Step(|Exec(EMPTY, acts).procs|, Succeeds)))
  {
    assert (acts + [call])[..|acts|] == acts;
    StepsAreRun(acts + [call], |Exec(EMPTY, acts).procs|, n);
  }

  // ---------------------------------------------------------------- one step of each kind

  lemma NextOfRemoveFolder(s: State, p: nat, r: Record, purpose: Purpose)
    requires p < |s.procs| && s.procs[p] == RemoveFolder(r, purpose)
    ensures Next(s, p) == s.(procs := s.procs[p := RemoveDone(Some(Removal(r.id, purpose)))],
                             documents := s.documents - {r.id},
                             tarballs := set f | f in s.tarballs && f.0 != r.id)
  {
  }

  lemma NextOfRemoveDocument(s: State, p: nat, r: Record, purpose: Purpose)
    requires p < |s.procs| && s.procs[p] == RemoveDocument(r, purpose)
    ensures Next(s, p) == s.(procs := s.procs[p := RemoveFolder(r, purpose)], documents := s.documents - {r.id})
  {
  }

  lemma NextOfRemoveTarball(s: State, p: nat, r: Record, purpose: Purpose)
    requires p < |s.procs| && s.procs[p] == RemoveTarball(r, purpose)
    ensures Next(s, p) == s.(procs := s.procs[p := RemoveDocument(r, purpose)],
                             tarballs := s.tarballs - {(r.id, r.tarballFilename)})
  {
  }

  lemma NextOfRemoveIndex(s: State, p: nat, r: Record, items: seq<Record>, purpose: Purpose)
    requires p < |s.procs| && s.procs[p] == RemoveIndex(r, items, purpose) && s.queue == [p]
    ensures var t := Next(s, p);
            && t.procs == s.procs[p := RemoveTarball(r, purpose)] && t.queue == []
            && t.index == Without(items, {r.id}) && t.published == s.published
            && t.documents == s.documents && t.tarballs == s.tarballs
  {
  }

  lemma NextOfRemoveQueued(s: State, p: nat, r: Record, purpose: Purpose)
    requires p < |s.procs| && s.procs[p] == RemoveQueued(r, purpose) && s.queue == [p]
    ensures Next(s, p) == s.(procs := s.procs[p := RemoveIndex(r, s.index, purpose)])
  {
  }

  lemma NextOfRemoveLookup(s: State, p: nat, r: Record, purpose: Purpose)
    requires p < |s.procs| && s.procs[p] == RemoveLookup(r.id, purpose) && Find(s.index, r.id) == Some(r)
    ensures Next(s, p) == s.(procs := s.procs[p := RemoveQueued(r, purpose)], queue := s.queue + [p])
  {
  }

  // ---------------------------------------------------------------- removing

  // The record has left the index, its document and its tarball are deleted.
  ghost predicate Gone(s: State, t: State, r: Record) {
    && t.index == Without(s.index, {r.id})
    && t.documents == s.documents - {r.id}
    && t.tarballs == (set f | f in s.tarballs && f.0 != r.id)
    && t.queue == []
  }

  lemma FilesGo(s: State, p: nat, r: Record, purpose: Purpose)
    requires p < |s.procs| && s.procs[p] == RemoveTarball(r, purpose)
    ensures var t := Steps(s, p, 3);
            && t.procs == s.procs[p := RemoveDone(Some(Removal(r.id, purpose)))]
            && t.index == s.index && t.queue == s.queue && t.published == s.published
            && t.documents == s.documents - {r.id}
            && t.tarballs == (set f | f in s.tarballs && f.0 != r.id)
  {
    var t1 := Next(s, p);
    NextOfRemoveTarball(s, p, r, purpose);
    var t2 := Next(t1, p);
    NextOfRemoveDocument(t1, p, r, purpose);
    var t3 := Next(t2, p);
    NextOfRemoveFolder(t2, p, r, purpose);
    ThreeSteps(s, p, t1, t2, t3);
  }

  lemma ThreeSteps(s: State, p: nat, t1: State, t2: State, t3: State)
    requires t1 == Next(s, p) && t2 == Next(t1, p) && t3 == Next(t2, p)
    ensures Steps(s, p, 3) == t3
  {
    assert Steps(t3, p, 0) == t3;
    assert Steps(t2, p, 1) == t3;
    assert Steps(t1, p, 2) == t3;
  }

  lemma {:induction false} StepsOfSteps(s: State, p: nat, n: nat, m: nat)
    ensures Steps(Steps(s, p, n), p, m) == Steps(s, p, n + m)
    decreases n
  {
    if n > 0 {
      StepsOfSteps(Next(s, p), p, n - 1, m);
    }
  }

  lemma IndexGoes(s: State, p: nat, r: Record, purpose: Purpose)
    requires s.queue == [] && Find(s.index, r.id) == Some(r)
    requires p < |s.procs| && s.procs[p] == RemoveLookup(r.id, purpose)
    ensures var t := Steps(s, p, 3);
            && t.procs == s.procs[p := RemoveTarball(r, purpose)] && t.queue == []
            && t.index == Without(s.index, {r.id}) && t.published == s.published
            && t.documents == s.documents && t.tarballs == s.tarballs
  {
    var t1 := Next(s, p);
    NextOfRemoveLookup(s, p, r, purpose);
    var t2 := Next(t1, p);
    NextOfRemoveQueued(t1, p, r, purpose);
    var t3 := Next(t2, p);
    NextOfRemoveIndex(t2, p, r, s.index, purpose);
    ThreeSteps(s, p, t1, t2, t3);
  }

  lemma RemovalAlone(s: State, p: nat, r: Record, purpose: Purpose)
    requires s.queue == [] && Find(s.index, r.id) == Some(r)
    requires p < |s.procs| && s.procs[p] == RemoveLookup(r.id, purpose)
    ensures var t := Steps(s, p, 6);
            && Gone(s, t, r) && t.published == s.published
            && t.procs == s.procs[p := RemoveDone(Some(Removal(r.id, purpose)))]
  {
    IndexGoes(s, p, r, purpose);
    FilesGo(Steps(s, p, 3), p, r, purpose);
    StepsOfSteps(s, p, 3, 3);
  }

  /** The record is gone, index entry, document and tarball, and every other record has kept what it had. */
  ghost predicate OnlyGone(s: State, t: State, r: Record) {
    && (forall x :: x in t.index <==> x in s.index && x != r)
    && (forall id :: id in t.documents <==> id in s.documents && id != r.id)
    && (forall id :: id in t.documents ==> t.documents[id] == s.documents[id])
    && (forall f: (Id, string) :: f in t.tarballs <==> f in s.tarballs && f.0 != r.id)
  }

  // Ids are unique in the index.
  ghost predicate DistinctIds(items: seq<Record>) {
    forall i, j :: 0 <= i < j < |items| ==> items[i].id != items[j].id
  }

  lemma SameRecord(items: seq<Record>, a: Record, b: Record)
    requires DistinctIds(items) && a in items && b in items && a.id == b.id
    ensures a == b
  {
    var i :| 0 <= i < |items| && items[i] == a;
    var j :| 0 <= j < |items| && items[j] == b;
  }

  lemma IdsAreDistinct(acts: seq<Action>)
    ensures DistinctIds(Exec(EMPTY, acts).index)
  {
    var index := Exec(EMPTY, acts).index;
    forall i, j | 0 <= i < j < |index| ensures index[i].id != index[j].id {
      IndexedRecordsAreDistinct(acts, i, j);
    }
  }

  lemma FoundInIndex(items: seq<Record>, r: Record)
    requires DistinctIds(items) && r in items
    ensures Find(items, r.id) == Some(r)
  {
    FindIs(items, r.id);
    var i :| 0 <= i < |items| && items[i] == r;
    if Find(items, r.id).Some? {
      SameRecord(items, r, Find(items, r.id).value);
    }
  }

  lemma GoneIsOnlyGone(s: State, t: State, r: Record)
    requires DistinctIds(s.index) && r in s.index && Gone(s, t, r)
    ensures OnlyGone(s, t, r)
  {
    forall x ensures x in t.index <==> x in s.index && x != r {
      WithoutIs(s.index, {r.id}, x);
      if x in s.index && x.id == r.id {
        SameRecord(s.index, x, r);
      }
    }
  }

  // ---------------------------------------------------------------- approving

  lemma NextOfApproveLookup(s: State, p: nat, r: Record)
    requires p < |s.procs| && s.procs[p] == ApproveLookup(r.id) && Find(s.index, r.id) == Some(r)
    ensures Next(s, p) == s.(procs := s.procs[p := ApproveDocument(r)])
  {
  }

  lemma NextOfApproveDocument(s: State, p: nat, r: Record)
    requires p < |s.procs| && s.procs[p] == ApproveDocument(r) && r.id in s.documents
    ensures Next(s, p) == s.(procs := s.procs[p := ApproveTarball(r)])
  {
  }

  lemma NextOfApproveTarball(s: State, p: nat, r: Record)
    requires p < |s.procs| && s.procs[p] == ApproveTarball(r) && Find(s.index, r.id) == Some(r)
    ensures Next(s, p) == s.(procs := s.procs[p := ApproveStream(r)])
  {
  }

  lemma NextOfApproveStream(s: State, p: nat, r: Record)
    requires p < |s.procs| && s.procs[p] == ApproveStream(r) && HasTarball(s, r)
    ensures Next(s, p) == s.(procs := s.procs[p := ApprovePublish(r)])
  {
  }

  lemma NextOfApprovePublish(s: State, p: nat, r: Record)
    requires p < |s.procs| && s.procs[p] == ApprovePublish(r) && r.release !in s.published
    ensures Next(s, p) == s.(procs := s.procs[p := RemoveLookup(r.id, Published(r))],
                             published := s.published + {r.release})
  {
  }

  // The record is found in the index, backed, and its release is not published.
  ghost predicate Approvable(s: State, r: Record) {
    Find(s.index, r.id) == Some(r) && HasDocument(s, r) && HasTarball(s, r) && r.release !in s.published
  }

  lemma ApproveReads(s: State, p: nat, r: Record)
    requires p < |s.procs| && s.procs[p] == ApproveLookup(r.id) && Approvable(s, r)
    ensures Steps(s, p, 3) == s.(procs := s.procs[p := ApproveStream(r)])
  {
    var t1 := Next(s, p);
    NextOfApproveLookup(s, p, r);
    var t2 := Next(t1, p);
    NextOfApproveDocument(t1, p, r);
    var t3 := Next(t2, p);
    NextOfApproveTarball(t2, p, r);
    ThreeSteps(s, p, t1, t2, t3);
  }

  lemma ApprovePublishes(s: State, p: nat, r: Record)
    requires p < |s.procs| && s.procs[p] == ApproveStream(r) && Approvable(s, r)
    ensures Steps(s, p, 2) == s.(procs := s.procs[p := RemoveLookup(r.id, Published(r))],
                                 published := s.published + {r.release})
  {
    var t1 := Next(s, p);
    NextOfApproveStream(s, p, r);
    var t2 := Next(t1, p);
    NextOfApprovePublish(t1, p, r);
    assert Steps(t2, p, 0) == t2;
    assert Steps(t1, p, 1) == t2;
  }

  lemma ApproveFrom(s: State, p: nat, r: Record)
    requires p < |s.procs| && s.procs[p] == ApproveLookup(r.id) && Approvable(s, r) && s.queue == []
    ensures var t := Steps(s, p, 11);
            && Gone(s, t, r) && t.published == s.published + {r.release}
            && t.procs == s.procs[p := RemoveDone(Some(Removal(r.id, Published(r))))]
  {
    ApproveReads(s, p, r);
    ApprovePublishes(Steps(s, p, 3), p, r);
    StepsOfSteps(s, p, 3, 2);
    RemovalAlone(Steps(s, p, 5), p, r, Published(r));
    StepsOfSteps(s, p, 5, 6);
  }

  /**
   * Approving a staged version that is not published yet, when nothing fails or interferes: the
   * version is published, and its staged copy is gone.
   */
  lemma ApproveAlone(acts: seq<Action>, r: Record)
    requires r in Exec(EMPTY, acts).index && Exec(EMPTY, acts).queue == []
    requires r.release !in Exec(EMPTY, acts).published
    ensures var s := Exec(EMPTY, acts);
            var t := Alone(s, CallApprove(r.id), 11);
            && t.published == s.published + {r.release} && OnlyGone(s, t, r)
            && t.procs == s.procs + [RemoveDone(Some(Removal(r.id, Published(r))))]
  {
    var s := Exec(EMPTY, acts);
    IdsAreDistinct(acts);
    FoundInIndex(s.index, r);
    IndexedRecordsAreBacked(acts, r);
    ApproveFrom(Apply(s, CallApprove(r.id)), |s.procs|, r);
    GoneIsOnlyGone(s, Alone(s, CallApprove(r.id), 11), r);
  }

  // ---------------------------------------------------------------- rejecting and adding

  lemma NextOfRejectLookup(s: State, p: nat, r: Record)
    requires p < |s.procs| && s.procs[p] == RejectLookup(r.id) && Find(s.index, r.id) == Some(r)
    ensures Next(s, p) == s.(procs := s.procs[p := RemoveLookup(r.id, Reject)])
  {
  }

  lemma RejectFrom(s: State, p: nat, r: Record)
    requires p < |s.procs| && s.procs[p] == RejectLookup(r.id) && Find(s.index, r.id) == Some(r) && s.queue == []
    ensures var t := Steps(s, p, 7);
            && Gone(s, t, r) && t.published == s.published
            && t.procs == s.procs[p := RemoveDone(Some(Removal(r.id, Reject)))]
  {
    NextOfRejectLookup(s, p, r);
    RemovalAlone(Next(s, p), p, r, Reject);
  }

  /** Rejecting a staged version, when nothing fails or interferes: the staged copy is gone and nothing is published. */
  lemma RejectAlone(acts: seq<Action>, r: Record)
    requires r in Exec(EMPTY, acts).index && Exec(EMPTY, acts).queue == []
    ensures var s := Exec(EMPTY, acts);
            var t := Alone(s, CallReject(r.id), 7);
            && t.published == s.published && OnlyGone(s, t, r)
            && t.procs == s.procs + [RemoveDone(Some(Removal(r.id, Reject)))]
  {
    var s := Exec(EMPTY, acts);
    IdsAreDistinct(acts);
    FoundInIndex(s.index, r);
    RejectFrom(Apply(s, CallReject(r.id)), |s.procs|, r);
    GoneIsOnlyGone(s, Alone(s, CallReject(r.id), 7), r);
  }

  lemma NextOfAddQueued(s: State, p: nat, r: Record)
    requires p < |s.procs| && s.procs[p] == AddQueued(r) && s.queue == [p]
    ensures Next(s, p) == if Staged(s.index, r.release) then s.(procs := s.procs[p := AddFailed], queue := [])
                          else s.(procs := s.procs[p := AddTarball(r, s.index)])
  {
  }

  lemma NextOfAddTarball(s: State, p: nat, r: Record, items: seq<Record>)
    requires p < |s.procs| && s.procs[p] == AddTarball(r, items) && s.queue == [p]
    ensures Next(s, p) == s.(procs := s.procs[p := AddDocument(r, items)],
                             tarballs := s.tarballs + {(r.id, r.tarballFilename)})
  {
  }

  lemma NextOfAddDocument(s: State, p: nat, r: Record, items: seq<Record>)
    requires p < |s.procs| && s.procs[p] == AddDocument(r, items) && s.queue == [p]
    ensures Next(s, p) == s.(procs := s.procs[p := AddIndex(r, items)], documents := s.documents[r.id := r])
  {
  }

  lemma NextOfAddIndex(s: State, p: nat, r: Record, items: seq<Record>)
    requires p < |s.procs| && s.procs[p] == AddIndex(r, items) && s.queue == [p]
    ensures var t := Next(s, p);
            && t.procs == s.procs[p := AddDone(r)] && t.queue == [] && t.index == [r] + items
            && t.documents == s.documents && t.tarballs == s.tarballs && t.published == s.published
  {
  }

  lemma AddFrom(s: State, p: nat, r: Record)
    requires p < |s.procs| && s.procs[p] == AddQueued(r) && s.queue == [p] && !Staged(s.index, r.release)
    ensures var t := Steps(s, p, 4);
            && t.procs == s.procs[p := AddDone(r)] && t.queue == [] && t.index == [r] + s.index
            && t.documents == s.documents[r.id := r] && t.tarballs == s.tarballs + {(r.id, r.tarballFilename)}
            && t.published == s.published
  {
    var t1 := Next(s, p);
    NextOfAddQueued(s, p, r);
    var t2 := Next(t1, p);
    NextOfAddTarball(t1, p, r, s.index);
    var t3 := Next(t2, p);
    NextOfAddDocument(t2, p, r, s.index);
    var t4 := Next(t3, p);
    NextOfAddIndex(t3, p, r, s.index);
    ThreeSteps(t1, p, t2, t3, t4);
  }

  /**
   * Adding, when nothing fails or interferes: a release that is not staged yet gets its record in
   * front of the index, with document and tarball; a staged one is refused and nothing changes.
   */
  lemma AddAlone(s: State, release: Release, name: string, payload: nat)
    requires s.queue == []
    ensures var r, call := Record(|s.procs|, release, name, payload), CallAdd(release, name, payload, true);
            if Staged(s.index, release) then Alone(s, call, 1) == s.(procs := s.procs + [AddFailed])
            else
              var t := Alone(s, call, 4);
              && t.procs == s.procs + [AddDone(r)] && t.queue == [] && t.index == [r] + s.index
              && t.documents == s.documents[r.id := r] && t.tarballs == s.tarballs + {(r.id, name)}
              && t.published == s.published
  {
    var r, t0 := Record(|s.procs|, release, name, payload), Apply(s, CallAdd(release, name, payload, true));
    if Staged(s.index, release) {
      NextOfAddQueued(t0, |s.procs|, r);
      assert Steps(Next(t0, |s.procs|), |s.procs|, 0) == Next(t0, |s.procs|);
    } else {
      AddFrom(t0, |s.procs|, r);
    }
  }

  /** Unpublishing takes the release out of what is published, and nothing else of what is stored. */
  lemma UnpublishTakes(s: State, release: Release)
    ensures var t := Apply(s, Unpublish(release));
            && t.published == s.published - {release} && t.index == s.index
            && t.documents == s.documents && t.tarballs == s.tarballs && t.procs == s.procs
  {
    assert release !in s.published ==> s.published - {release} == s.published;
  }

  /** Removing, approving or rejecting an id that is not staged changes nothing. */
  lemma UnknownAlone(s: State, id: Id, call: Action)
    requires call == CallRemove(id) || call == CallReject(id) || call == CallApprove(id)
    requires forall i :: 0 <= i < |s.index| ==> s.index[i].id != id
    ensures Alone(s, call, 1) == s.(procs := s.procs + [if call.CallRemove? then RemoveDone(None) else HandlerFailed])
  {
    var t := Apply(s, call);
    FindIs(s.index, id);
    assert Steps(Next(t, |s.procs|), |s.procs|, 0) == Next(t, |s.procs|);
  }
}
