/**
 * Staged publishing: StageStorage add and remove, and the approve and reject handlers over
 * it, as a step machine over the storage operations.
 *
 * Every call is a process that performs one storage operation per action; actions of
 * different calls interleave in any order, and any operation may throw. Index mutations
 * queue up in `queue` and only the head runs, which is what the promise chain of
 * enqueueIndexMutation gives (module MutationQueue).
 */
module StageStorage {
  import opened Common

  /** Ids are fresh: the id of a record is the number of the call that made it. */
  type Id = nat

  datatype Release = Release(packageName: string, version: string)

  /** A staged record; `payload` stands for the fields no branch looks at. */
  datatype Record = Record(id: Id, release: Release, tarballFilename: string, payload: nat)

  /** Why a record is being removed: a reviewer rejected it, or it was approved and published. */
  datatype Purpose = Reject | Published(record: Record)

  /** A record taken out of the index, and why. */
  datatype Removal = Removal(id: Id, purpose: Purpose)

  datatype Proc =
    // add: the mutation is queued, then the operations of its run in order
    | AddQueued(record: Record)
    | AddTarball(record: Record, items: seq<Record>)
    | AddDocument(record: Record, items: seq<Record>)
    | AddIndex(record: Record, items: seq<Record>)
    | AddDone(record: Record)
    | AddFailed
    // remove: get, the queued index mutation, the two files, the folder
    | RemoveLookup(id: Id, purpose: Purpose)
    | RemoveQueued(record: Record, purpose: Purpose)
    | RemoveIndex(record: Record, items: seq<Record>, purpose: Purpose)
    | RemoveTarball(record: Record, purpose: Purpose)
    | RemoveDocument(record: Record, purpose: Purpose)
    | RemoveFolder(record: Record, purpose: Purpose)
    | RemoveDone(removed: Option<Removal>)
    | RemoveFailed
    // reject: loadRecord, then remove
    | RejectLookup(id: Id)
    // approve: loadRecord, getPackument, readTarball (get, then the file), updateManifest, then remove
    | ApproveLookup(id: Id)
    | ApproveDocument(record: Record)
    | ApproveTarball(record: Record)
    | ApproveStream(record: Record)
    | ApprovePublish(record: Record)
    | HandlerFailed

  /** How a storage operation ends; a throwing one may still have had its effect. */
  datatype Fate = Succeeds | Throws(effect: bool)

  /**
   * Stored: `index`, `documents`, `tarballs` and the `published` releases. History, never
   * read by a step: `committed` adds, newest first, `dropped` ids, ids taken out of the
   * index by a reject, and ids whose release was unpublished after their add resolved.
   */
  datatype State = State(
    procs: seq<Proc>,
    queue: seq<nat>,
    index: seq<Record>,
    documents: map<Id, Record>,
    tarballs: set<(Id, string)>,
    published: set<Release>,
    committed: seq<Record>,
    dropped: set<Id>,
    rejected: set<Id>,
    unpublished: set<Id>)

  datatype Action =
    | CallAdd(release: Release, tarballFilename: string, payload: nat, validName: bool)
    | CallRemove(id: Id)
    | CallReject(id: Id)
    | CallApprove(id: Id)
    | Publish(release: Release)
    | Unpublish(release: Release)
    | Step(proc: nat, fate: Fate)

  const EMPTY := State([], [], [], map[], {}, {}, [], {}, {}, {})

  // ---------------------------------------------------------------- steps

  function Find(items: seq<Record>, id: Id): Option<Record> {
    if items == [] then None
    else if items[0].id == id then Some(items[0])
    else Find(items[1..], id)
  }

  predicate Staged(items: seq<Record>, release: Release) {
    exists i :: 0 <= i < |items| && items[i].release == release
  }

  function Without(items: seq<Record>, ids: set<Id>): seq<Record> {
    if items == [] then []
    else if items[0].id in ids then Without(items[1..], ids)
    else [items[0]] + Without(items[1..], ids)
  }

  function Become(s: State, p: nat, proc: Proc): State
    requires p < |s.procs|
  {
    s.(procs := s.procs[p := proc])
  }

  // The mutation of p settles: the next one in the queue may start.
  function Settle(s: State, p: nat, proc: Proc): State
    requires p < |s.procs| && s.queue != []
  {
    Become(s, p, proc).(queue := s.queue[1..])
  }

  predicate Heads(s: State, p: nat) {
    s.queue != [] && s.queue[0] == p
  }

  predicate Happens(fate: Fate) {
    fate.Succeeds? || fate.effect
  }

  // The ids of the committed records of a release.
  function IdsOf(committed: seq<Record>, release: Release): set<Id> {
    set r | r in committed && r.release == release :: r.id
  }

  function Apply(s: State, a: Action): State {
    match a
    case CallAdd(release, name, payload, validName) =>
      var p := |s.procs|;
      if !validName then s.(procs := s.procs + [AddFailed])
      else s.(procs := s.procs + [AddQueued(Record(p, release, name, payload))], queue := s.queue + [p])
    case CallRemove(id) => s.(procs := s.procs + [RemoveLookup(id, Reject)])
    case CallReject(id) => s.(procs := s.procs + [RejectLookup(id)])
    case CallApprove(id) => s.(procs := s.procs + [ApproveLookup(id)])
    case Publish(release) => s.(published := s.published + {release})
    case Unpublish(release) =>
      if release !in s.published then s
      else s.(published := s.published - {release}, unpublished := s.unpublished + IdsOf(s.committed, release))
    case Step(p, fate) =>
      if p >= |s.procs| then s
      else
        var proc := s.procs[p];
        if Adding(proc) then StepAdd(s, p, fate)
        else if Removing(proc) then StepRemove(s, p, fate)
        else if Deleting(proc) then StepDelete(s, p, fate)
        else if Handling(proc) then StepHandler(s, p, fate)
        else s
  }

  predicate Adding(proc: Proc) {
    proc.AddQueued? || proc.AddTarball? || proc.AddDocument? || proc.AddIndex?
  }

  predicate Removing(proc: Proc) {
    proc.RemoveLookup? || proc.RemoveQueued? || proc.RemoveIndex?
  }

  predicate Deleting(proc: Proc) {
    proc.RemoveTarball? || proc.RemoveDocument? || proc.RemoveFolder?
  }

  predicate Handling(proc: Proc) {
    || proc.RejectLookup? || proc.ApproveLookup? || proc.ApproveDocument? || proc.ApproveTarball?
    || proc.ApproveStream? || proc.ApprovePublish?
  }

  /** The run of add: read the index, refuse a staged release, tarball, document, index. */
  function StepAdd(s: State, p: nat, fate: Fate): State
    requires p < |s.procs|
  {
    if !Heads(s, p) then s
    else
      match s.procs[p]
      case AddQueued(r) =>
        if fate.Throws? || Staged(s.index, r.release) then Settle(s, p, AddFailed)
        else Become(s, p, AddTarball(r, s.index))
      case AddTarball(r, items) =>
        var t := if Happens(fate) then s.(tarballs := s.tarballs + {(r.id, r.tarballFilename)}) else s;
        if fate.Throws? then Settle(t, p, AddFailed) else Become(t, p, AddDocument(r, items))
      case AddDocument(r, items) =>
        var t := if Happens(fate) then s.(documents := s.documents[r.id := r]) else s;
        if fate.Throws? then Settle(t, p, AddFailed) else Become(t, p, AddIndex(r, items))
      case AddIndex(r, items) =>
        // savePackage is atomic: it either stores the index and succeeds or does neither
        if fate.Throws? then Settle(s, p, AddFailed)
        else Settle(s.(index := [r] + items, committed := [r] + s.committed), p, AddDone(r))
      case _ => s
  }

  /** remove up to its index mutation. */
  function StepRemove(s: State, p: nat, fate: Fate): State
    requires p < |s.procs|
  {
    match s.procs[p]
    case RemoveLookup(id, purpose) =>
      if fate.Throws? then Become(s, p, RemoveFailed)
      else
        (match Find(s.index, id)
         case None => Become(s, p, RemoveDone(None))
         case Some(r) => Become(s, p, RemoveQueued(r, purpose)).(queue := s.queue + [p]))
    case RemoveQueued(r, purpose) =>
      if !Heads(s, p) then s
      else if fate.Throws? then Settle(s, p, RemoveFailed)
      else Become(s, p, RemoveIndex(r, s.index, purpose))
    case RemoveIndex(r, items, purpose) =>
      if !Heads(s, p) then s
      else if fate.Throws? then Settle(s, p, RemoveFailed)
      else
        Settle(s.(index := Without(items, {r.id}),
                  dropped := s.dropped + {r.id},
                  rejected := if purpose.Reject? then s.rejected + {r.id} else s.rejected),
               p, RemoveTarball(r, purpose))
    case _ => s
  }

  /** remove after its index mutation: failures to delete are ignored. */
  function StepDelete(s: State, p: nat, fate: Fate): State
    requires p < |s.procs|
  {
    match s.procs[p]
    case RemoveTarball(r, purpose) =>
      var t := if Happens(fate) then s.(tarballs := s.tarballs - {(r.id, r.tarballFilename)}) else s;
      Become(t, p, RemoveDocument(r, purpose))
    case RemoveDocument(r, purpose) =>
      var t := if Happens(fate) then s.(documents := s.documents - {r.id}) else s;
      Become(t, p, RemoveFolder(r, purpose))
    case RemoveFolder(r, purpose) =>
      var t := if Happens(fate)
               then s.(documents := s.documents - {r.id}, tarballs := set f | f in s.tarballs && f.0 != r.id)
               else s;
      Become(t, p, RemoveDone(Some(Removal(r.id, purpose))))
    case _ => s
  }

  function PublishRecord(s: State, r: Record): State {
    s.(published := s.published + {r.release})
  }

  /** The reject and approve handlers up to their call of remove. */
  function StepHandler(s: State, p: nat, fate: Fate): State
    requires p < |s.procs|
  {
    if fate.Throws? then
      // publishing may throw after the version was published
      Become(if s.procs[p].ApprovePublish? && fate.effect then PublishRecord(s, s.procs[p].record) else s, p,
             HandlerFailed)
    else
      match s.procs[p]
      case RejectLookup(id) =>
        (match Find(s.index, id)
         case None => Become(s, p, HandlerFailed)
         case Some(r) => Become(s, p, RemoveLookup(r.id, Reject)))
      case ApproveLookup(id) =>
        (match Find(s.index, id)
         case None => Become(s, p, HandlerFailed)
         case Some(r) => Become(s, p, ApproveDocument(r)))
      case ApproveDocument(r) =>
        Become(s, p, if r.id in s.documents then ApproveTarball(r) else HandlerFailed)
      case ApproveTarball(r) =>
        (match Find(s.index, r.id)
         case None => Become(s, p, HandlerFailed)
         case Some(found) => Become(s, p, ApproveStream(found)))
      case ApproveStream(r) =>
        Become(s, p, if (r.id, r.tarballFilename) in s.tarballs then ApprovePublish(r) else HandlerFailed)
      case ApprovePublish(r) =>
        // updateManifest refuses a release that is already published
        if r.release in s.published then Become(s, p, HandlerFailed)
        else Become(PublishRecord(s, r), p, RemoveLookup(r.id, Published(r)))
      case _ => s
  }

  function Exec(s: State, acts: seq<Action>): State {
    if acts == [] then s
    else Apply(Exec(s, acts[..|acts| - 1]), acts[|acts| - 1])
  }

  // ---------------------------------------------------------------- invariant

  predicate Mutating(proc: Proc) {
    || proc.AddQueued? || proc.AddTarball? || proc.AddDocument? || proc.AddIndex?
    || proc.RemoveQueued? || proc.RemoveIndex?
  }

  predicate Underway(proc: Proc) {
    || proc.AddTarball? || proc.AddDocument? || proc.AddIndex? || proc.RemoveIndex?
  }

  // The queue lists exactly the unsettled mutations, once each, and only its head has begun.
  ghost predicate Queued(s: State) {
    && (forall i :: 0 <= i < |s.queue| ==> s.queue[i] < |s.procs| && Mutating(s.procs[s.queue[i]]))
    && (forall i, j :: 0 <= i < j < |s.queue| ==> s.queue[i] != s.queue[j])
    && (forall p :: 0 <= p < |s.procs| && Mutating(s.procs[p]) ==> p in s.queue)
    && (forall p :: 0 <= p < |s.procs| && Underway(s.procs[p]) ==> Heads(s, p) && s.procs[p].items == s.index)
  }

  // Each committed record is the one its add resolved with, which also makes ids unique.
  ghost predicate History(s: State) {
    && (forall i :: 0 <= i < |s.committed| ==>
          s.committed[i].id < |s.procs| && s.procs[s.committed[i].id] == AddDone(s.committed[i]))
    && (forall p :: 0 <= p < |s.procs| && s.procs[p].AddDone? ==> s.procs[p].record in s.committed)
    && (forall i, j :: 0 <= i < j < |s.committed| ==> s.committed[i].id != s.committed[j].id)
    && (forall id :: id in s.dropped ==> id < |s.procs| && s.procs[id].AddDone?)
    && s.index == Without(s.committed, s.dropped)
  }

  ghost predicate Holds(s: State, r: Record) {
    r in s.committed
  }

  ghost predicate Accounted(s: State, r: Record) {
    r.release in s.published || r.id in s.unpublished
  }

  ghost predicate PurposeOk(s: State, id: Id, purpose: Purpose) {
    purpose.Published? ==> purpose.record.id == id && Holds(s, purpose.record) && Accounted(s, purpose.record)
  }

  ghost predicate HasTarball(s: State, r: Record) {
    (r.id, r.tarballFilename) in s.tarballs
  }

  ghost predicate HasDocument(s: State, r: Record) {
    r.id in s.documents && s.documents[r.id] == r
  }

  // What a call relies on between two of its operations.
  ghost predicate ProcOk(s: State, p: nat)
    requires p < |s.procs|
  {
    Backing(s, p, s.procs[p])
  }

  ghost predicate Backing(s: State, p: nat, proc: Proc) {
    match proc
    case AddQueued(r) => r.id == p
    case AddTarball(r, items) => r.id == p && !Staged(items, r.release)
    case AddDocument(r, items) => r.id == p && !Staged(items, r.release) && HasTarball(s, r)
    case AddIndex(r, items) => r.id == p && !Staged(items, r.release) && HasTarball(s, r) && HasDocument(s, r)
    case AddDone(r) => r.id == p
    case RemoveLookup(id, purpose) => PurposeOk(s, id, purpose)
    case RemoveQueued(r, purpose) => Holds(s, r) && PurposeOk(s, r.id, purpose)
    case RemoveIndex(r, _, purpose) => Holds(s, r) && PurposeOk(s, r.id, purpose)
    case RemoveTarball(r, _) => Holds(s, r) && r.id in s.dropped
    case RemoveDocument(r, _) => Holds(s, r) && r.id in s.dropped
    case RemoveFolder(r, _) => Holds(s, r) && r.id in s.dropped
    case ApproveDocument(r) => Holds(s, r)
    case ApproveTarball(r) => Holds(s, r)
    case ApproveStream(r) => Holds(s, r)
    case ApprovePublish(r) => Holds(s, r)
    case _ => true
  }

  ghost predicate Backed(s: State) {
    forall i :: 0 <= i < |s.index| ==> HasTarball(s, s.index[i]) && HasDocument(s, s.index[i])
  }

  ghost predicate OneRecordPerRelease(s: State) {
    DistinctReleases(s.index)
  }

  // A committed record left the index only by a reject or once its release was published.
  ghost predicate NeverLost(s: State) {
    forall i :: 0 <= i < |s.committed| ==>
      || s.committed[i].id !in s.dropped
      || s.committed[i].id in s.rejected
      || Accounted(s, s.committed[i])
  }

  ghost predicate Inv(s: State) {
    && Queued(s)
    && History(s)
    && (forall p: nat :: p < |s.procs| ==> ProcOk(s, p))
    && Backed(s)
    && OneRecordPerRelease(s)
    && NeverLost(s)
  }

  // ---------------------------------------------------------------- index lemmas

  lemma {:induction false} FindIs(items: seq<Record>, id: Id)
    ensures match Find(items, id)
            case Some(r) => r in items && r.id == id
            case None => forall i :: 0 <= i < |items| ==> items[i].id != id
  {
    if items != [] {
      FindIs(items[1..], id);
    }
  }

  lemma {:induction false} WithoutIs(items: seq<Record>, ids: set<Id>, r: Record)
    ensures r in Without(items, ids) <==> r in items && r.id !in ids
  {
    if items != [] {
      WithoutIs(items[1..], ids, r);
    }
  }

  lemma {:induction false} WithoutTwice(items: seq<Record>, a: set<Id>, b: set<Id>)
    ensures Without(Without(items, a), b) == Without(items, a + b)
  {
    if items != [] {
      WithoutTwice(items[1..], a, b);
    }
  }

  ghost predicate DistinctReleases(items: seq<Record>) {
    forall i, j :: 0 <= i < j < |items| ==> items[i].release != items[j].release
  }

  lemma {:induction false} WithoutKeepsReleases(items: seq<Record>, ids: set<Id>)
    requires DistinctReleases(items)
    ensures DistinctReleases(Without(items, ids))
  {
    if items != [] {
      var rest := Without(items[1..], ids);
      WithoutKeepsReleases(items[1..], ids);
      forall j | 0 <= j < |rest| ensures items[0].release != rest[j].release {
        assert rest[j] in rest;
        WithoutIs(items[1..], ids, rest[j]);
      }
      assert DistinctReleases([items[0]] + rest);
    }
  }

  // ---------------------------------------------------------------- frames

  // One call moved; nothing another call relies on was lost.
  ghost predicate Frame(s: State, t: State, p: nat) {
    && p < |s.procs| == |t.procs|
    && (forall q :: 0 <= q < |s.procs| && q != p ==> t.procs[q] == s.procs[q])
    && s.committed == t.committed && s.dropped <= t.dropped
    && (forall r :: r in s.committed && Accounted(s, r) ==> Accounted(t, r))
    && (forall r: Record :: HasTarball(s, r) && !HasTarball(t, r) ==> r.id in s.dropped)
    && (forall r: Record :: HasDocument(s, r) && !HasDocument(t, r) ==> r.id in s.dropped || r.id == p)
  }

  lemma {:induction false} FrameKeepsProc(s: State, t: State, p: nat, q: nat)
    requires Inv(s) && Frame(s, t, p) && q < |s.procs| && q != p
    ensures ProcOk(t, q)
  {
    assert ProcOk(s, q);
    assert s.procs[q].AddDocument? || s.procs[q].AddIndex? ==> q !in s.dropped;
  }

  lemma FrameKeepsProcs(s: State, t: State, p: nat)
    requires Inv(s) && Frame(s, t, p) && ProcOk(t, p)
    ensures forall q: nat :: q < |t.procs| ==> ProcOk(t, q)
  {
    forall q: nat | q < |t.procs| ensures ProcOk(t, q) {
      if q != p {
        FrameKeepsProc(s, t, p, q);
      }
    }
  }

  lemma {:induction false} FrameKeepsBacked(s: State, t: State, p: nat)
    requires Inv(s) && Frame(s, t, p) && t.index == s.index && !s.procs[p].AddDone?
    ensures Backed(t)
  {
    forall i | 0 <= i < |t.index| ensures HasTarball(t, t.index[i]) && HasDocument(t, t.index[i]) {
      WithoutIs(s.committed, s.dropped, t.index[i]);
    }
  }

  // A step that leaves the index, the queue and the history alone.
  lemma {:induction false} QuietStep(s: State, t: State, p: nat)
    requires Inv(s) && Frame(s, t, p)
    requires t.queue == s.queue && t.index == s.index && t.dropped == s.dropped && t.rejected == s.rejected
    requires Mutating(s.procs[p]) == Mutating(t.procs[p])
    requires Underway(t.procs[p]) ==> Heads(s, p) && t.procs[p].items == s.index
    requires !s.procs[p].AddDone? && !t.procs[p].AddDone? && ProcOk(t, p)
    ensures Inv(t)
  {
    FrameKeepsBacked(s, t, p);
    FrameKeepsProcs(s, t, p);
  }

  // A mutation settles without a change to the index.
  lemma {:induction false} SettleStep(s: State, t: State, p: nat, proc: Proc)
    requires Inv(s) && p < |s.procs| && Heads(s, p) && Mutating(s.procs[p])
    requires proc.AddFailed? || proc.RemoveFailed?
    requires Frame(s, t, p) && t.procs[p] == proc && t.queue == s.queue[1..]
    requires t.index == s.index && t.dropped == s.dropped && t.rejected == s.rejected
    ensures Inv(t)
  {
    FrameKeepsBacked(s, t, p);
    SettleKeepsQueue(s, t, p);
    FrameKeepsProcs(s, t, p);
  }

  // The queue behind a settled head.
  lemma TailOfQueue(queue: seq<nat>, p: nat)
    requires queue != [] && queue[0] == p && forall i, j :: 0 <= i < j < |queue| ==> queue[i] != queue[j]
    ensures forall i, j :: 0 <= i < j < |queue[1..]| ==> queue[1..][i] != queue[1..][j]
    ensures forall q :: q in queue[1..] <==> q in queue && q != p
  {
    var tail := queue[1..];
    assert queue == [p] + tail;
    forall i, j | 0 <= i < j < |tail| ensures tail[i] != tail[j] {
      assert tail[i] == queue[i + 1] && tail[j] == queue[j + 1];
    }
    forall q | q in tail ensures q != p {
      var i :| 0 <= i < |tail| && tail[i] == q;
      assert queue[i + 1] == q;
    }
  }

  lemma SettleKeepsQueue(s: State, t: State, p: nat)
    requires Queued(s) && Heads(s, p) && Mutating(s.procs[p])
    requires |t.procs| == |s.procs| && (forall q :: 0 <= q < |s.procs| && q != p ==> t.procs[q] == s.procs[q])
    requires !Mutating(t.procs[p]) && t.queue == s.queue[1..]
    ensures Queued(t)
  {
    TailOfQueue(s.queue, p);
    forall i | 0 <= i < |t.queue| ensures t.queue[i] < |t.procs| && Mutating(t.procs[t.queue[i]]) {
      assert t.queue[i] == s.queue[i + 1] && t.queue[i] in t.queue;
    }
    forall q | 0 <= q < |s.procs| && Underway(s.procs[q]) ensures q == p {
      assert Heads(s, q);
    }
  }

  // ---------------------------------------------------------------- preservation

  // A call joined: its process is appended, and an add joined the queue.
  ghost predicate Joins(s: State, t: State, proc: Proc) {
    t == s.(procs := s.procs + [proc], queue := if proc.AddQueued? then s.queue + [|s.procs|] else s.queue)
  }

  lemma JoinKeepsHistory(s: State, t: State, proc: Proc)
    requires History(s) && Joins(s, t, proc) && !proc.AddDone?
    ensures History(t)
  {
    assert forall p: nat :: p < |s.procs| ==> t.procs[p] == s.procs[p];
  }

  lemma JoinKeepsProcs(s: State, t: State, proc: Proc, p: nat)
    requires Joins(s, t, proc) && p < |t.procs| && (if p < |s.procs| then ProcOk(s, p) else Backing(s, p, proc))
    ensures ProcOk(t, p)
  {
    assert t.procs[p] == if p < |s.procs| then s.procs[p] else proc;
  }

  lemma JoinKeepsRecords(s: State, t: State, proc: Proc)
    requires Joins(s, t, proc) && Backed(s) && NeverLost(s)
    ensures Backed(t) && NeverLost(t)
  {
    forall i | 0 <= i < |t.index| ensures HasTarball(t, t.index[i]) && HasDocument(t, t.index[i]) {
      assert HasTarball(s, s.index[i]) && HasDocument(s, s.index[i]);
    }
    forall i | 0 <= i < |t.committed|
      ensures t.committed[i].id !in t.dropped || t.committed[i].id in t.rejected || Accounted(t, t.committed[i])
    {
      assert s.committed[i].id !in s.dropped || s.committed[i].id in s.rejected || Accounted(s, s.committed[i]);
    }
  }

  lemma JoinKeepsInv(s: State, t: State, proc: Proc)
    requires Inv(s) && Joins(s, t, proc)
    requires match proc
             case AddQueued(r) => r.id == |s.procs|
             case RemoveLookup(_, purpose) => purpose.Reject?
             case _ => proc.AddFailed? || proc.RejectLookup? || proc.ApproveLookup?
    ensures Inv(t)
  {
    JoinKeepsQueue(s, t, proc);
    JoinKeepsHistory(s, t, proc);
    JoinKeepsRecords(s, t, proc);
    forall p: nat | p < |t.procs| ensures ProcOk(t, p) {
      JoinKeepsProcs(s, t, proc, p);
    }
  }

  lemma {:induction false} JoinKeepsQueue(s: State, t: State, proc: Proc)
    requires Queued(s) && !Underway(proc) && (Mutating(proc) <==> proc.AddQueued?)
    requires t.procs == s.procs + [proc] && t.index == s.index
    requires t.queue == if proc.AddQueued? then s.queue + [|s.procs|] else s.queue
    ensures Queued(t)
  {
    forall p | 0 <= p < |t.procs| && Mutating(t.procs[p]) ensures p in t.queue {
      if p < |s.procs| {
        assert p in s.queue;
      } else {
        assert t.queue[|s.queue|] == p;
      }
    }
    forall p | 0 <= p < |t.procs| && Underway(t.procs[p]) ensures Heads(t, p) && t.procs[p].items == t.index {
      assert Heads(s, p);
    }
  }

  lemma {:induction false} PublishKeepsInv(s: State, t: State)
    requires Inv(s) && t == s.(published := t.published, unpublished := t.unpublished)
    requires forall r :: r in s.committed && Accounted(s, r) ==> Accounted(t, r)
    ensures Inv(t)
  {
    forall p: nat | p < |t.procs| ensures ProcOk(t, p) {
      assert ProcOk(s, p);
    }
    forall i | 0 <= i < |t.index| ensures HasTarball(t, t.index[i]) && HasDocument(t, t.index[i]) {
      assert HasTarball(s, s.index[i]) && HasDocument(s, s.index[i]);
    }
  }

  lemma {:induction false} CallKeepsInv(s: State, a: Action)
    requires Inv(s) && !a.Step?
    ensures Inv(Apply(s, a))
  {
    match a {
      case CallAdd(release, name, payload, validName) =>
        JoinKeepsInv(s, Apply(s, a),
                     if validName then AddQueued(Record(|s.procs|, release, name, payload)) else AddFailed);
      case CallRemove(id) => JoinKeepsInv(s, Apply(s, a), RemoveLookup(id, Reject));
      case CallReject(id) => JoinKeepsInv(s, Apply(s, a), RejectLookup(id));
      case CallApprove(id) => JoinKeepsInv(s, Apply(s, a), ApproveLookup(id));
      case Publish(_) => PublishKeepsInv(s, Apply(s, a));
      case Unpublish(_) => PublishKeepsInv(s, Apply(s, a));
    }
  }

  lemma AddChecksIndex(s: State, p: nat, fate: Fate)
    requires Inv(s) && p < |s.procs| && s.procs[p].AddQueued? && Heads(s, p)
    ensures Inv(StepAdd(s, p, fate))
  {
    var t := StepAdd(s, p, fate);
    assert ProcOk(s, p);
    if t.procs[p].AddFailed? {
      SettleStep(s, t, p, AddFailed);
    } else {
      QuietStep(s, t, p);
    }
  }

  lemma AddWritesTarball(s: State, p: nat, fate: Fate)
    requires Inv(s) && p < |s.procs| && s.procs[p].AddTarball? && Heads(s, p)
    ensures Inv(StepAdd(s, p, fate))
  {
    var t := StepAdd(s, p, fate);
    assert ProcOk(s, p);
    if t.procs[p].AddFailed? {
      SettleStep(s, t, p, AddFailed);
    } else {
      QuietStep(s, t, p);
    }
  }

  lemma AddWritesDocument(s: State, p: nat, fate: Fate)
    requires Inv(s) && p < |s.procs| && s.procs[p].AddDocument? && Heads(s, p)
    ensures Inv(StepAdd(s, p, fate))
  {
    var t := StepAdd(s, p, fate);
    assert ProcOk(s, p);
    if t.procs[p].AddFailed? {
      SettleStep(s, t, p, AddFailed);
    } else {
      QuietStep(s, t, p);
    }
  }

  lemma {:induction false} AddCommits(s: State, p: nat, fate: Fate)
    requires Inv(s) && p < |s.procs| && s.procs[p].AddIndex?
    ensures Inv(StepAdd(s, p, fate))
  {
    var t := StepAdd(s, p, fate);
    assert ProcOk(s, p);
    if Heads(s, p) {
      if fate.Throws? {
        SettleStep(s, t, p, AddFailed);
      } else {
        SettleKeepsQueue(s, t, p);
        CommitKeepsHistory(s, t, p);
        CommitKeepsProcs(s, t, p);
        CommitKeepsBacked(s, t, p);
        CommitKeepsReleases(s, t, p);
        CommitKeepsNeverLost(s, t, p);
      }
    }
  }

  ghost predicate Commits(s: State, t: State, p: nat) {
    && p < |s.procs| && s.procs[p].AddIndex? && s.procs[p].record.id == p
    && var r := s.procs[p].record;
    t == s.(procs := s.procs[p := AddDone(r)], queue := t.queue, index := [r] + s.index, committed := [r] + s.committed)
  }

  lemma CommitsAreShifted(s: State, t: State, p: nat)
    requires Commits(s, t, p)
    ensures |t.committed| == |s.committed| + 1 && t.committed[0] == s.procs[p].record && t.committed[1..] == s.committed
    ensures forall r :: r in t.committed <==> r == s.procs[p].record || r in s.committed
  {
  }

  lemma CommitKeepsRecords(s: State, t: State, p: nat)
    requires History(s) && Commits(s, t, p)
    ensures forall i :: 0 <= i < |t.committed| ==>
              t.committed[i].id < |t.procs| && t.procs[t.committed[i].id] == AddDone(t.committed[i])
    ensures forall q :: 0 <= q < |t.procs| && t.procs[q].AddDone? ==> t.procs[q].record in t.committed
  {
    CommitsAreShifted(s, t, p);
    forall i | 0 <= i < |t.committed|
      ensures t.committed[i].id < |t.procs| && t.procs[t.committed[i].id] == AddDone(t.committed[i])
    {
      if i > 0 {
        assert t.committed[i] == s.committed[i - 1];
        assert s.procs[s.committed[i - 1].id] == AddDone(s.committed[i - 1]);
      }
    }
  }

  lemma CommitKeepsIds(s: State, t: State, p: nat)
    requires History(s) && Commits(s, t, p)
    ensures forall i, j :: 0 <= i < j < |t.committed| ==> t.committed[i].id != t.committed[j].id
  {
    forall i, j | 0 <= i < j < |t.committed| ensures t.committed[i].id != t.committed[j].id {
      assert t.committed[j] == s.committed[j - 1];
      if i == 0 {
        assert s.procs[s.committed[j - 1].id].AddDone?;
      } else {
        assert t.committed[i] == s.committed[i - 1];
      }
    }
  }

  lemma CommitKeepsHistory(s: State, t: State, p: nat)
    requires History(s) && Commits(s, t, p)
    ensures History(t)
  {
    CommitKeepsRecords(s, t, p);
    CommitKeepsIds(s, t, p);
    CommitsAreShifted(s, t, p);
    assert t.index == Without(t.committed, t.dropped) by {
      assert p !in s.dropped;
    }
  }

  lemma {:induction false} CommitKeepsProcs(s: State, t: State, p: nat)
    requires Inv(s) && Commits(s, t, p)
    ensures forall q: nat :: q < |t.procs| ==> ProcOk(t, q)
  {
    assert t.committed[1..] == s.committed;
    assert forall r :: Holds(s, r) ==> Holds(t, r);
    forall q: nat | q < |t.procs| ensures ProcOk(t, q) {
      assert ProcOk(s, q);
    }
  }

  lemma CommitKeepsBacked(s: State, t: State, p: nat)
    requires Backed(s) && Commits(s, t, p) && ProcOk(s, p)
    ensures Backed(t)
  {
    forall i | 0 <= i < |t.index| ensures HasTarball(t, t.index[i]) && HasDocument(t, t.index[i]) {
      if i > 0 {
        assert t.index[i] == s.index[i - 1];
        assert HasTarball(s, s.index[i - 1]) && HasDocument(s, s.index[i - 1]);
      }
    }
  }

  lemma CommitKeepsReleases(s: State, t: State, p: nat)
    requires OneRecordPerRelease(s) && Commits(s, t, p) && ProcOk(s, p) && s.procs[p].items == s.index
    ensures OneRecordPerRelease(t)
  {
    forall i, j | 0 <= i < j < |t.index| ensures t.index[i].release != t.index[j].release {
      assert t.index[j] == s.index[j - 1];
      if i > 0 {
        assert t.index[i] == s.index[i - 1];
      }
    }
  }

  lemma CommitKeepsNeverLost(s: State, t: State, p: nat)
    requires NeverLost(s) && History(s) && Commits(s, t, p)
    ensures NeverLost(t)
  {
    CommitsAreShifted(s, t, p);
    forall i | 0 <= i < |t.committed|
      ensures t.committed[i].id !in t.dropped || t.committed[i].id in t.rejected || Accounted(t, t.committed[i])
    {
      if i == 0 {
        assert p !in s.dropped;
      } else {
        assert t.committed[i] == s.committed[i - 1];
        assert s.committed[i - 1].id !in s.dropped
               || s.committed[i - 1].id in s.rejected || Accounted(s, s.committed[i - 1]);
      }
    }
  }

  lemma {:induction false} IndexedIsHeld(s: State, id: Id)
    requires History(s)
    ensures Find(s.index, id).Some? ==> Holds(s, Find(s.index, id).value) && Find(s.index, id).value.id == id
  {
    FindIs(s.index, id);
    if Find(s.index, id).Some? {
      WithoutIs(s.committed, s.dropped, Find(s.index, id).value);
    }
  }

  lemma RemoveLooksUp(s: State, p: nat, fate: Fate)
    requires Inv(s) && p < |s.procs| && s.procs[p].RemoveLookup?
    ensures Inv(StepRemove(s, p, fate))
  {
    var id, purpose := s.procs[p].id, s.procs[p].purpose;
    assert ProcOk(s, p);
    if fate.Throws? || Find(s.index, id).None? {
      MoveKeepsInv(s, p, if fate.Throws? then RemoveFailed else RemoveDone(None));
    } else {
      IndexedIsHeld(s, id);
      JoinQueueKeepsInv(s, p, RemoveQueued(Find(s.index, id).value, purpose));
    }
  }

  // A call outside the queue queues its mutation.
  lemma JoinQueueKeepsInv(s: State, p: nat, proc: Proc)
    requires Inv(s) && p < |s.procs| && !Mutating(s.procs[p]) && !s.procs[p].AddDone?
    requires proc.RemoveQueued? && Backing(s, p, proc)
    ensures Inv(Become(s, p, proc).(queue := s.queue + [p]))
  {
    var t := Become(s, p, proc).(queue := s.queue + [p]);
    LookupJoinsQueue(s, t, p);
    FrameKeepsBacked(s, t, p);
    FrameKeepsProcs(s, t, p);
  }

  lemma {:induction false} RemoveReadsIndex(s: State, p: nat, fate: Fate)
    requires Inv(s) && p < |s.procs| && s.procs[p].RemoveQueued?
    ensures Inv(StepRemove(s, p, fate))
  {
    var t := StepRemove(s, p, fate);
    assert ProcOk(s, p);
    if Heads(s, p) {
      if fate.Throws? {
        SettleStep(s, t, p, RemoveFailed);
      } else {
        QuietStep(s, t, p);
      }
    }
  }

  lemma {:induction false} LookupJoinsQueue(s: State, t: State, p: nat)
    requires Queued(s) && p < |s.procs| == |t.procs| && !Mutating(s.procs[p])
    requires forall q :: 0 <= q < |s.procs| && q != p ==> t.procs[q] == s.procs[q]
    requires Mutating(t.procs[p]) && !Underway(t.procs[p])
    requires t.queue == s.queue + [p] && t.index == s.index
    ensures Queued(t)
  {
    forall q | 0 <= q < |t.procs| && Mutating(t.procs[q]) ensures q in t.queue {
      if q == p {
        assert t.queue[|s.queue|] == p;
      } else {
        assert q in s.queue;
      }
    }
    forall q | 0 <= q < |t.procs| && Underway(t.procs[q])
      ensures Heads(t, q) && t.procs[q].items == t.index
    {
      assert Heads(s, q);
    }
  }

  // The index, documents and tarballs after a removal commits.
  lemma RemovalKeepsIndex(s: State, t: State, r: Record)
    requires History(s) && Backed(s) && OneRecordPerRelease(s)
    requires t.committed == s.committed && t.dropped == s.dropped + {r.id} && t.index == Without(s.index, {r.id})
    requires t.documents == s.documents && t.tarballs == s.tarballs
    ensures t.index == Without(t.committed, t.dropped) && Backed(t) && OneRecordPerRelease(t)
  {
    WithoutTwice(s.committed, s.dropped, {r.id});
    WithoutKeepsReleases(s.index, {r.id});
    forall i | 0 <= i < |t.index| ensures HasTarball(t, t.index[i]) && HasDocument(t, t.index[i]) {
      assert t.index[i] in t.index;
      WithoutIs(s.index, {r.id}, t.index[i]);
      var j :| 0 <= j < |s.index| && s.index[j] == t.index[i];
      assert HasTarball(s, s.index[j]) && HasDocument(s, s.index[j]);
    }
  }

  lemma RemovalKeepsHistory(s: State, t: State, p: nat, r: Record)
    requires History(s) && Holds(s, r) && p < |s.procs| == |t.procs| && !s.procs[p].AddDone? && !t.procs[p].AddDone?
    requires forall q :: 0 <= q < |s.procs| && q != p ==> t.procs[q] == s.procs[q]
    requires t.committed == s.committed && t.dropped == s.dropped + {r.id} && t.index == Without(t.committed, t.dropped)
    ensures History(t)
  {
  }

  lemma RemoveCommitted(s: State, p: nat, t: State)
    requires Inv(s) && p < |s.procs| && s.procs[p].RemoveIndex? && Heads(s, p)
    requires t == StepRemove(s, p, Succeeds)
    ensures Inv(t)
  {
    var r := s.procs[p].record;
    assert ProcOk(s, p) && s.procs[p].items == s.index;
    RemovalKeepsIndex(s, t, r);
    RemovalKeepsHistory(s, t, p, r);
    RemovalIsAccounted(s, t, r);
    SettleKeepsQueue(s, t, p);
    FrameKeepsProcs(s, t, p);
  }

  lemma RemoveCommits(s: State, p: nat, fate: Fate)
    requires Inv(s) && p < |s.procs| && s.procs[p].RemoveIndex?
    ensures Inv(StepRemove(s, p, fate))
  {
    if Heads(s, p) {
      if fate.Throws? {
        SettleStep(s, StepRemove(s, p, fate), p, RemoveFailed);
      } else {
        RemoveCommitted(s, p, StepRemove(s, p, Succeeds));
      }
    }
  }

  lemma {:induction false} RemovalIsAccounted(s: State, t: State, r: Record)
    requires History(s) && NeverLost(s) && Holds(s, r)
    requires t.committed == s.committed && t.dropped == s.dropped + {r.id}
    requires s.rejected <= t.rejected && t.published == s.published && t.unpublished == s.unpublished
    requires r.id in t.rejected || Accounted(s, r)
    ensures NeverLost(t)
  {
    forall i | 0 <= i < |t.committed|
      ensures t.committed[i].id !in t.dropped || t.committed[i].id in t.rejected || Accounted(t, t.committed[i])
    {
      if t.committed[i].id == r.id {
        assert s.procs[r.id] == AddDone(r) && s.procs[r.id] == AddDone(t.committed[i]);
      }
    }
  }

  // Deleting what belongs to a dropped record.
  lemma DeleteTarballKeepsInv(s: State, p: nat, fate: Fate)
    requires Inv(s) && p < |s.procs| && s.procs[p].RemoveTarball?
    ensures Inv(StepDelete(s, p, fate))
  {
    assert ProcOk(s, p);
    QuietStep(s, StepDelete(s, p, fate), p);
  }

  lemma DeleteDocumentKeepsInv(s: State, p: nat, fate: Fate)
    requires Inv(s) && p < |s.procs| && s.procs[p].RemoveDocument?
    ensures Inv(StepDelete(s, p, fate))
  {
    assert ProcOk(s, p);
    QuietStep(s, StepDelete(s, p, fate), p);
  }

  lemma DeleteFolderKeepsInv(s: State, p: nat, fate: Fate)
    requires Inv(s) && p < |s.procs| && s.procs[p].RemoveFolder?
    ensures Inv(StepDelete(s, p, fate))
  {
    assert ProcOk(s, p);
    QuietStep(s, StepDelete(s, p, fate), p);
  }

  lemma DeletingKeepsInv(s: State, p: nat, fate: Fate)
    requires Inv(s) && p < |s.procs| && Deleting(s.procs[p])
    ensures Inv(StepDelete(s, p, fate))
  {
    match s.procs[p] {
      case RemoveTarball(_, _) => DeleteTarballKeepsInv(s, p, fate);
      case RemoveDocument(_, _) => DeleteDocumentKeepsInv(s, p, fate);
      case RemoveFolder(_, _) => DeleteFolderKeepsInv(s, p, fate);
    }
  }

  // A call outside the queue moves on and touches nothing else.
  lemma MoveKeepsInv(s: State, p: nat, proc: Proc)
    requires Inv(s) && p < |s.procs| && !Mutating(s.procs[p]) && !s.procs[p].AddDone?
    requires !Mutating(proc) && !proc.AddDone? && Backing(s, p, proc)
    ensures Inv(Become(s, p, proc))
  {
    QuietStep(s, Become(s, p, proc), p);
  }

  lemma LookupKeepsInv(s: State, p: nat, fate: Fate)
    requires Inv(s) && p < |s.procs|
    requires s.procs[p].RejectLookup? || s.procs[p].ApproveLookup? || s.procs[p].ApproveTarball?
    ensures Inv(StepHandler(s, p, fate))
  {
    if fate.Throws? {
      MoveKeepsInv(s, p, HandlerFailed);
    } else {
      var id := if s.procs[p].ApproveTarball? then s.procs[p].record.id else s.procs[p].id;
      var r := Find(s.index, id);
      if r.None? {
        MoveKeepsInv(s, p, HandlerFailed);
      } else {
        IndexedIsHeld(s, id);
        MoveKeepsInv(s, p, if s.procs[p].RejectLookup? then RemoveLookup(r.value.id, Reject)
                           else if s.procs[p].ApproveLookup? then ApproveDocument(r.value)
                           else ApproveStream(r.value));
      }
    }
  }

  lemma ApprovalKeepsInv(s: State, p: nat, fate: Fate)
    requires Inv(s) && p < |s.procs| && (s.procs[p].ApproveDocument? || s.procs[p].ApproveStream?)
    ensures Inv(StepHandler(s, p, fate))
  {
    var r := s.procs[p].record;
    assert ProcOk(s, p);
    if StepHandler(s, p, fate).procs[p].HandlerFailed? {
      MoveKeepsInv(s, p, HandlerFailed);
    } else {
      MoveKeepsInv(s, p, if s.procs[p].ApproveDocument? then ApproveTarball(r) else ApprovePublish(r));
    }
  }

  lemma PublishedKeepsInv(s: State, r: Record)
    requires Inv(s)
    ensures Inv(PublishRecord(s, r))
  {
    PublishKeepsInv(s, PublishRecord(s, r));
  }

  lemma PublishGoesOn(s: State, p: nat)
    requires Inv(s) && p < |s.procs| && s.procs[p].ApprovePublish? && s.procs[p].record.release !in s.published
    ensures var r := s.procs[p].record;
            Inv(Become(PublishRecord(s, r), p, RemoveLookup(r.id, Published(r))))
  {
    var r := s.procs[p].record;
    assert ProcOk(s, p);
    PublishedKeepsInv(s, r);
    MoveKeepsInv(PublishRecord(s, r), p, RemoveLookup(r.id, Published(r)));
  }

  lemma PublishFails(s: State, p: nat)
    requires Inv(s) && p < |s.procs| && s.procs[p].ApprovePublish?
    ensures Inv(Become(s, p, HandlerFailed)) && Inv(Become(PublishRecord(s, s.procs[p].record), p, HandlerFailed))
  {
    PublishedKeepsInv(s, s.procs[p].record);
    MoveKeepsInv(s, p, HandlerFailed);
    MoveKeepsInv(PublishRecord(s, s.procs[p].record), p, HandlerFailed);
  }

  // The step of an approval that publishes: it goes on to remove, or fails, published or not.
  function PublishStep(s: State, p: nat, fate: Fate): State
    requires p < |s.procs| && s.procs[p].ApprovePublish?
  {
    var r := s.procs[p].record;
    if fate.Succeeds? && r.release !in s.published
    then Become(PublishRecord(s, r), p, RemoveLookup(r.id, Published(r)))
    else Become(if fate.Throws? && fate.effect then PublishRecord(s, r) else s, p, HandlerFailed)
  }

  lemma PublishStepIs(s: State, p: nat, fate: Fate)
    requires p < |s.procs| && s.procs[p].ApprovePublish?
    ensures StepHandler(s, p, fate) == PublishStep(s, p, fate)
    ensures var t, r := StepHandler(s, p, fate), s.procs[p].record;
            && t.index == s.index && t.documents == s.documents && t.tarballs == s.tarballs
            && (t.procs[p].RemoveLookup? ==> r.release in t.published && r.release !in s.published)
            && (!fate.Throws? && r.release !in s.published ==> t.procs[p] == RemoveLookup(r.id, Published(r)))
  {
  }

  lemma PublishingKeepsInv(s: State, p: nat, fate: Fate)
    requires Inv(s) && p < |s.procs| && s.procs[p].ApprovePublish?
    ensures Inv(StepHandler(s, p, fate))
    ensures var t, r := StepHandler(s, p, fate), s.procs[p].record;
            && t.index == s.index && t.documents == s.documents && t.tarballs == s.tarballs
            && (t.procs[p].RemoveLookup? ==> r.release in t.published && r.release !in s.published)
            && (!fate.Throws? && r.release !in s.published ==> t.procs[p] == RemoveLookup(r.id, Published(r)))
  {
    PublishStepIs(s, p, fate);
    assert Inv(PublishStep(s, p, fate)) by {
      if fate.Succeeds? && s.procs[p].record.release !in s.published {
        PublishGoesOn(s, p);
      } else {
        PublishFails(s, p);
      }
    }
  }

  lemma AddingKeepsInv(s: State, p: nat, fate: Fate)
    requires Inv(s) && p < |s.procs| && Adding(s.procs[p])
    ensures Inv(StepAdd(s, p, fate))
  {
    if s.procs[p].AddIndex? {
      AddCommits(s, p, fate);
    } else if Heads(s, p) {
      if s.procs[p].AddQueued? {
        AddChecksIndex(s, p, fate);
      } else if s.procs[p].AddTarball? {
        AddWritesTarball(s, p, fate);
      } else {
        AddWritesDocument(s, p, fate);
      }
    }
  }

  lemma RemovingKeepsInv(s: State, p: nat, fate: Fate)
    requires Inv(s) && p < |s.procs| && Removing(s.procs[p])
    ensures Inv(StepRemove(s, p, fate))
  {
    if s.procs[p].RemoveLookup? {
      RemoveLooksUp(s, p, fate);
    } else if s.procs[p].RemoveQueued? {
      RemoveReadsIndex(s, p, fate);
    } else {
      RemoveCommits(s, p, fate);
    }
  }

  lemma HandlingKeepsInv(s: State, p: nat, fate: Fate)
    requires Inv(s) && p < |s.procs| && Handling(s.procs[p])
    ensures Inv(StepHandler(s, p, fate))
  {
    if s.procs[p].ApprovePublish? {
      PublishingKeepsInv(s, p, fate);
    } else if s.procs[p].ApproveDocument? || s.procs[p].ApproveStream? {
      ApprovalKeepsInv(s, p, fate);
    } else {
      LookupKeepsInv(s, p, fate);
    }
  }

  lemma ApplyKeepsInv(s: State, a: Action)
    requires Inv(s)
    ensures Inv(Apply(s, a))
  {
    if !a.Step? {
      CallKeepsInv(s, a);
    } else if a.proc < |s.procs| {
      var proc := s.procs[a.proc];
      if Adding(proc) {
        AddingKeepsInv(s, a.proc, a.fate);
      } else if Removing(proc) {
        RemovingKeepsInv(s, a.proc, a.fate);
      } else if Deleting(proc) {
        DeletingKeepsInv(s, a.proc, a.fate);
      } else if Handling(proc) {
        HandlingKeepsInv(s, a.proc, a.fate);
      }
    }
  }

  lemma {:induction false} ExecKeepsInv(acts: seq<Action>)
    ensures Inv(Exec(EMPTY, acts))
  {
    if acts != [] {
      ExecKeepsInv(acts[..|acts| - 1]);
      ApplyKeepsInv(Exec(EMPTY, acts[..|acts| - 1]), acts[|acts| - 1]);
    }
  }

  // ---------------------------------------------------------------- what the history says

  /** The removal a call has written to the index, if any. */
  function Passed(proc: Proc): Option<Removal> {
    match proc
    case RemoveTarball(r, purpose) => Some(Removal(r.id, purpose))
    case RemoveDocument(r, purpose) => Some(Removal(r.id, purpose))
    case RemoveFolder(r, purpose) => Some(Removal(r.id, purpose))
    case RemoveDone(removed) => removed
    case _ => None
  }

  /** Call p has taken the record out of the index. */
  predicate Removes(s: State, p: nat, id: Id) {
    p < |s.procs| && Passed(s.procs[p]).Some? && Passed(s.procs[p]).value.id == id
  }

  /** Call p has taken the record out of the index without its release having been published by an approval. */
  predicate Rejects(s: State, p: nat, id: Id) {
    Removes(s, p, id) && Passed(s.procs[p]).value.purpose.Reject?
  }

  // The dropped and the rejected ids are told by the calls.
  ghost predicate Told(s: State) {
    && (forall id :: id in s.dropped <==> exists p: nat :: Removes(s, p, id))
    && (forall id :: id in s.rejected <==> exists p: nat :: Rejects(s, p, id))
  }

  // Every call but a removal writing the index keeps what it has passed.
  ghost predicate Quiet(s: State, t: State) {
    && t.dropped == s.dropped && t.rejected == s.rejected && |s.procs| <= |t.procs|
    && forall p: nat :: p < |t.procs| ==> Passed(t.procs[p]) == if p < |s.procs| then Passed(s.procs[p]) else None
  }

  lemma SameIsTold(s: State, t: State)
    requires Told(s) && Quiet(s, t)
    ensures Told(t)
  {
    forall id ensures id in t.dropped <==> exists p: nat :: Removes(t, p, id) {
      if id in t.dropped {
        var p: nat :| Removes(s, p, id);
        assert Removes(t, p, id);
      }
      if p: nat :| Removes(t, p, id) {
        assert Removes(s, p, id);
      }
    }
    forall id ensures id in t.rejected <==> exists p: nat :: Rejects(t, p, id) {
      if id in t.rejected {
        var p: nat :| Rejects(s, p, id);
        assert Rejects(t, p, id);
      }
      if p: nat :| Rejects(t, p, id) {
        assert Rejects(s, p, id);
      }
    }
  }

  lemma RemovalIsTold(s: State, t: State, p: nat, r: Removal)
    requires Told(s) && p < |s.procs| == |t.procs| && Passed(s.procs[p]).None? && Passed(t.procs[p]) == Some(r)
    requires forall q: nat :: q < |s.procs| && q != p ==> t.procs[q] == s.procs[q]
    requires t.dropped == s.dropped + {r.id}
    requires t.rejected == if r.purpose.Reject? then s.rejected + {r.id} else s.rejected
    ensures Told(t)
  {
    forall id ensures id in t.dropped <==> exists q: nat :: Removes(t, q, id) {
      if id in s.dropped {
        var q: nat :| Removes(s, q, id);
        assert Removes(t, q, id);
      } else if id == r.id {
        assert Removes(t, p, id);
      }
      if q: nat :| Removes(t, q, id) {
        assert q != p ==> Removes(s, q, id);
      }
    }
    forall id ensures id in t.rejected <==> exists q: nat :: Rejects(t, q, id) {
      if id in s.rejected {
        var q: nat :| Rejects(s, q, id);
        assert Rejects(t, q, id);
      } else if id in t.rejected {
        assert Rejects(t, p, id);
      }
      if q: nat :| Rejects(t, q, id) {
        assert q != p ==> Rejects(s, q, id);
      }
    }
  }

  lemma BecomeIsQuiet(s: State, t: State, p: nat, proc: Proc)
    requires p < |s.procs| && t.procs == s.procs[p := proc] && Passed(proc) == Passed(s.procs[p])
    requires t.dropped == s.dropped && t.rejected == s.rejected
    ensures Quiet(s, t)
  {
  }

  lemma StepAddIsQuiet(s: State, p: nat, fate: Fate)
    requires p < |s.procs| && Adding(s.procs[p])
    ensures Quiet(s, StepAdd(s, p, fate))
  {
    var t := StepAdd(s, p, fate);
    BecomeIsQuiet(s, t, p, t.procs[p]);
  }

  lemma StepDeleteIsQuiet(s: State, p: nat, fate: Fate)
    requires p < |s.procs| && Deleting(s.procs[p])
    ensures Quiet(s, StepDelete(s, p, fate))
  {
    var t := StepDelete(s, p, fate);
    BecomeIsQuiet(s, t, p, t.procs[p]);
  }

  lemma StepHandlerIsQuiet(s: State, p: nat, fate: Fate)
    requires p < |s.procs| && Handling(s.procs[p])
    ensures Quiet(s, StepHandler(s, p, fate))
  {
    var t := StepHandler(s, p, fate);
    BecomeIsQuiet(s, t, p, t.procs[p]);
  }

  lemma StepRemoveIsTold(s: State, p: nat, fate: Fate)
    requires Told(s) && p < |s.procs| && Removing(s.procs[p])
    ensures Told(StepRemove(s, p, fate))
  {
    var t := StepRemove(s, p, fate);
    if s.procs[p].RemoveIndex? && Heads(s, p) && !fate.Throws? {
      RemovalIsTold(s, t, p, Removal(s.procs[p].record.id, s.procs[p].purpose));
    } else {
      BecomeIsQuiet(s, t, p, t.procs[p]);
      SameIsTold(s, t);
    }
  }

  lemma CallIsQuiet(s: State, a: Action)
    requires !a.Step?
    ensures Quiet(s, Apply(s, a))
  {
  }

  lemma ApplyIsTold(s: State, a: Action)
    requires Told(s)
    ensures Told(Apply(s, a))
  {
    if !a.Step? {
      CallIsQuiet(s, a);
      SameIsTold(s, Apply(s, a));
    } else if a.proc < |s.procs| {
      var proc := s.procs[a.proc];
      if Removing(proc) {
        StepRemoveIsTold(s, a.proc, a.fate);
      } else {
        if Adding(proc) {
          StepAddIsQuiet(s, a.proc, a.fate);
        } else if Deleting(proc) {
          StepDeleteIsQuiet(s, a.proc, a.fate);
        } else if Handling(proc) {
          StepHandlerIsQuiet(s, a.proc, a.fate);
        }
        SameIsTold(s, Apply(s, a));
      }
    }
  }

  lemma {:induction false} ExecIsTold(acts: seq<Action>)
    ensures Told(Exec(EMPTY, acts))
  {
    if acts != [] {
      ExecIsTold(acts[..|acts| - 1]);
      ApplyIsTold(Exec(EMPTY, acts[..|acts| - 1]), acts[|acts| - 1]);
    }
  }

  /** Action i unpublishes the release of a record whose add had resolved. */
  predicate UnpublishedAt(acts: seq<Action>, i: nat, r: Record) {
    && i < |acts| && acts[i] == Unpublish(r.release)
    && var s := Exec(EMPTY, acts[..i]);
       r.release in s.published && r.id < |s.procs| && s.procs[r.id] == AddDone(r)
  }

  // An action adds to the committed records, and only an unpublish adds unpublished ids.
  lemma HistoryGrows(s: State, a: Action)
    ensures var t := Apply(s, a);
            && (forall r :: r in s.committed ==> r in t.committed)
            && t.unpublished == (if a.Unpublish? && a.release in s.published
                                 then s.unpublished + IdsOf(s.committed, a.release)
                                 else s.unpublished)
  {
  }

  lemma {:induction false} UnpublishedMeans(acts: seq<Action>, id: Id) returns (i: nat, r: Record)
    requires id in Exec(EMPTY, acts).unpublished
    ensures r.id == id && r in Exec(EMPTY, acts).committed && UnpublishedAt(acts, i, r)
  {
    i := |acts| - 1;
    var init := acts[..i];
    HistoryGrows(Exec(EMPTY, init), acts[i]);
    if id in Exec(EMPTY, init).unpublished {
      i, r := UnpublishedMeans(init, id);
      assert acts[..i] == init[..i];
    } else {
      r :| r in Exec(EMPTY, init).committed && r.release == acts[i].release && r.id == id;
      CommittedResolved(init, r);
    }
  }

  lemma CommittedResolved(acts: seq<Action>, r: Record)
    requires r in Exec(EMPTY, acts).committed
    ensures var s := Exec(EMPTY, acts);
            r.id < |s.procs| && s.procs[r.id] == AddDone(r)
  {
    ExecKeepsInv(acts);
  }

  // ---------------------------------------------------------------- who started what

  /** The call that process q performs, none when there is no such process. */
  function CalledBy(acts: seq<Action>, q: nat): Option<Action> {
    if acts == [] then None
    else
      var init := acts[..|acts| - 1];
      if |Exec(EMPTY, init).procs| == q < |Exec(EMPTY, acts).procs| then Some(acts[|acts| - 1])
      else CalledBy(init, q)
  }

  /** The call may remove the record with this purpose: only approving publishes, and it removes for that only. */
  predicate MayRemove(call: Action, id: Id, purpose: Purpose) {
    if purpose.Reject? then call == CallReject(id) || call == CallRemove(id) else call == CallApprove(id)
  }

  // What the call had to be for its process to have come this far.
  predicate Origin(call: Action, proc: Proc) {
    match proc
    case RejectLookup(id) => call == CallReject(id)
    case ApproveLookup(id) => call == CallApprove(id)
    case ApproveDocument(r) => call == CallApprove(r.id)
    case ApproveTarball(r) => call == CallApprove(r.id)
    case ApproveStream(r) => call == CallApprove(r.id)
    case ApprovePublish(r) => call == CallApprove(r.id)
    case RemoveLookup(id, purpose) => MayRemove(call, id, purpose)
    case RemoveQueued(r, purpose) => MayRemove(call, r.id, purpose)
    case RemoveIndex(r, _, purpose) => MayRemove(call, r.id, purpose)
    case _ => Passed(proc).Some? ==> MayRemove(call, Passed(proc).value.id, Passed(proc).value.purpose)
  }

  lemma HandlerKeepsOrigin(s: State, p: nat, fate: Fate, call: Action)
    requires p < |s.procs| && Origin(call, s.procs[p]) && Handling(s.procs[p])
    ensures p < |StepHandler(s, p, fate).procs| && Origin(call, StepHandler(s, p, fate).procs[p])
  {
    match s.procs[p] {
      case RejectLookup(id) => FindIs(s.index, id);
      case ApproveLookup(id) => FindIs(s.index, id);
      case ApproveTarball(r) => FindIs(s.index, r.id);
      case _ =>
    }
  }

  lemma RemoveKeepsOrigin(s: State, p: nat, fate: Fate, call: Action)
    requires p < |s.procs| && Origin(call, s.procs[p]) && Removing(s.procs[p])
    ensures p < |StepRemove(s, p, fate).procs| && Origin(call, StepRemove(s, p, fate).procs[p])
  {
    if s.procs[p].RemoveLookup? {
      FindIs(s.index, s.procs[p].id);
    }
  }

  lemma AddKeepsOrigin(s: State, p: nat, fate: Fate, call: Action)
    requires p < |s.procs| && Adding(s.procs[p])
    ensures p < |StepAdd(s, p, fate).procs| && Origin(call, StepAdd(s, p, fate).procs[p])
  {
  }

  lemma DeleteKeepsOrigin(s: State, p: nat, fate: Fate, call: Action)
    requires p < |s.procs| && Origin(call, s.procs[p]) && Deleting(s.procs[p])
    ensures p < |StepDelete(s, p, fate).procs| && Origin(call, StepDelete(s, p, fate).procs[p])
  {
  }

  lemma StepKeepsOrigin(s: State, p: nat, fate: Fate, call: Action)
    requires p < |s.procs| && Origin(call, s.procs[p])
    ensures p < |Apply(s, Step(p, fate)).procs| && Origin(call, Apply(s, Step(p, fate)).procs[p])
  {
    if Adding(s.procs[p]) {
      AddKeepsOrigin(s, p, fate, call);
    } else if Removing(s.procs[p]) {
      RemoveKeepsOrigin(s, p, fate, call);
    } else if Deleting(s.procs[p]) {
      DeleteKeepsOrigin(s, p, fate, call);
    } else if Handling(s.procs[p]) {
      HandlerKeepsOrigin(s, p, fate, call);
    }
  }

  // All processes but the one that moves stay as they were, and none joins.
  ghost predicate OnlyMoves(s: State, t: State, p: nat) {
    |t.procs| == |s.procs| && forall q: nat :: q < |s.procs| && q != p ==> t.procs[q] == s.procs[q]
  }

  lemma QueueStepMoves(s: State, p: nat, fate: Fate)
    requires p < |s.procs|
    ensures OnlyMoves(s, StepAdd(s, p, fate), p) && OnlyMoves(s, StepRemove(s, p, fate), p)
  {
  }

  lemma OtherStepMoves(s: State, p: nat, fate: Fate)
    requires p < |s.procs|
    ensures OnlyMoves(s, StepDelete(s, p, fate), p) && OnlyMoves(s, StepHandler(s, p, fate), p)
  {
  }

  lemma CallJoins(s: State, a: Action)
    requires !a.Step?
    ensures var t := Apply(s, a);
            || t.procs == s.procs
            || (|t.procs| == |s.procs| + 1 && t.procs[..|s.procs|] == s.procs && Origin(a, t.procs[|s.procs|]))
  {
  }

  // The processes an action leaves: the same number or one more, and all but the one it moves are as they were.
  lemma ProcsAfter(s: State, a: Action)
    ensures var t := Apply(s, a);
            && |s.procs| <= |t.procs| <= |s.procs| + 1
            && (|t.procs| > |s.procs| ==> !a.Step? && Origin(a, t.procs[|s.procs|]))
            && (forall q: nat :: q < |s.procs| && !(a.Step? && a.proc == q) ==> t.procs[q] == s.procs[q])
  {
    if !a.Step? {
      CallJoins(s, a);
      var t := Apply(s, a);
      assert forall q: nat :: q < |s.procs| ==> t.procs[..|s.procs|][q] == t.procs[q];
    } else if a.proc < |s.procs| {
      QueueStepMoves(s, a.proc, a.fate);
      OtherStepMoves(s, a.proc, a.fate);
    }
  }

  lemma {:induction false} ExecKeepsOrigin(acts: seq<Action>, q: nat)
    requires q < |Exec(EMPTY, acts).procs|
    ensures CalledBy(acts, q).Some? && Origin(CalledBy(acts, q).value, Exec(EMPTY, acts).procs[q])
  {
    var init, a := acts[..|acts| - 1], acts[|acts| - 1];
    var s := Exec(EMPTY, init);
    ProcsAfter(s, a);
    if q < |s.procs| {
      ExecKeepsOrigin(init, q);
      if a.Step? && a.proc == q {
        StepKeepsOrigin(s, q, a.fate, CalledBy(init, q).value);
      }
    }
  }

  /** A call to reject or to remove the record has taken it out of the index. */
  ghost predicate TakenOut(acts: seq<Action>, id: Id) {
    exists q: nat ::
      && Rejects(Exec(EMPTY, acts), q, id)
      && (CalledBy(acts, q) == Some(CallReject(id)) || CalledBy(acts, q) == Some(CallRemove(id)))
  }

  lemma RejectedIsTakenOut(acts: seq<Action>, q: nat, id: Id)
    requires Rejects(Exec(EMPTY, acts), q, id)
    ensures TakenOut(acts, id)
  {
    ExecKeepsOrigin(acts, q);
  }

  // ---------------------------------------------------------------- main results

  /** Whatever interleaves and whatever fails, an indexed record can be read back, document and tarball. */
  lemma {:induction false} IndexedRecordsAreBacked(acts: seq<Action>, r: Record)
    requires r in Exec(EMPTY, acts).index
    ensures var s := Exec(EMPTY, acts);
            && r.id in s.documents && s.documents[r.id] == r
            && (r.id, r.tarballFilename) in s.tarballs
  {
    ExecKeepsInv(acts);
    var s := Exec(EMPTY, acts);
    var i :| 0 <= i < |s.index| && s.index[i] == r;
    assert HasTarball(s, s.index[i]) && HasDocument(s, s.index[i]);
  }

  /** In the index no id and no (package, version) pair appears twice. */
  lemma {:induction false} IndexedRecordsAreDistinct(acts: seq<Action>, i: nat, j: nat)
    requires i < j < |Exec(EMPTY, acts).index|
    ensures var index := Exec(EMPTY, acts).index;
            index[i].id != index[j].id && index[i].release != index[j].release
  {
    ExecKeepsInv(acts);
    var s := Exec(EMPTY, acts);
    assert forall k :: 0 <= k < |s.index| ==> s.index[k] in s.index;
    WithoutIs(s.committed, s.dropped, s.index[i]);
    WithoutIs(s.committed, s.dropped, s.index[j]);
    assert DistinctReleases(s.index);
  }

  /**
   * The index is the successful adds in reverse commit order minus the removed ids; an add
   * is successful exactly when its call resolved, and an id is removed exactly when some
   * call has written its removal to the index.
   */
  lemma {:induction false} IndexIsCommittedMinusDropped(acts: seq<Action>)
    ensures var s := Exec(EMPTY, acts);
            && s.index == Without(s.committed, s.dropped)
            && (forall r :: r in s.committed <==> r.id < |s.procs| && s.procs[r.id] == AddDone(r))
            && (forall id :: id in s.dropped <==> exists p: nat :: Removes(s, p, id))
            && (forall r :: r in s.index <==> r in s.committed && r.id !in s.dropped)
  {
    ExecKeepsInv(acts);
    ExecIsTold(acts);
    var s := Exec(EMPTY, acts);
    forall r ensures r in s.index <==> r in s.committed && r.id !in s.dropped {
      WithoutIs(s.committed, s.dropped, r);
    }
    forall r: Record | r.id < |s.procs| && s.procs[r.id] == AddDone(r) ensures r in s.committed {
    }
  }

  /**
   * From the moment add resolves, in every later state, the version is staged and readable
   * or published, unless since then a call to reject or to remove the record took it out of the
   * index, or someone unpublished the release.
   */
  lemma {:induction false} StagedVersionIsNeverLost(acts: seq<Action>, p: nat)
    requires p < |Exec(EMPTY, acts).procs| && Exec(EMPTY, acts).procs[p].AddDone?
    ensures var s := Exec(EMPTY, acts);
            var r := s.procs[p].record;
            || (r in s.index && r.id in s.documents
                && s.documents[r.id] == r && (r.id, r.tarballFilename) in s.tarballs)
            || r.release in s.published
            || TakenOut(acts, r.id)
            || (exists i: nat :: UnpublishedAt(acts, i, r))
  {
    ExecKeepsInv(acts);
    ExecIsTold(acts);
    var s := Exec(EMPTY, acts);
    var r := s.procs[p].record;
    assert r in s.committed;
    if r.id !in s.dropped {
      WithoutIs(s.committed, s.dropped, r);
      IndexedRecordsAreBacked(acts, r);
    } else if r.id in s.unpublished {
      var i, r' := UnpublishedMeans(acts, r.id);
      SameIdSameRecord(s, r, r');
    } else if r.id in s.rejected {
      var q: nat :| Rejects(s, q, r.id);
      RejectedIsTakenOut(acts, q, r.id);
    }
  }

  lemma SameIdSameRecord(s: State, a: Record, b: Record)
    requires History(s) && a in s.committed && b in s.committed && a.id == b.id
    ensures a == b
  {
    assert s.procs[a.id] == AddDone(a) && s.procs[b.id] == AddDone(b);
  }
}
