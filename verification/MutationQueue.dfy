/**
 * The promise queues of TfaStore.enqueueUserMutation (one chain per user) and
 * StageStorage.enqueueIndexMutation (one chain in all), as a step machine.
 *
 * A call captures the promise it finds under its key, and its `run` starts once that
 * promise has resolved. `run` is any list of storage operations on the value behind the
 * key; each one may throw. Every interleaving of calls, starts, operations and clean-ups
 * of all keys is a list of actions.
 */
module MutationQueue {
  import opened Common

  /** How one storage operation of a mutation ends. */
  datatype Outcome<V, L> = Next(store: V, local: L) | Throw(store: V, error: nat)

  /** How the promise of a whole mutation ends. */
  datatype Settled<L> = Resolved(local: L) | Rejected(error: nat)

  /** One enqueued `run`: its operations, applied in order to the value and to its locals. */
  datatype Call<K, !V, !L> = Call(key: K, steps: seq<(V, L) -> Outcome<V, L>>, init: L)

  datatype Phase<L> =
    | Waiting
    | Running(pc: nat, local: L)
    | Done(result: Settled<L>)
    | Cleaned(result: Settled<L>)

  /** `prev` is the promise captured by the call: the clean-up of an earlier job, or none. */
  datatype Job<K, !V, !L> = Job(call: Call<K, V, L>, prev: Option<nat>, phase: Phase<L>)

  /** `queues` holds, per key, the job whose clean-up promise the next call will wait for. */
  datatype State<!K, !V, !L> = State(jobs: seq<Job<K, V, L>>, queues: map<K, nat>, store: map<K, V>)

  datatype Action<K, !V, !L> =
    | Enqueue(call: Call<K, V, L>)
    | Start(job: nat)
    | Advance(job: nat)
    | Clean(job: nat)

  ghost function Empty<K, V, L>(): State<K, V, L> {
    State([], map[], map[])
  }

  ghost function At<K, V>(store: map<K, V>, k: K, d: V): V {
    if k in store then store[k] else d
  }

  // The promise captured by the call has resolved.
  ghost predicate Ready<K, V, L>(s: State<K, V, L>, j: nat)
    requires j < |s.jobs|
  {
    match s.jobs[j].prev
    case None => true
    case Some(p) => p < |s.jobs| && s.jobs[p].phase.Cleaned?
  }

  /**
   * One action. `keep` tells whether the entry survives its clean-up (the stage index keeps
   * its one promise, TfaStore drops the entry when it is still its own); `d` is the value
   * of a key never written. An action that is not enabled leaves the state as it is.
   */
  ghost function Apply<K, V, L>(keep: bool, d: V, s: State<K, V, L>, a: Action<K, V, L>): State<K, V, L> {
    match a
    case Enqueue(c) =>
      var prev := if c.key in s.queues then Some(s.queues[c.key]) else None;
      State(s.jobs + [Job(c, prev, Waiting)], s.queues[c.key := |s.jobs|], s.store)
    case Start(j) =>
      if j < |s.jobs| && s.jobs[j].phase.Waiting? && Ready(s, j) then
        s.(jobs := s.jobs[j := s.jobs[j].(phase := Running(0, s.jobs[j].call.init))])
      else s
    case Advance(j) =>
      if j < |s.jobs| && s.jobs[j].phase.Running? then AdvanceJob(d, s, j) else s
    case Clean(j) =>
      if j < |s.jobs| && s.jobs[j].phase.Done? then
        var k := s.jobs[j].call.key;
        s.(jobs := s.jobs[j := s.jobs[j].(phase := Cleaned(s.jobs[j].phase.result))],
           queues := if !keep && k in s.queues && s.queues[k] == j then s.queues - {k} else s.queues)
      else s
  }

  ghost function AdvanceJob<K, V, L>(d: V, s: State<K, V, L>, j: nat): State<K, V, L>
    requires j < |s.jobs| && s.jobs[j].phase.Running?
  {
    var job := s.jobs[j];
    if job.phase.pc < |job.call.steps| then
      match job.call.steps[job.phase.pc](At(s.store, job.call.key, d), job.phase.local)
      case Next(v, l) =>
        s.(jobs := s.jobs[j := job.(phase := Running(job.phase.pc + 1, l))],
           store := s.store[job.call.key := v])
      case Throw(v, e) =>
        s.(jobs := s.jobs[j := job.(phase := Done(Rejected(e)))],
           store := s.store[job.call.key := v])
    else
      s.(jobs := s.jobs[j := job.(phase := Done(Resolved(job.phase.local)))])
  }

  ghost function Exec<K, V, L>(keep: bool, d: V, s: State<K, V, L>, acts: seq<Action<K, V, L>>): State<K, V, L> {
    if acts == [] then s
    else Apply(keep, d, Exec(keep, d, s, acts[..|acts| - 1]), acts[|acts| - 1])
  }

  // ---------------------------------------------------------------- one by one

  datatype Partial<V, L> = InFlight(store: V, local: L) | Stopped(store: V, result: Settled<L>)

  /** The first `pc` operations of one mutation, with nothing else running. */
  ghost function RunPrefix<K, V, L>(c: Call<K, V, L>, pc: nat, v: V): Partial<V, L>
    requires pc <= |c.steps|
  {
    if pc == 0 then InFlight(v, c.init)
    else
      match RunPrefix(c, pc - 1, v)
      case Stopped(w, r) => Stopped(w, r)
      case InFlight(w, l) =>
        match c.steps[pc - 1](w, l)
        case Next(w', l') => InFlight(w', l')
        case Throw(w', e) => Stopped(w', Rejected(e))
  }

  /** A whole mutation run alone: the value it leaves and how it settles. */
  ghost function RunAlone<K, V, L>(c: Call<K, V, L>, v: V): (V, Settled<L>) {
    match RunPrefix(c, |c.steps|, v)
    case Stopped(w, r) => (w, r)
    case InFlight(w, l) => (w, Resolved(l))
  }

  /** The value behind `k` after its mutations among the first `n` calls ran one by one. */
  ghost function Replay<K, V, L>(jobs: seq<Job<K, V, L>>, k: K, n: nat, d: V): V
    requires n <= |jobs|
  {
    if n == 0 then d
    else if jobs[n - 1].call.key != k then Replay(jobs, k, n - 1, d)
    else RunAlone(jobs[n - 1].call, Replay(jobs, k, n - 1, d)).0
  }

  lemma {:induction false} StoppedStays<K, V, L>(c: Call<K, V, L>, pc: nat, n: nat, v: V)
    requires pc <= n <= |c.steps| && RunPrefix(c, pc, v).Stopped?
    ensures RunPrefix(c, n, v) == RunPrefix(c, pc, v)
  {
    if pc < n {
      StoppedStays(c, pc, n - 1, v);
    }
  }

  lemma {:induction false} ReplayFrame<K, V, L>(a: seq<Job<K, V, L>>, b: seq<Job<K, V, L>>, k: K, n: nat, d: V)
    requires n <= |a| && n <= |b|
    requires forall i :: 0 <= i < n ==> a[i].call == b[i].call
    ensures Replay(a, k, n, d) == Replay(b, k, n, d)
  {
    if n > 0 {
      ReplayFrame(a, b, k, n - 1, d);
    }
  }

  lemma {:induction false} ReplaySkip<K, V, L>(jobs: seq<Job<K, V, L>>, k: K, m: nat, n: nat, d: V)
    requires m <= n <= |jobs|
    requires forall i :: m <= i < n ==> jobs[i].call.key != k
    ensures Replay(jobs, k, n, d) == Replay(jobs, k, m, d)
  {
    if m < n {
      ReplaySkip(jobs, k, m, n - 1, d);
    }
  }

  // ---------------------------------------------------------------- invariant

  // `p` is the call of key k right before j.
  ghost predicate Follows<K, V, L>(jobs: seq<Job<K, V, L>>, p: nat, j: nat)
    requires j < |jobs|
  {
    && p < j
    && jobs[p].call.key == jobs[j].call.key
    && forall i :: p < i < j ==> jobs[i].call.key != jobs[j].call.key
  }

  ghost predicate CleanBefore<K, V, L>(jobs: seq<Job<K, V, L>>, k: K, n: nat)
    requires n <= |jobs|
  {
    forall i :: 0 <= i < n && jobs[i].call.key == k ==> jobs[i].phase.Cleaned?
  }

  ghost predicate Linked<K, V, L>(jobs: seq<Job<K, V, L>>) {
    forall j :: 0 <= j < |jobs| ==>
      match jobs[j].prev
      case Some(p) => Follows(jobs, p, j)
      case None => CleanBefore(jobs, jobs[j].call.key, j)
  }

  // An entry is the last call of its key; without an entry nothing of the key is left to run.
  ghost predicate Entries<K, V, L>(s: State<K, V, L>) {
    && (forall k :: k in s.queues ==>
          && s.queues[k] < |s.jobs|
          && s.jobs[s.queues[k]].call.key == k
          && forall i :: s.queues[k] < i < |s.jobs| ==> s.jobs[i].call.key != k)
    && (forall j :: 0 <= j < |s.jobs| && s.jobs[j].call.key !in s.queues ==> s.jobs[j].phase.Cleaned?)
  }

  ghost predicate Ordered<K, V, L>(jobs: seq<Job<K, V, L>>) {
    forall j :: 0 <= j < |jobs| && !jobs[j].phase.Waiting? ==> CleanBefore(jobs, jobs[j].call.key, j)
  }

  // Job j has gone as far as it would have gone alone after all earlier jobs of its key.
  ghost predicate Faithful<K, V, L>(d: V, s: State<K, V, L>, j: nat)
    requires j < |s.jobs|
  {
    var job := s.jobs[j];
    var v := Replay(s.jobs, job.call.key, j, d);
    match job.phase
    case Waiting => true
    case Running(pc, l) =>
      pc <= |job.call.steps| && RunPrefix(job.call, pc, v) == InFlight(At(s.store, job.call.key, d), l)
    case Done(r) => r == RunAlone(job.call, v).1
    case Cleaned(r) => r == RunAlone(job.call, v).1
  }

  ghost predicate Over<L>(p: Phase<L>) {
    p.Done? || p.Cleaned?
  }

  // The calls of k before n are over, those from n on have not started.
  ghost predicate Frontier<K, V, L>(jobs: seq<Job<K, V, L>>, k: K, n: nat)
    requires n <= |jobs|
  {
    && (forall i :: 0 <= i < n && jobs[i].call.key == k ==> Over(jobs[i].phase))
    && (forall i :: n <= i < |jobs| && jobs[i].call.key == k ==> jobs[i].phase.Waiting?)
  }

  ghost predicate Settles<K(!new), V, L>(d: V, s: State<K, V, L>) {
    forall k: K, n: nat :: n <= |s.jobs| && Frontier(s.jobs, k, n) ==> At(s.store, k, d) == Replay(s.jobs, k, n, d)
  }

  ghost predicate Inv<K(!new), V, L>(d: V, s: State<K, V, L>) {
    && Linked(s.jobs)
    && Entries(s)
    && Ordered(s.jobs)
    && (forall j: nat :: j < |s.jobs| ==> Faithful(d, s, j))
    && Settles(d, s)
  }

  // One more job, which waits; nothing else differs but the entry of its key.
  ghost predicate Joins<K, V, L>(s: State<K, V, L>, t: State<K, V, L>) {
    && |t.jobs| == |s.jobs| + 1 && t.jobs[..|s.jobs|] == s.jobs && t.store == s.store
    && t.jobs[|s.jobs|].phase.Waiting?
  }

  lemma JoinFrame<K, V, L>(s: State<K, V, L>, t: State<K, V, L>)
    requires Joins(s, t)
    ensures forall i {:trigger t.jobs[i]} {:trigger s.jobs[i]} :: 0 <= i < |s.jobs| ==> t.jobs[i] == s.jobs[i]
  {
    assert forall i :: 0 <= i < |s.jobs| ==> t.jobs[..|s.jobs|][i] == t.jobs[i];
  }

  lemma JoinKeepsFaithful<K(!new), V, L>(d: V, s: State<K, V, L>, t: State<K, V, L>, j: nat)
    requires Joins(s, t) && j < |t.jobs| && (j < |s.jobs| ==> Faithful(d, s, j))
    ensures Faithful(d, t, j)
  {
    JoinFrame(s, t);
    if j < |s.jobs| {
      ReplayFrame(s.jobs, t.jobs, s.jobs[j].call.key, j, d);
    }
  }

  lemma JoinSettles<K(!new), V, L>(d: V, s: State<K, V, L>, t: State<K, V, L>)
    requires Joins(s, t) && Settles(d, s)
    ensures Settles(d, t)
  {
    var n := |s.jobs|;
    JoinFrame(s, t);
    forall k: K, m: nat | m <= |t.jobs| && Frontier(t.jobs, k, m)
      ensures At(t.store, k, d) == Replay(t.jobs, k, m, d)
    {
      var m' := if m <= n then m else n;
      assert Frontier(s.jobs, k, m');
      ReplayFrame(s.jobs, t.jobs, k, m', d);
    }
  }

  lemma JoinKeepsLinked<K, V, L>(s: State<K, V, L>, t: State<K, V, L>)
    requires Joins(s, t) && Linked(s.jobs) && Entries(s)
    requires var c := t.jobs[|s.jobs|];
             c.prev == if c.call.key in s.queues then Some(s.queues[c.call.key]) else None
    ensures Linked(t.jobs)
  {
    JoinFrame(s, t);
    forall j | 0 <= j < |t.jobs|
      ensures match t.jobs[j].prev
              case Some(p) => Follows(t.jobs, p, j)
              case None => CleanBefore(t.jobs, t.jobs[j].call.key, j)
    {
      if j < |s.jobs| {
        match s.jobs[j].prev {
          case Some(p) => assert Follows(s.jobs, p, j);
          case None => assert CleanBefore(s.jobs, s.jobs[j].call.key, j);
        }
      }
    }
  }

  lemma JoinKeepsOrdered<K, V, L>(s: State<K, V, L>, t: State<K, V, L>)
    requires Joins(s, t) && Ordered(s.jobs)
    ensures Ordered(t.jobs)
  {
    JoinFrame(s, t);
    forall j | 0 <= j < |t.jobs| && !t.jobs[j].phase.Waiting?
      ensures CleanBefore(t.jobs, t.jobs[j].call.key, j)
    {
      assert CleanBefore(s.jobs, s.jobs[j].call.key, j);
    }
  }

  lemma EnqueueKeepsInv<K(!new), V, L>(keep: bool, d: V, s: State<K, V, L>, c: Call<K, V, L>)
    requires Inv(d, s)
    ensures Inv(d, Apply(keep, d, s, Enqueue(c)))
  {
    var t := Apply(keep, d, s, Enqueue(c));
    assert t.jobs[..|s.jobs|] == s.jobs;
    JoinKeepsLinked(s, t);
    JoinKeepsOrdered(s, t);
    JoinSettles(d, s, t);
    forall j: nat | j < |t.jobs| ensures Faithful(d, t, j) {
      JoinKeepsFaithful(d, s, t, j);
    }
    JoinFrame(s, t);
    assert Entries(t);
  }

  // Only the phase of job j, and the value behind its key, differ.
  ghost predicate Moves<K, V, L>(s: State<K, V, L>, t: State<K, V, L>, j: nat) {
    && j < |s.jobs| == |t.jobs|
    && (forall i :: 0 <= i < |s.jobs| && i != j ==> t.jobs[i] == s.jobs[i])
    && t.jobs[j].call == s.jobs[j].call && t.jobs[j].prev == s.jobs[j].prev
    && (s.jobs[j].phase.Cleaned? ==> t.jobs[j].phase == s.jobs[j].phase)
  }

  lemma {:induction false} MoveKeepsLinked<K, V, L>(s: State<K, V, L>, t: State<K, V, L>, j: nat)
    requires Moves(s, t, j) && Linked(s.jobs)
    ensures Linked(t.jobs)
  {
    forall i | 0 <= i < |t.jobs|
      ensures match t.jobs[i].prev
              case Some(p) => Follows(t.jobs, p, i)
              case None => CleanBefore(t.jobs, t.jobs[i].call.key, i)
    {
      match s.jobs[i].prev {
        case Some(p) => assert Follows(s.jobs, p, i);
        case None => assert CleanBefore(s.jobs, s.jobs[i].call.key, i);
      }
    }
  }

  lemma {:induction false} MoveKeepsOrdered<K, V, L>(s: State<K, V, L>, t: State<K, V, L>, j: nat)
    requires Moves(s, t, j) && Ordered(s.jobs)
    requires s.jobs[j].phase.Waiting? ==> CleanBefore(s.jobs, s.jobs[j].call.key, j)
    ensures Ordered(t.jobs)
  {
    forall i | 0 <= i < |t.jobs| && !t.jobs[i].phase.Waiting?
      ensures CleanBefore(t.jobs, t.jobs[i].call.key, i)
    {
      assert CleanBefore(s.jobs, s.jobs[i].call.key, i);
    }
  }

  // The job of a captured promise that resolved has nothing of its key left before it.
  lemma {:induction false} ReadyIsAlone<K, V, L>(s: State<K, V, L>, j: nat)
    requires j < |s.jobs| && Linked(s.jobs) && Ordered(s.jobs) && Ready(s, j)
    ensures CleanBefore(s.jobs, s.jobs[j].call.key, j)
  {
    match s.jobs[j].prev {
      case Some(p) =>
        assert Follows(s.jobs, p, j);
        assert CleanBefore(s.jobs, s.jobs[p].call.key, p);
      case None =>
    }
  }

  // While j is not cleaned, no later call of its key has started.
  lemma {:induction false} LaterWait<K, V, L>(s: State<K, V, L>, j: nat)
    requires j < |s.jobs| && Ordered(s.jobs) && !s.jobs[j].phase.Cleaned?
    ensures forall i :: j < i < |s.jobs| && s.jobs[i].call.key == s.jobs[j].call.key ==> s.jobs[i].phase.Waiting?
  {
    forall i | j < i < |s.jobs| && s.jobs[i].call.key == s.jobs[j].call.key ensures s.jobs[i].phase.Waiting? {
      assert s.jobs[i].phase.Waiting? || CleanBefore(s.jobs, s.jobs[i].call.key, i);
    }
  }

  // Frontiers of other keys, and their values, are untouched by a move.
  lemma MoveSettlesOthers<K(!new), V, L>(d: V, s: State<K, V, L>, t: State<K, V, L>, j: nat)
    requires Moves(s, t, j) && Settles(d, s)
    requires forall k :: k != s.jobs[j].call.key ==> At(t.store, k, d) == At(s.store, k, d)
    ensures forall k, n: nat :: k != s.jobs[j].call.key && n <= |t.jobs| && Frontier(t.jobs, k, n)
              ==> At(t.store, k, d) == Replay(t.jobs, k, n, d)
  {
    forall k, n: nat | k != s.jobs[j].call.key && n <= |t.jobs| && Frontier(t.jobs, k, n)
      ensures At(t.store, k, d) == Replay(t.jobs, k, n, d)
    {
      assert Frontier(s.jobs, k, n);
      ReplayFrame(s.jobs, t.jobs, k, n, d);
    }
  }

  // A job alone in its key moves: the others have gone as far as before.
  lemma MoveKeepsOthers<K(!new), V, L>(d: V, s: State<K, V, L>, t: State<K, V, L>, j: nat, i: nat)
    requires Moves(s, t, j) && Ordered(s.jobs) && i < |s.jobs| && i != j && Faithful(d, s, i)
    requires forall k :: k != s.jobs[j].call.key ==> At(t.store, k, d) == At(s.store, k, d)
    requires CleanBefore(s.jobs, s.jobs[j].call.key, j) && !s.jobs[j].phase.Cleaned?
    ensures Faithful(d, t, i)
  {
    LaterWait(s, j);
    assert s.jobs[i].call.key == s.jobs[j].call.key ==> !s.jobs[i].phase.Running?;
    ReplayFrame(s.jobs, t.jobs, s.jobs[i].call.key, i, d);
  }

  lemma MoveKeepsFaithful<K(!new), V, L>(d: V, s: State<K, V, L>, t: State<K, V, L>, j: nat)
    requires Moves(s, t, j) && Inv(d, s) && Faithful(d, t, j)
    requires forall k :: k != s.jobs[j].call.key ==> At(t.store, k, d) == At(s.store, k, d)
    requires CleanBefore(s.jobs, s.jobs[j].call.key, j) && !s.jobs[j].phase.Cleaned?
    ensures forall i: nat :: i < |t.jobs| ==> Faithful(d, t, i)
  {
    forall i: nat | i < |t.jobs| ensures Faithful(d, t, i) {
      if i != j {
        MoveKeepsOthers(d, s, t, j, i);
      }
    }
  }

  lemma MoveKeepsEntries<K, V, L>(s: State<K, V, L>, t: State<K, V, L>, j: nat)
    requires Moves(s, t, j) && Entries(s)
    requires t.queues == s.queues
          || (t.jobs[j].phase.Cleaned? && s.jobs[j].call.key in s.queues && s.queues[s.jobs[j].call.key] == j
              && CleanBefore(s.jobs, s.jobs[j].call.key, j) && t.queues == s.queues - {s.jobs[j].call.key})
    ensures Entries(t)
  {
  }

  lemma StartKeepsInv<K(!new), V, L>(keep: bool, d: V, s: State<K, V, L>, j: nat)
    requires Inv(d, s) && j < |s.jobs| && s.jobs[j].phase.Waiting? && Ready(s, j)
    ensures Inv(d, Apply(keep, d, s, Start(j)))
  {
    var t := Apply(keep, d, s, Start(j));
    var k := s.jobs[j].call.key;
    ReadyIsAlone(s, j);
    MoveKeepsLinked(s, t, j);
    MoveKeepsOrdered(s, t, j);
    MoveKeepsEntries(s, t, j);
    assert Faithful(d, t, j) by {
      LaterWait(s, j);
      assert Frontier(s.jobs, k, j);
      ReplayFrame(s.jobs, t.jobs, k, j, d);
      assert RunPrefix(t.jobs[j].call, 0, Replay(t.jobs, k, j, d)) == InFlight(At(t.store, k, d), t.jobs[j].call.init);
    }
    MoveKeepsFaithful(d, s, t, j);
    StartSettles(d, s, t, j);
  }

  lemma StartSettles<K(!new), V, L>(d: V, s: State<K, V, L>, t: State<K, V, L>, j: nat)
    requires Moves(s, t, j) && Settles(d, s) && t.store == s.store && t.jobs[j].phase.Running?
    ensures Settles(d, t)
  {
    MoveSettlesOthers(d, s, t, j);
    forall k: K, n: nat | n <= |t.jobs| && Frontier(t.jobs, k, n)
      ensures At(t.store, k, d) == Replay(t.jobs, k, n, d)
    {
      assert t.jobs[j].phase.Running?;
    }
  }

  lemma {:induction false} AdvanceIsFaithful<K(!new), V, L>(d: V, s: State<K, V, L>, j: nat)
    requires Inv(d, s) && j < |s.jobs| && s.jobs[j].phase.Running?
    ensures var t := AdvanceJob(d, s, j);
            && Faithful(d, t, j)
            && (t.jobs[j].phase.Done? ==>
                  At(t.store, s.jobs[j].call.key, d) ==
                    RunAlone(s.jobs[j].call, Replay(s.jobs, s.jobs[j].call.key, j, d)).0)
  {
    var t := AdvanceJob(d, s, j);
    var c := s.jobs[j].call;
    var pc := s.jobs[j].phase.pc;
    var v := Replay(s.jobs, c.key, j, d);
    assert Faithful(d, s, j);
    ReplayFrame(s.jobs, t.jobs, c.key, j, d);
    if pc < |c.steps| {
      assert RunPrefix(c, pc + 1, v) ==
        match c.steps[pc](At(s.store, c.key, d), s.jobs[j].phase.local)
        case Next(w', l') => InFlight(w', l')
        case Throw(w', e) => Stopped(w', Rejected(e));
      if t.jobs[j].phase.Done? {
        StoppedStays(c, pc + 1, |c.steps|, v);
      }
    }
  }

  // The value behind the key of a job that just ended.
  lemma EndSettles<K(!new), V, L>(d: V, s: State<K, V, L>, t: State<K, V, L>, j: nat, n: nat)
    requires Moves(s, t, j) && Ordered(s.jobs) && s.jobs[j].phase.Running?
    requires n <= |t.jobs| && Frontier(t.jobs, s.jobs[j].call.key, n)
    requires Over(t.jobs[j].phase) ==>
               At(t.store, s.jobs[j].call.key, d) ==
                 RunAlone(s.jobs[j].call, Replay(s.jobs, s.jobs[j].call.key, j, d)).0
    requires t.jobs[j].phase.Running? || Over(t.jobs[j].phase)
    ensures At(t.store, s.jobs[j].call.key, d) == Replay(t.jobs, s.jobs[j].call.key, n, d)
  {
    var k := s.jobs[j].call.key;
    LaterWait(s, j);
    assert t.jobs[j].call.key == k && j < n;
    assert forall i :: j < i < n ==> t.jobs[i].call.key != k;
    ReplaySkip(t.jobs, k, j + 1, n, d);
    ReplayFrame(s.jobs, t.jobs, k, j, d);
  }

  lemma AdvanceSettles<K(!new), V, L>(d: V, s: State<K, V, L>, j: nat)
    requires Inv(d, s) && j < |s.jobs| && s.jobs[j].phase.Running?
    ensures Settles(d, AdvanceJob(d, s, j))
  {
    var t := AdvanceJob(d, s, j);
    var k := s.jobs[j].call.key;
    MoveSettlesOthers(d, s, t, j);
    AdvanceIsFaithful(d, s, j);
    forall n: nat | n <= |t.jobs| && Frontier(t.jobs, k, n)
      ensures At(t.store, k, d) == Replay(t.jobs, k, n, d)
    {
      EndSettles(d, s, t, j, n);
    }
  }

  lemma AdvanceKeepsInv<K(!new), V, L>(d: V, s: State<K, V, L>, j: nat)
    requires Inv(d, s) && j < |s.jobs| && s.jobs[j].phase.Running?
    ensures Inv(d, AdvanceJob(d, s, j))
  {
    var t := AdvanceJob(d, s, j);
    assert CleanBefore(s.jobs, s.jobs[j].call.key, j);
    AdvanceSettles(d, s, j);
    AdvanceIsFaithful(d, s, j);
    MoveKeepsLinked(s, t, j);
    MoveKeepsOrdered(s, t, j);
    MoveKeepsEntries(s, t, j);
    MoveKeepsFaithful(d, s, t, j);
  }

  lemma CleanSettles<K(!new), V, L>(d: V, s: State<K, V, L>, t: State<K, V, L>, j: nat)
    requires Moves(s, t, j) && Settles(d, s) && t.store == s.store
    requires s.jobs[j].phase.Done? && t.jobs[j].phase.Cleaned?
    ensures Settles(d, t)
  {
    var k := s.jobs[j].call.key;
    MoveSettlesOthers(d, s, t, j);
    forall n: nat | n <= |t.jobs| && Frontier(t.jobs, k, n)
      ensures At(t.store, k, d) == Replay(t.jobs, k, n, d)
    {
      assert Over(t.jobs[j].phase);
      assert Frontier(s.jobs, k, n);
      ReplayFrame(s.jobs, t.jobs, k, n, d);
    }
  }

  lemma CleanKeepsInv<K(!new), V, L>(keep: bool, d: V, s: State<K, V, L>, j: nat)
    requires Inv(d, s) && j < |s.jobs| && s.jobs[j].phase.Done?
    ensures Inv(d, Apply(keep, d, s, Clean(j)))
  {
    var t := Apply(keep, d, s, Clean(j));
    var k := s.jobs[j].call.key;
    assert CleanBefore(s.jobs, k, j);
    MoveKeepsLinked(s, t, j);
    MoveKeepsOrdered(s, t, j);
    MoveKeepsEntries(s, t, j);
    assert Faithful(d, t, j) by {
      assert Faithful(d, s, j);
      ReplayFrame(s.jobs, t.jobs, k, j, d);
    }
    MoveKeepsFaithful(d, s, t, j);
    CleanSettles(d, s, t, j);
  }

  lemma {:induction false} ApplyKeepsInv<K(!new), V, L>(keep: bool, d: V, s: State<K, V, L>, a: Action<K, V, L>)
    requires Inv(d, s)
    ensures Inv(d, Apply(keep, d, s, a))
  {
    match a {
      case Enqueue(c) => EnqueueKeepsInv(keep, d, s, c);
      case Start(j) =>
        if j < |s.jobs| && s.jobs[j].phase.Waiting? && Ready(s, j) {
          StartKeepsInv(keep, d, s, j);
        }
      case Advance(j) =>
        if j < |s.jobs| && s.jobs[j].phase.Running? {
          AdvanceKeepsInv(d, s, j);
        }
      case Clean(j) =>
        if j < |s.jobs| && s.jobs[j].phase.Done? {
          CleanKeepsInv(keep, d, s, j);
        }
    }
  }

  lemma {:induction false} ExecKeepsInv<K(!new), V, L>(keep: bool, d: V, acts: seq<Action<K, V, L>>)
    ensures Inv(d, Exec(keep, d, Empty(), acts))
  {
    if acts != [] {
      ExecKeepsInv(keep, d, acts[..|acts| - 1]);
      ApplyKeepsInv(keep, d, Exec(keep, d, Empty(), acts[..|acts| - 1]), acts[|acts| - 1]);
    }
  }

  // ---------------------------------------------------------------- main results

  /** Two mutations of one key are never under way together, and they run in call order. */
  lemma {:induction false} MutationsNeverOverlap<K(!new), V, L>(keep: bool, d: V, acts: seq<Action<K, V, L>>, i: nat,
      j: nat)
    requires i < j < |Exec(keep, d, Empty(), acts).jobs|
    requires Exec(keep, d, Empty(), acts).jobs[i].call.key == Exec(keep, d, Empty(), acts).jobs[j].call.key
    ensures var jobs := Exec(keep, d, Empty(), acts).jobs;
            !jobs[j].phase.Waiting? ==> jobs[i].phase.Cleaned?
  {
    ExecKeepsInv(keep, d, acts);
    var jobs := Exec(keep, d, Empty(), acts).jobs;
    if !jobs[j].phase.Waiting? {
      assert CleanBefore(jobs, jobs[j].call.key, j);
    }
  }

  /**
   * Every settled mutation settled as in a run one by one in call order, and a key with
   * nothing in progress holds the value such a run leaves.
   */
  ghost predicate AsIfOneByOne<K(!new), V, L>(d: V, s: State<K, V, L>) {
    && (forall j: nat :: j < |s.jobs| && Over(s.jobs[j].phase) ==>
          s.jobs[j].phase.result == RunAlone(s.jobs[j].call, Replay(s.jobs, s.jobs[j].call.key, j, d)).1)
    && (forall k: K, n: nat :: n <= |s.jobs| && Frontier(s.jobs, k, n) ==>
          At(s.store, k, d) == Replay(s.jobs, k, n, d))
  }

  /** Linearisation: it is so in every state of every run, rejections included. */
  lemma {:induction false} RunsAsIfOneByOne<K(!new), V, L>(keep: bool, d: V, acts: seq<Action<K, V, L>>)
    ensures AsIfOneByOne(d, Exec(keep, d, Empty(), acts))
  {
    ExecKeepsInv(keep, d, acts);
    var s := Exec(keep, d, Empty(), acts);
    forall j: nat | j < |s.jobs| && Over(s.jobs[j].phase)
      ensures s.jobs[j].phase.result == RunAlone(s.jobs[j].call, Replay(s.jobs, s.jobs[j].call.key, j, d)).1
    {
      assert Faithful(d, s, j);
    }
  }

  /** A key without an entry has nothing queued or running, so a call that finds none may start at once. */
  lemma {:induction false} EntryDroppedOnlyWhenIdle<K(!new), V, L>(keep: bool, d: V, acts: seq<Action<K, V, L>>, k: K)
    requires k !in Exec(keep, d, Empty(), acts).queues
    ensures var jobs := Exec(keep, d, Empty(), acts).jobs;
            forall j :: 0 <= j < |jobs| && jobs[j].call.key == k ==> jobs[j].phase.Cleaned?
  {
    ExecKeepsInv(keep, d, acts);
  }

  // Where entries do not survive their clean-up, an entry is the promise of a mutation not cleaned up yet.
  ghost predicate EntriesAreOpen<K, V, L>(s: State<K, V, L>) {
    forall k :: k in s.queues ==> s.queues[k] < |s.jobs| && !s.jobs[s.queues[k]].phase.Cleaned?
  }

  lemma ApplyKeepsOpen<K(!new), V, L>(d: V, s: State<K, V, L>, a: Action<K, V, L>)
    requires EntriesAreOpen(s) && Entries(s)
    ensures EntriesAreOpen(Apply(false, d, s, a))
  {
  }

  /** Where entries do not survive, a key whose mutations are all cleaned up has no entry left. */
  lemma {:induction false} IdleHasNoEntry<K(!new), V, L>(d: V, acts: seq<Action<K, V, L>>, k: K)
    requires var jobs := Exec(false, d, Empty(), acts).jobs;
             forall j :: 0 <= j < |jobs| && jobs[j].call.key == k ==> jobs[j].phase.Cleaned?
    ensures k !in Exec(false, d, Empty(), acts).queues
  {
    ExecKeepsOpen(d, acts);
    ExecKeepsInv(false, d, acts);
  }

  lemma {:induction false} ExecKeepsOpen<K(!new), V, L>(d: V, acts: seq<Action<K, V, L>>)
    ensures EntriesAreOpen(Exec(false, d, Empty(), acts))
  {
    if acts != [] {
      ExecKeepsOpen(d, acts[..|acts| - 1]);
      ExecKeepsInv(false, d, acts[..|acts| - 1]);
      ApplyKeepsOpen(d, Exec(false, d, Empty(), acts[..|acts| - 1]), acts[|acts| - 1]);
    }
  }

  /** The chain never stalls: the first unfinished mutation of a key can always move, even behind rejected ones. */
  lemma {:induction false} FirstUnfinishedCanMove<K(!new), V, L>(keep: bool, d: V, acts: seq<Action<K, V, L>>, j: nat)
    requires var jobs := Exec(keep, d, Empty(), acts).jobs;
             j < |jobs| && !jobs[j].phase.Cleaned? && CleanBefore(jobs, jobs[j].call.key, j)
    ensures var s := Exec(keep, d, Empty(), acts);
            exists a :: a in [Start(j), Advance(j), Clean(j)] && Apply(keep, d, s, a) != s
  {
    ExecKeepsInv(keep, d, acts);
    var s := Exec(keep, d, Empty(), acts);
    var a: Action<K, V, L> := match s.jobs[j].phase
      case Waiting => Start(j)
      case Running(_, _) => Advance(j)
      case _ => Clean(j);
    if s.jobs[j].phase.Waiting? {
      match s.jobs[j].prev {
        case Some(p) => assert Follows(s.jobs, p, j);
        case None =>
      }
    }
    assert Apply(keep, d, s, a).jobs[j].phase != s.jobs[j].phase;
    assert a in [Start(j), Advance(j), Clean(j)];
  }
}
