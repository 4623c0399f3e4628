/**
 * The stage index behind its promise chain: every run of the staged publishing model is a run
 * of the mutation queue that keeps its entry, job for mutation, and the mutation at the head of
 * the model's queue is the one whose captured promise has resolved.
 */
module StageQueue {
  import opened Common
  import opened StageStorage
  import Queue = MutationQueue

  datatype Key = StageIndex

  /** What a mutation keeps between its operations; `throws` tells which of its operations throw. */
  datatype Local = Local(record: Record, items: seq<Record>, throws: seq<bool>)

  type Items = seq<Record>

  type QueueState = Queue.State<Key, Items, Local>

  type QueueAction = Queue.Action<Key, Items, Local>

  function Thrown(l: Local, k: nat): bool {
    k < |l.throws| && l.throws[k]
  }

  // ---------------------------------------------------------------- the mutations

  function CheckStep(v: Items, l: Local): Queue.Outcome<Items, Local> {
    if Thrown(l, 0) || Staged(v, l.record.release) then Queue.Throw(v, 0) else Queue.Next(v, l.(items := v))
  }

  function TarballStep(v: Items, l: Local): Queue.Outcome<Items, Local> {
    if Thrown(l, 1) then Queue.Throw(v, 0) else Queue.Next(v, l)
  }

  function DocumentStep(v: Items, l: Local): Queue.Outcome<Items, Local> {
    if Thrown(l, 2) then Queue.Throw(v, 0) else Queue.Next(v, l)
  }

  function AddStep(v: Items, l: Local): Queue.Outcome<Items, Local> {
    if Thrown(l, 3) then Queue.Throw(v, 0) else Queue.Next([l.record] + l.items, l)
  }

  function ReadStep(v: Items, l: Local): Queue.Outcome<Items, Local> {
    if Thrown(l, 0) then Queue.Throw(v, 0) else Queue.Next(v, l.(items := v))
  }

  function DropStep(v: Items, l: Local): Queue.Outcome<Items, Local> {
    if Thrown(l, 1) then Queue.Throw(v, 0) else Queue.Next(Without(l.items, {l.record.id}), l)
  }

  /** The mutation a call has queued: of add, or of remove. */
  function CallOf(proc: Proc, throws: seq<bool>): Queue.Call<Key, Items, Local>
    requires Mutating(proc)
  {
    Queue.Call(
      StageIndex,
      if Adding(proc) then [CheckStep, TarballStep, DocumentStep, AddStep] else [ReadStep, DropStep],
      Local(proc.record, [], throws))
  }

  /** The operations of its mutation a call has behind it. */
  function Pc(proc: Proc): nat
    requires Mutating(proc)
  {
    match proc
    case AddTarball(_, _) => 1
    case AddDocument(_, _) => 2
    case AddIndex(_, _) => 3
    case RemoveIndex(_, _, _) => 1
    case _ => 0
  }

  function PhaseOf(proc: Proc, throws: seq<bool>): Queue.Phase<Local>
    requires Mutating(proc)
  {
    if Underway(proc) then Queue.Running(Pc(proc), Local(proc.record, proc.items, throws)) else Queue.Waiting
  }

  /** A mutation that is over, and how. */
  predicate Settled(proc: Proc) {
    proc.AddDone? || proc.AddFailed? || proc.RemoveFailed? || Passed(proc).Some?
  }

  predicate Succeeded(proc: Proc) {
    proc.AddDone? || Passed(proc).Some?
  }

  // ---------------------------------------------------------------- the history of a run

  predicate Effective(s: State, p: nat) {
    p < |s.procs| && Mutating(s.procs[p]) && Heads(s, p)
  }

  /** Whether the action queues a mutation, and of which call. */
  function Queues(s: State, a: Action): Option<nat> {
    var t := Apply(s, a);
    if |t.queue| > |s.queue| then Some(t.queue[|t.queue| - 1]) else None
  }

  /** The calls in the order they queued their mutations. */
  function Order(acts: seq<Action>): seq<nat> {
    if acts == [] then []
    else
      var init := acts[..|acts| - 1];
      match Queues(Exec(EMPTY, init), acts[|acts| - 1])
      case None => Order(init)
      case Some(p) => Order(init) + [p]
  }

  /** Which operations of the mutation of p threw, in order. */
  function Flags(acts: seq<Action>, p: nat): seq<bool> {
    if acts == [] then []
    else
      var init, a := acts[..|acts| - 1], acts[|acts| - 1];
      if a.Step? && a.proc == p && Effective(Exec(EMPTY, init), p)
      then Flags(init, p) + [a.fate.Throws?]
      else Flags(init, p)
  }

  // A call that has not queued a mutation yet.
  predicate Unqueued(s: State, p: nat) {
    p >= |s.procs| || s.procs[p].RemoveLookup? || Handling(s.procs[p])
  }

  ghost predicate Counted(s: State, p: nat, flags: seq<bool>) {
    && (Unqueued(s, p) ==> flags == [])
    && (p < |s.procs| && Mutating(s.procs[p]) ==> |flags| == Pc(s.procs[p]))
  }

  lemma OwnAddCounts(s: State, p: nat, fate: Fate, flags: seq<bool>)
    requires Counted(s, p, flags) && p < |s.procs| && Adding(s.procs[p])
    ensures Counted(StepAdd(s, p, fate), p, if Effective(s, p) then flags + [fate.Throws?] else flags)
  {
  }

  lemma OwnRemoveCounts(s: State, p: nat, fate: Fate, flags: seq<bool>)
    requires Counted(s, p, flags) && p < |s.procs| && Removing(s.procs[p])
    ensures Counted(StepRemove(s, p, fate), p, if Effective(s, p) then flags + [fate.Throws?] else flags)
  {
  }

  lemma OwnOtherCounts(s: State, p: nat, fate: Fate, flags: seq<bool>)
    requires Counted(s, p, flags) && p < |s.procs|
    ensures Deleting(s.procs[p]) ==> Counted(StepDelete(s, p, fate), p, flags)
    ensures Handling(s.procs[p]) ==> Counted(StepHandler(s, p, fate), p, flags)
  {
  }

  // Another action leaves a call alone, or is the arrival of the call.
  lemma ForeignLeaves(s: State, a: Action, p: nat)
    requires !(a.Step? && a.proc == p)
    ensures var t := Apply(s, a);
            if p < |s.procs| then p < |t.procs| && t.procs[p] == s.procs[p]
            else p < |t.procs| && Mutating(t.procs[p]) ==> t.procs[p].AddQueued?
  {
  }

  lemma ForeignCounts(s: State, a: Action, p: nat, flags: seq<bool>)
    requires Counted(s, p, flags) && !(a.Step? && a.proc == p)
    ensures Counted(Apply(s, a), p, flags)
  {
    ForeignLeaves(s, a, p);
  }

  lemma StepCounts(s: State, a: Action, p: nat, flags: seq<bool>)
    requires Counted(s, p, flags)
    ensures Counted(Apply(s, a), p,
                    if a.Step? && a.proc == p && Effective(s, p) then flags + [a.fate.Throws?] else flags)
  {
    if !(a.Step? && a.proc == p) {
      ForeignCounts(s, a, p, flags);
    } else if p < |s.procs| {
      if Adding(s.procs[p]) {
        OwnAddCounts(s, p, a.fate, flags);
      } else if Removing(s.procs[p]) {
        OwnRemoveCounts(s, p, a.fate, flags);
      } else {
        OwnOtherCounts(s, p, a.fate, flags);
      }
    }
  }

  lemma {:induction false} FlagsCount(acts: seq<Action>, p: nat)
    ensures Counted(Exec(EMPTY, acts), p, Flags(acts, p))
  {
    if acts != [] {
      FlagsCount(acts[..|acts| - 1], p);
      StepCounts(Exec(EMPTY, acts[..|acts| - 1]), acts[|acts| - 1], p, Flags(acts[..|acts| - 1], p));
    }
  }

  lemma {:induction false} FlagsGrow(acts: seq<Action>, i: nat, p: nat)
    requires i <= |acts|
    ensures Flags(acts[..i], p) <= Flags(acts, p)
  {
    if i < |acts| {
      var init := acts[..|acts| - 1];
      FlagsGrow(init, i, p);
      assert init[..i] == acts[..i];
    } else {
      assert acts[..i] == acts;
    }
  }

  // The flag of an operation is known at the step that performs it.
  lemma FlagOfStep(acts: seq<Action>, i: nat)
    requires i < |acts| && acts[i].Step? && Effective(Exec(EMPTY, acts[..i]), acts[i].proc)
    ensures var p := acts[i].proc;
            var pc := Pc(Exec(EMPTY, acts[..i]).procs[p]);
            pc < |Flags(acts, p)| && Flags(acts, p)[pc] == acts[i].fate.Throws?
  {
    var p := acts[i].proc;
    FlagsCount(acts[..i], p);
    assert acts[..i + 1][..i] == acts[..i];
    assert Flags(acts[..i + 1], p) == Flags(acts[..i], p) + [acts[i].fate.Throws?];
    FlagsGrow(acts, i + 1, p);
  }

  // ---------------------------------------------------------------- the relation

  // Job j of the queue is the mutation of order[j].
  ghost predicate JobOf(s: State, p: nat, flags: seq<bool>, job: Queue.Job<Key, Items, Local>, settled: bool) {
    && p < |s.procs| && job.call.key == StageIndex
    && if settled
       then Settled(s.procs[p]) && job.phase.Cleaned? && (job.phase.result.Resolved? <==> Succeeded(s.procs[p]))
       else Mutating(s.procs[p]) && job.call == CallOf(s.procs[p], flags) && job.phase == PhaseOf(s.procs[p], flags)
  }

  ghost predicate Chained(q: QueueState, n: nat) {
    && |q.jobs| == n
    && (forall j :: 0 <= j < n ==> q.jobs[j].prev == if j == 0 then None else Some(j - 1))
    && q.queues == if n == 0 then map[] else map[StageIndex := n - 1]
  }

  // The first `over` mutations in order are over, the others are where their calls are.
  ghost predicate JobsOf(s: State, order: seq<nat>, over: int, all: seq<Action>,
      jobs: seq<Queue.Job<Key, Items, Local>>)
    requires |jobs| == |order|
  {
    forall j {:trigger order[j]} {:trigger jobs[j]} :: 0 <= j < |order| ==>
      JobOf(s, order[j], Flags(all, order[j]), jobs[j], j < over)
  }

  // The model's queue lists the mutations that are not over, in order.
  ghost predicate EndOf(queue: seq<nat>, order: seq<nat>) {
    |queue| <= |order| && queue == order[|order| - |queue|..]
  }

  /**
   * The queue has the jobs of the mutations in order, those before the head of the model's queue
   * over, and the index.
   */
  ghost predicate Mirrors(s: State, order: seq<nat>, all: seq<Action>, q: QueueState) {
    && Chained(q, |order|) && EndOf(s.queue, order)
    && Queue.At(q.store, StageIndex, []) == s.index
    && JobsOf(s, order, |order| - |s.queue|, all, q.jobs)
  }

  ghost function RunOf(acts: seq<QueueAction>): QueueState {
    Queue.Exec(true, [], Queue.Empty(), acts)
  }

  ghost function Next(q: QueueState, a: QueueAction): QueueState {
    Queue.Apply(true, [], q, a)
  }

  lemma RunNext(acts: seq<QueueAction>, a: QueueAction)
    ensures RunOf(acts + [a]) == Next(RunOf(acts), a)
  {
    assert (acts + [a])[..|acts|] == acts;
  }

  // ---------------------------------------------------------------- steps outside the queue

  // What an action does to the calls: one may join, one may move.
  ghost predicate Others(s: State, t: State, p: nat) {
    |s.procs| <= |t.procs| && forall o: nat :: o < |s.procs| && o != p ==> t.procs[o] == s.procs[o]
  }

  lemma QuietMirrors(s: State, t: State, order: seq<nat>, all: seq<Action>, q: QueueState, p: nat)
    requires Mirrors(s, order, all, q) && Others(s, t, p) && t.queue == s.queue && t.index == s.index
    requires p < |s.procs| ==> !Mutating(s.procs[p])
    requires p < |s.procs| && Settled(s.procs[p]) ==>
             Settled(t.procs[p]) && Succeeded(t.procs[p]) == Succeeded(s.procs[p])
    ensures Mirrors(t, order, all, q)
  {
    forall j | 0 <= j < |order| ensures JobOf(t, order[j], Flags(all, order[j]), q.jobs[j], j < |order| - |t.queue|) {
      assert JobOf(s, order[j], Flags(all, order[j]), q.jobs[j], j < |order| - |s.queue|);
    }
  }

  // ---------------------------------------------------------------- a mutation is queued

  // One more job, behind the others.
  ghost predicate Grown(q: QueueState, q': QueueState, c: Queue.Call<Key, Items, Local>) {
    && |q'.jobs| == |q.jobs| + 1 && q'.jobs[..|q.jobs|] == q.jobs && q'.store == q.store
    && q'.jobs[|q.jobs|].call == c && q'.jobs[|q.jobs|].phase == Queue.Waiting
  }

  lemma EnqueueGrows(q: QueueState, n: nat, c: Queue.Call<Key, Items, Local>)
    requires Chained(q, n) && c.key == StageIndex
    ensures Chained(Next(q, Queue.Enqueue(c)), n + 1) && Grown(q, Next(q, Queue.Enqueue(c)), c)
  {
    var q' := Next(q, Queue.Enqueue(c));
    assert q'.queues == map[StageIndex := n];
    assert q'.jobs[..|q.jobs|] == q.jobs;
  }

  lemma GrownJobs(s: State, t: State, order: seq<nat>, all: seq<Action>, q: QueueState, q': QueueState, p: nat, j: nat)
    requires Mirrors(s, order, all, q) && Others(s, t, p) && t.queue == s.queue + [p] && p !in order
    requires p < |t.procs| && (t.procs[p].AddQueued? || t.procs[p].RemoveQueued?)
    requires Grown(q, q', CallOf(t.procs[p], Flags(all, p))) && j <= |order|
    ensures var o := if j < |order| then order[j] else p;
            JobOf(t, o, Flags(all, o), q'.jobs[j], j < |order| - |s.queue|)
  {
    if j < |order| {
      assert q'.jobs[..|q.jobs|][j] == q'.jobs[j];
      assert JobOf(s, order[j], Flags(all, order[j]), q.jobs[j], j < |order| - |s.queue|);
      assert order[j] in order;
    }
  }

  lemma GrownMirrors(s: State, t: State, order: seq<nat>, all: seq<Action>, q: QueueState, q': QueueState, p: nat)
    requires Mirrors(s, order, all, q) && Others(s, t, p) && t.queue == s.queue + [p] && t.index == s.index
    requires p !in order && p < |t.procs| && (t.procs[p].AddQueued? || t.procs[p].RemoveQueued?)
    requires Chained(q', |order| + 1) && Grown(q, q', CallOf(t.procs[p], Flags(all, p)))
    ensures Mirrors(t, order + [p], all, q')
  {
    var more := order + [p];
    TailOfMore(order, s.queue, p);
    forall j | 0 <= j < |more| ensures JobOf(t, more[j], Flags(all, more[j]), q'.jobs[j], j < |order| - |s.queue|) {
      GrownJobs(s, t, order, all, q, q', p, j);
    }
  }

  lemma EnqueueMirrors(s: State, t: State, order: seq<nat>, all: seq<Action>, q: QueueState, p: nat)
    requires Mirrors(s, order, all, q) && Others(s, t, p) && t.queue == s.queue + [p] && t.index == s.index
    requires p !in order && p < |t.procs| && (t.procs[p].AddQueued? || t.procs[p].RemoveQueued?)
    ensures Mirrors(t, order + [p], all, Next(q, Queue.Enqueue(CallOf(t.procs[p], Flags(all, p)))))
  {
    var c := CallOf(t.procs[p], Flags(all, p));
    EnqueueGrows(q, |order|, c);
    GrownMirrors(s, t, order, all, q, Next(q, Queue.Enqueue(c)), p);
  }

  lemma TailOfMore(order: seq<nat>, queue: seq<nat>, p: nat)
    requires EndOf(queue, order)
    ensures EndOf(queue + [p], order + [p])
  {
  }

  // ---------------------------------------------------------------- the head moves

  // The job of the head was replaced, and every other one is as it was.
  ghost predicate Moved(q: QueueState, q': QueueState, b: nat, phase: Queue.Phase<Local>, index: Items) {
    && b < |q.jobs| && q'.jobs == q.jobs[b := q.jobs[b].(phase := phase)]
    && q'.queues == q.queues && Queue.At(q'.store, StageIndex, []) == index
  }

  lemma MovedTwice(q: QueueState, q': QueueState, q'': QueueState, b: nat, x: Queue.Phase<Local>,
      y: Queue.Phase<Local>, v: Items, w: Items)
    requires Moved(q, q', b, x, v) && Moved(q', q'', b, y, w)
    ensures Moved(q, q'', b, y, w)
  {
  }

  lemma StartMoves(q: QueueState, b: nat, n: nat)
    requires Chained(q, n) && b < n && q.jobs[b].phase.Waiting? && (b > 0 ==> q.jobs[b - 1].phase.Cleaned?)
    ensures Moved(q, Next(q, Queue.Start(b)), b,
                  Queue.Running(0, q.jobs[b].call.init), Queue.At(q.store, StageIndex, []))
  {
  }

  lemma AdvanceMoves(q: QueueState, b: nat)
    requires b < |q.jobs| && q.jobs[b].call.key == StageIndex && q.jobs[b].phase.Running?
    requires q.jobs[b].phase.pc < |q.jobs[b].call.steps|
    ensures var phase, v := q.jobs[b].phase, Queue.At(q.store, StageIndex, []);
            match q.jobs[b].call.steps[phase.pc](v, phase.local)
            case Next(w, l) => Moved(q, Next(q, Queue.Advance(b)), b, Queue.Running(phase.pc + 1, l), w)
            case Throw(w, e) => Moved(q, Next(q, Queue.Advance(b)), b, Queue.Done(Queue.Rejected(e)), w)
  {
  }

  lemma FinishMoves(q: QueueState, b: nat)
    requires b < |q.jobs| && q.jobs[b].phase.Running? && q.jobs[b].phase.pc >= |q.jobs[b].call.steps|
    ensures Moved(q, Next(q, Queue.Advance(b)), b,
                  Queue.Done(Queue.Resolved(q.jobs[b].phase.local)), Queue.At(q.store, StageIndex, []))
  {
  }

  lemma CleanMoves(q: QueueState, b: nat)
    requires b < |q.jobs| && q.jobs[b].phase.Done?
    ensures Moved(q, Next(q, Queue.Clean(b)), b,
                  Queue.Cleaned(q.jobs[b].phase.result), Queue.At(q.store, StageIndex, []))
  {
  }

  // The jobs after the head's one changed.
  lemma MovedJobs(
    s: State, t: State, order: seq<nat>, all: seq<Action>, q: QueueState, p: nat, j: nat,
    job: Queue.Job<Key, Items, Local>, settled: bool)
    requires Mirrors(s, order, all, q) && Queued(s) && Effective(s, p)
             && Others(s, t, p) && |t.procs| == |s.procs| && j < |order|
    requires JobOf(t, p, Flags(all, p), job, settled)
    ensures var b := |order| - |s.queue|;
            JobOf(t, order[j], Flags(all, order[j]), if j == b then job else q.jobs[j], j < b || (j == b && settled))
  {
    assert JobOf(s, order[j], Flags(all, order[j]), q.jobs[j], j < |order| - |s.queue|);
    OnlyHead(s, order, p, j);
  }

  // The head made a step and is still at the head.
  lemma HeadMirrors(s: State, t: State, order: seq<nat>, all: seq<Action>, q: QueueState, q': QueueState, p: nat)
    requires Mirrors(s, order, all, q) && Queued(s) && Effective(s, p) && Others(s, t, p) && |t.procs| == |s.procs|
    requires t.queue == s.queue && Mutating(t.procs[p])
    requires CallOf(t.procs[p], Flags(all, p)) == CallOf(s.procs[p], Flags(all, p))
    requires Moved(q, q', |order| - |s.queue|, PhaseOf(t.procs[p], Flags(all, p)), t.index)
    ensures Mirrors(t, order, all, q')
  {
    HeadCall(s, order, all, q, p);
    HeadJobMoved(s, t, order, all, q, q', p);
    HeadJobs(s, t, order, all, q, q'.jobs, p);
  }

  lemma HeadJobMoved(s: State, t: State, order: seq<nat>, all: seq<Action>, q: QueueState, q': QueueState, p: nat)
    requires Chained(q, |order|) && p < |t.procs| && Mutating(t.procs[p]) && 0 <= |order| - |s.queue| < |order|
    requires q.jobs[|order| - |s.queue|].call == CallOf(t.procs[p], Flags(all, p))
    requires Moved(q, q', |order| - |s.queue|, PhaseOf(t.procs[p], Flags(all, p)), t.index)
    ensures var b := |order| - |s.queue|;
            && 0 <= b < |q.jobs| && Chained(q', |order|) && Queue.At(q'.store, StageIndex, []) == t.index
            && q'.jobs == q.jobs[b := q'.jobs[b]] && JobOf(t, p, Flags(all, p), q'.jobs[b], false)
  {
    MovedChains(q, q', |order| - |s.queue|, |order|, PhaseOf(t.procs[p], Flags(all, p)), t.index);
  }

  lemma MovedChains(q: QueueState, q': QueueState, b: nat, n: nat, phase: Queue.Phase<Local>, index: Items)
    requires Chained(q, n) && Moved(q, q', b, phase, index)
    ensures Chained(q', n) && q'.jobs == q.jobs[b := q'.jobs[b]]
    ensures q'.jobs[b].call == q.jobs[b].call && q'.jobs[b].phase == phase
  {
  }

  lemma HeadJobs(
    s: State, t: State, order: seq<nat>, all: seq<Action>, q: QueueState,
    jobs: seq<Queue.Job<Key, Items, Local>>, p: nat)
    requires Mirrors(s, order, all, q) && Queued(s) && Effective(s, p) && Others(s, t, p) && |t.procs| == |s.procs|
    requires Mutating(t.procs[p]) && 0 <= |order| - |s.queue| < |q.jobs| == |order|
    requires var b := |order| - |s.queue|;
             && |jobs| == |order| && jobs == q.jobs[b := jobs[b]] && JobOf(t, p, Flags(all, p), jobs[b], false)
    ensures JobsOf(t, order, |order| - |s.queue|, all, jobs)
  {
    var b := |order| - |s.queue|;
    forall j | 0 <= j < |order| ensures JobOf(t, order[j], Flags(all, order[j]), jobs[j], j < b) {
      MovedJobs(s, t, order, all, q, p, j, jobs[b], false);
    }
  }

  // The head settled.
  lemma SettleMirrors(s: State, t: State, order: seq<nat>, all: seq<Action>, q: QueueState, q': QueueState, p: nat,
      result: Queue.Settled<Local>)
    requires Mirrors(s, order, all, q) && Queued(s) && Effective(s, p) && Others(s, t, p) && |t.procs| == |s.procs|
    requires t.queue == s.queue[1..] && Settled(t.procs[p]) && (result.Resolved? <==> Succeeded(t.procs[p]))
    requires Moved(q, q', |order| - |s.queue|, Queue.Cleaned(result), t.index)
    ensures Mirrors(t, order, all, q')
  {
    var b := |order| - |s.queue|;
    HeadCall(s, order, all, q, p);
    assert EndOf(t.queue, order) by {
      assert order[b..][1..] == order[b + 1..];
    }
    forall j | 0 <= j < |order| ensures JobOf(t, order[j], Flags(all, order[j]), q'.jobs[j], j < b + 1) {
      MovedJobs(s, t, order, all, q, p, j, q'.jobs[b], true);
    }
  }

  lemma HeadCall(s: State, order: seq<nat>, all: seq<Action>, q: QueueState, p: nat)
    requires Mirrors(s, order, all, q) && Effective(s, p)
    ensures var b := |order| - |s.queue|;
            && 0 <= b < |order| && order[b] == p
            && q.jobs[b].call == CallOf(s.procs[p], Flags(all, p))
            && q.jobs[b].phase == PhaseOf(s.procs[p], Flags(all, p))
  {
    var b := |order| - |s.queue|;
    assert order[b] == s.queue[0];
    assert JobOf(s, order[b], Flags(all, order[b]), q.jobs[b], b < b);
  }

  // Among the calls in order, the head stands at its own place only.
  lemma OnlyHead(s: State, order: seq<nat>, p: nat, j: nat)
    requires Queued(s) && Effective(s, p) && EndOf(s.queue, order) && j < |order|
    requires j < |order| - |s.queue| ==> order[j] < |s.procs| && Settled(s.procs[order[j]])
    ensures order[j] == p <==> j == |order| - |s.queue|
  {
    var b := |order| - |s.queue|;
    assert order[b] == s.queue[0] == p;
    if j > b {
      assert order[j] == s.queue[j - b];
    }
  }

  // ---------------------------------------------------------------- one operation of the head

  // What the job makes of its next operation.
  ghost predicate Performed(q: QueueState, q': QueueState, b: nat, pc: nat, outcome: Queue.Outcome<Items, Local>) {
    match outcome
    case Next(w, l) => Moved(q, q', b, Queue.Running(pc + 1, l), w)
    case Throw(w, e) => Moved(q, q', b, Queue.Cleaned(Queue.Rejected(e)), w)
  }

  lemma Performs(acts: seq<QueueAction>, b: nat) returns (more: seq<QueueAction>)
    requires var q := RunOf(acts);
             && b < |q.jobs| && q.jobs[b].call.key == StageIndex && q.jobs[b].phase.Running?
             && q.jobs[b].phase.pc < |q.jobs[b].call.steps|
    ensures var q := RunOf(acts);
            var phase := q.jobs[b].phase;
            Performed(q, RunOf(more), b, phase.pc,
                      q.jobs[b].call.steps[phase.pc](Queue.At(q.store, StageIndex, []), phase.local))
  {
    var q := RunOf(acts);
    more := acts + [Queue.Advance(b)];
    RunNext(acts, Queue.Advance(b));
    AdvanceMoves(q, b);
    var q' := RunOf(more);
    if q'.jobs[b].phase.Done? {
      CleanMoves(q', b);
      RunNext(more, Queue.Clean(b));
      MovedTwice(q, q', Next(q', Queue.Clean(b)), b, q'.jobs[b].phase, Queue.Cleaned(q'.jobs[b].phase.result),
                 Queue.At(q'.store, StageIndex, []), Queue.At(q'.store, StageIndex, []));
      more := more + [Queue.Clean(b)];
    }
  }

  lemma Begins(acts: seq<QueueAction>, b: nat, n: nat) returns (more: seq<QueueAction>)
    requires var q := RunOf(acts);
             Chained(q, n) && b < n && q.jobs[b].phase.Waiting? && (b > 0 ==> q.jobs[b - 1].phase.Cleaned?)
    ensures var q := RunOf(acts);
            Moved(q, RunOf(more), b, Queue.Running(0, q.jobs[b].call.init), Queue.At(q.store, StageIndex, []))
  {
    more := acts + [Queue.Start(b)];
    RunNext(acts, Queue.Start(b));
    StartMoves(RunOf(acts), b, n);
  }

  lemma Ends(acts: seq<QueueAction>, b: nat) returns (more: seq<QueueAction>)
    requires var q := RunOf(acts);
             b < |q.jobs| && q.jobs[b].phase.Running? && q.jobs[b].phase.pc >= |q.jobs[b].call.steps|
    ensures var q := RunOf(acts);
            Moved(q, RunOf(more), b,
                  Queue.Cleaned(Queue.Resolved(q.jobs[b].phase.local)), Queue.At(q.store, StageIndex, []))
  {
    var q, v := RunOf(acts), Queue.At(RunOf(acts).store, StageIndex, []);
    var done := acts + [Queue.Advance(b)];
    RunNext(acts, Queue.Advance(b));
    FinishMoves(q, b);
    more := done + [Queue.Clean(b)];
    RunNext(done, Queue.Clean(b));
    CleanMoves(RunOf(done), b);
    MovedTwice(q, RunOf(done), RunOf(more), b, RunOf(done).jobs[b].phase, RunOf(more).jobs[b].phase, v, v);
  }

  // The job of the head and what the model makes of its call.
  ghost predicate AtHead(s: State, order: seq<nat>, all: seq<Action>, q: QueueState, p: nat, fate: Fate) {
    && Mirrors(s, order, all, q) && Queued(s) && Effective(s, p)
    && Pc(s.procs[p]) < |Flags(all, p)| && Flags(all, p)[Pc(s.procs[p])] == fate.Throws?
  }

  lemma HeadJob(s: State, order: seq<nat>, all: seq<Action>, q: QueueState, p: nat, fate: Fate)
    requires AtHead(s, order, all, q, p, fate)
    ensures var b := |order| - |s.queue|;
            && 0 <= b < |order| && order[b] == p
            && JobOf(s, p, Flags(all, p), q.jobs[b], false)
            && (b > 0 ==> q.jobs[b - 1].phase.Cleaned?)
  {
    var b := |order| - |s.queue|;
    assert order[b] == s.queue[0];
    assert JobOf(s, order[b], Flags(all, order[b]), q.jobs[b], b < b);
    if b > 0 {
      assert JobOf(s, order[b - 1], Flags(all, order[b - 1]), q.jobs[b - 1], b - 1 < b);
    }
  }

  /** What the next operation of a mutation makes of the index. */
  function OutcomeOf(proc: Proc, index: Items, throws: seq<bool>): Queue.Outcome<Items, Local>
    requires Mutating(proc)
  {
    var l := Local(proc.record, if Underway(proc) then proc.items else [], throws);
    match proc
    case AddQueued(_) => CheckStep(index, l)
    case AddTarball(_, _) => TarballStep(index, l)
    case AddDocument(_, _) => DocumentStep(index, l)
    case AddIndex(_, _) => AddStep(index, l)
    case RemoveQueued(_, _) => ReadStep(index, l)
    case RemoveIndex(_, _, _) => DropStep(index, l)
  }

  lemma CallSteps(proc: Proc, index: Items, throws: seq<bool>)
    requires Mutating(proc)
    ensures var c := CallOf(proc, throws);
            && Pc(proc) < |c.steps|
            && c.steps[Pc(proc)](index, Local(proc.record, if Underway(proc) then proc.items else [], throws))
               == OutcomeOf(proc, index, throws)
            && (proc.AddIndex? || proc.RemoveIndex? ==> |c.steps| == Pc(proc) + 1)
  {
  }

  // The model's step does to the call at the head what the operation does to its job.
  ghost predicate Agrees(s: State, t: State, p: nat, throws: seq<bool>, outcome: Queue.Outcome<Items, Local>)
    requires Effective(s, p)
  {
    && Others(s, t, p) && |t.procs| == |s.procs| && t.index == outcome.store
    && match outcome
       case Throw(_, _) => t.queue == s.queue[1..] && Settled(t.procs[p]) && !Succeeded(t.procs[p])
       case Next(_, l) =>
         if s.procs[p].AddIndex? || s.procs[p].RemoveIndex?
         then t.queue == s.queue[1..] && Succeeded(t.procs[p])
         else
           && t.queue == s.queue && Mutating(t.procs[p]) && CallOf(t.procs[p], throws) == CallOf(s.procs[p], throws)
           && PhaseOf(t.procs[p], throws) == Queue.Running(Pc(s.procs[p]) + 1, l)
  }

  lemma AddAgrees(s: State, p: nat, fate: Fate, throws: seq<bool>)
    requires Effective(s, p) && Adding(s.procs[p])
             && Thrown(Local(s.procs[p].record, [], throws), Pc(s.procs[p])) == fate.Throws?
    ensures Agrees(s, Apply(s, Step(p, fate)), p, throws, OutcomeOf(s.procs[p], s.index, throws))
  {
  }

  lemma RemoveAgrees(s: State, p: nat, fate: Fate, throws: seq<bool>)
    requires Effective(s, p) && Removing(s.procs[p])
             && Thrown(Local(s.procs[p].record, [], throws), Pc(s.procs[p])) == fate.Throws?
    ensures Agrees(s, Apply(s, Step(p, fate)), p, throws, OutcomeOf(s.procs[p], s.index, throws))
  {
  }

  // The job at the head has started, with the locals of its call.
  ghost predicate Started(s: State, order: seq<nat>, all: seq<Action>, q: QueueState, q': QueueState, p: nat)
    requires p < |s.procs| && Mutating(s.procs[p])
  {
    var proc := s.procs[p];
    var l := Local(proc.record, if Underway(proc) then proc.items else [], Flags(all, p));
    var b := |order| - |s.queue|;
    0 <= b && Moved(q, q', b, Queue.Running(Pc(proc), l), s.index) && q.jobs[b].call == CallOf(proc, Flags(all, p))
  }

  lemma HeadRuns(s: State, order: seq<nat>, all: seq<Action>, q: QueueState, p: nat, fate: Fate)
    requires AtHead(s, order, all, q, p, fate) && Underway(s.procs[p])
    ensures Started(s, order, all, q, q, p)
  {
    var b := |order| - |s.queue|;
    HeadJob(s, order, all, q, p, fate);
    assert q.jobs[b := q.jobs[b].(phase := q.jobs[b].phase)] == q.jobs;
  }

  lemma HeadWaits(s: State, order: seq<nat>, all: seq<Action>, q: QueueState, p: nat, fate: Fate)
    requires AtHead(s, order, all, q, p, fate) && !Underway(s.procs[p])
    ensures var b := |order| - |s.queue|;
            && 0 <= b < |order| && Chained(q, |order|) && q.jobs[b].phase.Waiting?
            && (b > 0 ==> q.jobs[b - 1].phase.Cleaned?)
            && q.jobs[b].call == CallOf(s.procs[p], Flags(all, p))
  {
    HeadJob(s, order, all, q, p, fate);
  }

  lemma StartsHead(s: State, order: seq<nat>, all: seq<Action>, acts: seq<QueueAction>, p: nat, fate: Fate)
    returns (more: seq<QueueAction>)
    requires AtHead(s, order, all, RunOf(acts), p, fate)
    ensures Started(s, order, all, RunOf(acts), RunOf(more), p)
  {
    if Underway(s.procs[p]) {
      HeadRuns(s, order, all, RunOf(acts), p, fate);
      more := acts;
    } else {
      HeadWaits(s, order, all, RunOf(acts), p, fate);
      more := Begins(acts, |order| - |s.queue|, |order|);
    }
  }

  lemma MovedPerforms(
    q: QueueState, q1: QueueState, q2: QueueState, b: nat, x: Queue.Phase<Local>, v: Items, pc: nat,
    outcome: Queue.Outcome<Items, Local>)
    requires Moved(q, q1, b, x, v) && Performed(q1, q2, b, pc, outcome)
    ensures Performed(q, q2, b, pc, outcome)
  {
  }

  // The head's operation, seen from both sides, when the mutation goes on or throws.
  lemma StepMirrors(
    s: State, t: State, order: seq<nat>, all: seq<Action>, q: QueueState, q': QueueState, p: nat,
    outcome: Queue.Outcome<Items, Local>)
    requires Mirrors(s, order, all, q) && Queued(s) && Effective(s, p) && Agrees(s, t, p, Flags(all, p), outcome)
    requires |s.queue| <= |order| && Performed(q, q', |order| - |s.queue|, Pc(s.procs[p]), outcome)
    requires outcome.Throw? || !(s.procs[p].AddIndex? || s.procs[p].RemoveIndex?)
    ensures Mirrors(t, order, all, q')
  {
    if outcome.Throw? {
      SettleMirrors(s, t, order, all, q, q', p, Queue.Rejected(outcome.error));
    } else {
      HeadMirrors(s, t, order, all, q, q', p);
    }
  }

  lemma HeadPerforms(s: State, order: seq<nat>, all: seq<Action>, acts: seq<QueueAction>, p: nat, fate: Fate)
    returns (more: seq<QueueAction>)
    requires AtHead(s, order, all, RunOf(acts), p, fate)
    ensures |s.queue| <= |order|
    ensures Performed(RunOf(acts), RunOf(more), |order| - |s.queue|,
                      Pc(s.procs[p]), OutcomeOf(s.procs[p], s.index, Flags(all, p)))
    ensures var b := |order| - |s.queue|;
            b < |RunOf(acts).jobs| && RunOf(acts).jobs[b].call == CallOf(s.procs[p], Flags(all, p))
  {
    var b, q := |order| - |s.queue|, RunOf(acts);
    var started := StartsHead(s, order, all, acts, p, fate);
    var q1 := RunOf(started);
    CallSteps(s.procs[p], s.index, Flags(all, p));
    assert q1.jobs[b].call == CallOf(s.procs[p], Flags(all, p));
    more := Performs(started, b);
    MovedPerforms(q, q1, RunOf(more), b, q1.jobs[b].phase, s.index,
                  Pc(s.procs[p]), OutcomeOf(s.procs[p], s.index, Flags(all, p)));
  }

  // The jobs have the calls they had.
  ghost predicate SameCalls(q: QueueState, q': QueueState) {
    |q'.jobs| == |q.jobs| && forall j :: 0 <= j < |q.jobs| ==> q'.jobs[j].call == q.jobs[j].call
  }

  lemma MovedSameCalls(q: QueueState, q': QueueState, b: nat, phase: Queue.Phase<Local>, index: Items)
    requires Moved(q, q', b, phase, index)
    ensures SameCalls(q, q')
  {
  }

  lemma PerformedSameCalls(q: QueueState, q': QueueState, b: nat, pc: nat, outcome: Queue.Outcome<Items, Local>)
    requires Performed(q, q', b, pc, outcome)
    ensures SameCalls(q, q')
  {
  }

  predicate AtLastStep(proc: Proc) {
    proc.AddIndex? || proc.RemoveIndex?
  }

  // The last operation of the head succeeded, and the job ends.
  lemma LastMirrors(s: State, t: State, order: seq<nat>, all: seq<Action>, q: QueueState, acts: seq<QueueAction>,
      p: nat, outcome: Queue.Outcome<Items, Local>)
    returns (more: seq<QueueAction>)
    requires Mirrors(s, order, all, q) && Queued(s) && Effective(s, p) && Agrees(s, t, p, Flags(all, p), outcome)
    requires outcome.Next? && AtLastStep(s.procs[p]) && |s.queue| <= |order|
    requires Performed(q, RunOf(acts), |order| - |s.queue|, Pc(s.procs[p]), outcome)
    requires q.jobs[|order| - |s.queue|].call == CallOf(s.procs[p], Flags(all, p))
    ensures Mirrors(t, order, all, RunOf(more)) && SameCalls(q, RunOf(more))
  {
    var b: nat := |order| - |s.queue|;
    var q1 := RunOf(acts);
    CallSteps(s.procs[p], s.index, Flags(all, p));
    more := Ends(acts, b);
    MovedTwice(q, q1, RunOf(more), b, q1.jobs[b].phase, RunOf(more).jobs[b].phase, t.index, t.index);
    MovedSameCalls(q, RunOf(more), b, RunOf(more).jobs[b].phase, t.index);
    SettleMirrors(s, t, order, all, q, RunOf(more), p, Queue.Resolved(outcome.local));
  }

  lemma HeadAgrees(s: State, order: seq<nat>, all: seq<Action>, q: QueueState, p: nat, fate: Fate)
    requires AtHead(s, order, all, q, p, fate)
    ensures Agrees(s, Apply(s, Step(p, fate)), p, Flags(all, p), OutcomeOf(s.procs[p], s.index, Flags(all, p)))
  {
    if Adding(s.procs[p]) {
      AddAgrees(s, p, fate, Flags(all, p));
    } else {
      RemoveAgrees(s, p, fate, Flags(all, p));
    }
  }

  lemma EffectiveMirrors(s: State, order: seq<nat>, all: seq<Action>, acts: seq<QueueAction>, p: nat, fate: Fate)
    returns (more: seq<QueueAction>)
    requires AtHead(s, order, all, RunOf(acts), p, fate)
    ensures Mirrors(Apply(s, Step(p, fate)), order, all, RunOf(more)) && SameCalls(RunOf(acts), RunOf(more))
  {
    var t, q := Apply(s, Step(p, fate)), RunOf(acts);
    var outcome := OutcomeOf(s.procs[p], s.index, Flags(all, p));
    HeadAgrees(s, order, all, q, p, fate);
    more := HeadPerforms(s, order, all, acts, p, fate);
    if outcome.Next? && AtLastStep(s.procs[p]) {
      more := LastMirrors(s, t, order, all, q, more, p, outcome);
    } else {
      StepMirrors(s, t, order, all, q, RunOf(more), p, outcome);
      PerformedSameCalls(q, RunOf(more), |order| - |s.queue|, Pc(s.procs[p]), outcome);
    }
  }

  // ---------------------------------------------------------------- every action

  // A call joins, or a call outside the queue moves without queueing.
  lemma OutsideMirrors(s: State, a: Action, order: seq<nat>, all: seq<Action>, q: QueueState)
    requires Mirrors(s, order, all, q) && Queues(s, a).None? && (a.Step? ==> !Effective(s, a.proc))
    ensures Mirrors(Apply(s, a), order, all, q)
  {
    OutsideIsQuiet(s, a);
    QuietMirrors(s, Apply(s, a), order, all, q,
                 if a.Step? && a.proc < |s.procs| && !Mutating(s.procs[a.proc]) then a.proc else |s.procs|);
  }

  ghost predicate OutsideQuiet(s: State, t: State, a: Action) {
    && t.queue == s.queue && t.index == s.index && |s.procs| <= |t.procs|
    && (forall o: nat :: o < |s.procs| && !(a.Step? && o == a.proc && !Mutating(s.procs[o])) ==>
        t.procs[o] == s.procs[o])
    && (a.Step? && a.proc < |s.procs| && Settled(s.procs[a.proc]) ==>
          Settled(t.procs[a.proc]) && Succeeded(t.procs[a.proc]) == Succeeded(s.procs[a.proc]))
  }

  lemma CallIsOutside(s: State, a: Action)
    requires !a.Step? && Queues(s, a).None?
    ensures OutsideQuiet(s, Apply(s, a), a)
  {
  }

  lemma StepIsOutside(s: State, p: nat, fate: Fate)
    requires p < |s.procs| && Queues(s, Step(p, fate)).None? && !Effective(s, p)
    requires Adding(s.procs[p]) || Removing(s.procs[p])
    ensures OutsideQuiet(s, Apply(s, Step(p, fate)), Step(p, fate))
  {
  }

  lemma OtherIsOutside(s: State, p: nat, fate: Fate)
    requires p < |s.procs| && !Adding(s.procs[p]) && !Removing(s.procs[p])
    ensures OutsideQuiet(s, Apply(s, Step(p, fate)), Step(p, fate))
  {
  }

  lemma OutsideIsQuiet(s: State, a: Action)
    requires Queues(s, a).None? && (a.Step? ==> !Effective(s, a.proc))
    ensures OutsideQuiet(s, Apply(s, a), a)
  {
    if !a.Step? {
      CallIsOutside(s, a);
    } else if a.proc < |s.procs| {
      if Adding(s.procs[a.proc]) || Removing(s.procs[a.proc]) {
        StepIsOutside(s, a.proc, a.fate);
      } else {
        OtherIsOutside(s, a.proc, a.fate);
      }
    }
  }

  // A call that queues a mutation was not in the order before.
  ghost predicate OrderOk(s: State, order: seq<nat>) {
    forall p :: p in order ==> !Unqueued(s, p)
  }

  lemma QueuesIs(s: State, a: Action)
    requires Queues(s, a).Some?
    ensures var p, t := Queues(s, a).value, Apply(s, a);
            && t.queue == s.queue + [p] && t.index == s.index && Others(s, t, p) && Unqueued(s, p)
            && p < |t.procs| && (t.procs[p].AddQueued? || t.procs[p].RemoveQueued?)
  {
    if a.Step? {
      StepQueuesLookup(s, a.proc, a.fate);
    }
  }

  // Of the steps only the lookup of a remove queues a mutation.
  lemma StepQueuesLookup(s: State, p: nat, fate: Fate)
    requires Queues(s, Step(p, fate)).Some?
    ensures p < |s.procs| && s.procs[p].RemoveLookup? && Apply(s, Step(p, fate)) == StepRemove(s, p, fate)
  {
  }

  lemma OrderStays(s: State, a: Action, order: seq<nat>)
    requires OrderOk(s, order)
    ensures OrderOk(Apply(s, a), order)
  {
    forall p | p in order ensures !Unqueued(Apply(s, a), p) {
      QueuedStays(s, a, p);
    }
  }

  lemma QueuedStays(s: State, a: Action, p: nat)
    requires !Unqueued(s, p)
    ensures !Unqueued(Apply(s, a), p)
  {
  }

  function Appended(order: seq<nat>, p: Option<nat>): seq<nat> {
    if p.Some? then order + [p.value] else order
  }

  // ---------------------------------------------------------------- which mutation a call queued

  /** What the call was when it queued its mutation: an add, or a remove with the record it found. */
  function QueuedAs(acts: seq<Action>, p: nat): Option<Proc> {
    if acts == [] then None
    else
      var init, t := acts[..|acts| - 1], Exec(EMPTY, acts);
      if Queues(Exec(EMPTY, init), acts[|acts| - 1]) == Some(p) && p < |t.procs| then Some(t.procs[p])
      else QueuedAs(init, p)
  }

  /** The queue's call is the mutation p queued, its operations ending as they do in the run. */
  ghost predicate CallIs(all: seq<Action>, p: nat, call: Queue.Call<Key, Items, Local>) {
    match QueuedAs(all, p)
    case None => false
    case Some(proc) => Mutating(proc) && call == CallOf(proc, Flags(all, p))
  }

  ghost predicate CallsAre(all: seq<Action>, order: seq<nat>, jobs: seq<Queue.Job<Key, Items, Local>>) {
    |jobs| == |order| && forall j :: 0 <= j < |order| ==> CallIs(all, order[j], jobs[j].call)
  }

  // A call queues one mutation.
  lemma {:induction false} QueuesOnce(acts: seq<Action>, i: nat, p: nat)
    requires i <= |acts| && !Unqueued(Exec(EMPTY, acts[..i]), p)
    ensures QueuedAs(acts, p) == QueuedAs(acts[..i], p) && !Unqueued(Exec(EMPTY, acts), p)
  {
    if i < |acts| {
      var init, a := acts[..|acts| - 1], acts[|acts| - 1];
      assert init[..i] == acts[..i];
      QueuesOnce(init, i, p);
      QueuedStays(Exec(EMPTY, init), a, p);
      if Queues(Exec(EMPTY, init), a).Some? {
        QueuesIs(Exec(EMPTY, init), a);
      }
    } else {
      assert acts[..i] == acts;
    }
  }

  lemma QueuedAtAction(all: seq<Action>, i: nat, p: nat)
    requires i < |all| && Queues(Exec(EMPTY, all[..i]), all[i]) == Some(p)
    ensures var t := Apply(Exec(EMPTY, all[..i]), all[i]);
            p < |t.procs| && QueuedAs(all, p) == Some(t.procs[p])
  {
    var upto := all[..i + 1];
    QueuesIs(Exec(EMPTY, all[..i]), all[i]);
    assert upto[..i] == all[..i] && upto[i] == all[i];
    assert Exec(EMPTY, upto) == Apply(Exec(EMPTY, all[..i]), all[i]);
    QueuesOnce(all, i + 1, p);
  }

  lemma GrownCalls(all: seq<Action>, order: seq<nat>, q: QueueState, q': QueueState, p: nat)
    requires CallsAre(all, order, q.jobs) && |q'.jobs| == |q.jobs| + 1 && q'.jobs[..|q.jobs|] == q.jobs
    requires CallIs(all, p, q'.jobs[|q.jobs|].call)
    ensures CallsAre(all, order + [p], q'.jobs)
  {
    forall j | 0 <= j < |order| + 1 ensures CallIs(all, (order + [p])[j], q'.jobs[j].call) {
      if j < |order| {
        assert q'.jobs[..|q.jobs|][j] == q'.jobs[j];
      }
    }
  }

  lemma ActionMirrors(all: seq<Action>, i: nat, order: seq<nat>, acts: seq<QueueAction>)
    returns (more: seq<QueueAction>)
    requires i < |all| && Mirrors(Exec(EMPTY, all[..i]), order, all, RunOf(acts))
             && OrderOk(Exec(EMPTY, all[..i]), order)
             && CallsAre(all, order, RunOf(acts).jobs)
    ensures var s := Exec(EMPTY, all[..i]);
            var order' := Appended(order, Queues(s, all[i]));
            Mirrors(Apply(s, all[i]), order', all, RunOf(more)) && CallsAre(all, order', RunOf(more).jobs)
  {
    var s, a := Exec(EMPTY, all[..i]), all[i];
    ExecKeepsInv(all[..i]);
    if Queues(s, a).Some? {
      var p, t := Queues(s, a).value, Apply(s, a);
      QueuesIs(s, a);
      var enqueue := Queue.Enqueue(CallOf(t.procs[p], Flags(all, p)));
      RunNext(acts, enqueue);
      EnqueueMirrors(s, t, order, all, RunOf(acts), p);
      more := acts + [enqueue];
      QueuedAtAction(all, i, p);
      GrownCalls(all, order, RunOf(acts), RunOf(more), p);
    } else if a.Step? && Effective(s, a.proc) {
      FlagOfStep(all, i);
      more := EffectiveMirrors(s, order, all, acts, a.proc, a.fate);
    } else {
      OutsideMirrors(s, a, order, all, RunOf(acts));
      more := acts;
    }
  }

  lemma OrderNext(all: seq<Action>, i: nat)
    requires i < |all|
    ensures Exec(EMPTY, all[..i + 1]) == Apply(Exec(EMPTY, all[..i]), all[i])
    ensures Order(all[..i + 1]) == Appended(Order(all[..i]), Queues(Exec(EMPTY, all[..i]), all[i]))
  {
    assert all[..i + 1][..i] == all[..i];
  }

  lemma OrderOkNext(s: State, a: Action, order: seq<nat>)
    requires OrderOk(s, order)
    ensures OrderOk(Apply(s, a), Appended(order, Queues(s, a)))
  {
    OrderStays(s, a, order);
    if Queues(s, a).Some? {
      QueuesIs(s, a);
    }
  }

  lemma {:induction false} PrefixMirrors(all: seq<Action>, i: nat) returns (acts: seq<QueueAction>)
    requires i <= |all|
    ensures Mirrors(Exec(EMPTY, all[..i]), Order(all[..i]), all, RunOf(acts))
            && OrderOk(Exec(EMPTY, all[..i]), Order(all[..i]))
            && CallsAre(all, Order(all[..i]), RunOf(acts).jobs)
  {
    if i == 0 {
      acts := [];
    } else {
      var before := PrefixMirrors(all, i - 1);
      OrderNext(all, i - 1);
      OrderOkNext(Exec(EMPTY, all[..i - 1]), all[i - 1], Order(all[..i - 1]));
      acts := ActionMirrors(all, i - 1, Order(all[..i - 1]), before);
    }
  }

  // ---------------------------------------------------------------- one by one

  // One of the first n operations throws.
  predicate Failing(throws: seq<bool>, n: nat) {
    exists k :: 0 <= k < n && k < |throws| && throws[k]
  }

  /** The index a mutation leaves when it runs alone, and none when it is refused or an operation of it throws. */
  function Alone(proc: Proc, throws: seq<bool>, index: Items): Option<Items>
    requires Mutating(proc)
  {
    if Adding(proc) then
      if Failing(throws, 4) || Staged(index, proc.record.release) then None else Some([proc.record] + index)
    else if Failing(throws, 2) then None
    else Some(Without(index, {proc.record.id}))
  }

  /** What the mutation p queued in the run makes of an index, alone. */
  function AloneIn(all: seq<Action>, p: nat, index: Items): Option<Items> {
    match QueuedAs(all, p)
    case None => None
    case Some(proc) => if Mutating(proc) then Alone(proc, Flags(all, p), index) else None
  }

  /** What the mutation p queued leaves of an index: the index itself when it is rejected. */
  function Effect(all: seq<Action>, p: nat, index: Items): Items {
    match AloneIn(all, p, index)
    case None => index
    case Some(after) => after
  }

  /** The index after the mutations of the first n calls of `order`, one by one. */
  function IndexAfter(all: seq<Action>, order: seq<nat>, n: nat): Items
    requires n <= |order|
  {
    if n == 0 then []
    else
      var before := IndexAfter(all, order, n - 1);
      Effect(all, order[n - 1], before)
  }

  // Up to its last operation a mutation leaves the index as it found it.
  lemma AddRuns(proc: Proc, throws: seq<bool>, v: Items)
    requires Mutating(proc) && Adding(proc)
    ensures var c := CallOf(proc, throws);
            && |c.steps| == 4
            && (forall k :: 0 <= k < 4 ==> Queue.RunPrefix(c, k, v).store == v)
            && Queue.RunAlone(c, v).0 == (if Alone(proc, throws, v).Some? then Alone(proc, throws, v).value else v)
            && (Queue.RunAlone(c, v).1.Resolved? <==> Alone(proc, throws, v).Some?)
  {
    var c, l := CallOf(proc, throws), Local(proc.record, [], throws);
    var l' := l.(items := v);
    assert c.steps[0](v, l) == CheckStep(v, l);
    assert c.steps[1](v, l') == TarballStep(v, l');
    assert c.steps[2](v, l') == DocumentStep(v, l');
    assert c.steps[3](v, l') == AddStep(v, l');
    assert Queue.RunPrefix(c, 0, v) == Queue.InFlight(v, l);
    var p1, p2, p3 := Queue.RunPrefix(c, 1, v), Queue.RunPrefix(c, 2, v), Queue.RunPrefix(c, 3, v);
    assert p1 == if Thrown(l, 0) || Staged(v, proc.record.release) then Queue.Stopped(v, Queue.Rejected(0))
                 else Queue.InFlight(v, l');
    assert p2 == if p1.InFlight? && Thrown(l, 1) then Queue.Stopped(v, Queue.Rejected(0)) else p1;
    assert p3 == if p2.InFlight? && Thrown(l, 2) then Queue.Stopped(v, Queue.Rejected(0)) else p2;
    assert Failing(throws, 4) <==> Thrown(l, 0) || Thrown(l, 1) || Thrown(l, 2) || Thrown(l, 3);
  }

  lemma RemoveRuns(proc: Proc, throws: seq<bool>, v: Items)
    requires Mutating(proc) && !Adding(proc)
    ensures var c := CallOf(proc, throws);
            && |c.steps| == 2
            && (forall k :: 0 <= k < 2 ==> Queue.RunPrefix(c, k, v).store == v)
            && Queue.RunAlone(c, v).0 == (if Alone(proc, throws, v).Some? then Alone(proc, throws, v).value else v)
            && (Queue.RunAlone(c, v).1.Resolved? <==> Alone(proc, throws, v).Some?)
  {
    var c, l := CallOf(proc, throws), Local(proc.record, [], throws);
    var l' := l.(items := v);
    assert c.steps[0](v, l) == ReadStep(v, l);
    assert c.steps[1](v, l') == DropStep(v, l');
    assert Queue.RunPrefix(c, 0, v) == Queue.InFlight(v, l);
    var p1 := Queue.RunPrefix(c, 1, v);
    assert p1 == if Thrown(l, 0) then Queue.Stopped(v, Queue.Rejected(0)) else Queue.InFlight(v, l');
    assert Failing(throws, 2) <==> Thrown(l, 0) || Thrown(l, 1);
  }

  // A job of the queue, run alone, does what its mutation does alone.
  lemma CallRuns(all: seq<Action>, p: nat, c: Queue.Call<Key, Items, Local>, v: Items)
    requires CallIs(all, p, c)
    ensures var alone := AloneIn(all, p, v);
            && c.key == StageIndex
            && (forall k :: 0 <= k < |c.steps| ==> Queue.RunPrefix(c, k, v).store == v)
            && Queue.RunAlone(c, v).0 == Effect(all, p, v)
            && (Queue.RunAlone(c, v).1.Resolved? <==> alone.Some?)
  {
    var proc := QueuedAs(all, p).value;
    if Adding(proc) {
      AddRuns(proc, Flags(all, p), v);
    } else {
      RemoveRuns(proc, Flags(all, p), v);
    }
  }

  lemma {:induction false} ReplayIsIndex(
    all: seq<Action>, order: seq<nat>, jobs: seq<Queue.Job<Key, Items, Local>>, n: nat)
    requires CallsAre(all, order, jobs) && n <= |order|
    ensures Queue.Replay(jobs, StageIndex, n, []) == IndexAfter(all, order, n)
  {
    if n > 0 {
      ReplayIsIndex(all, order, jobs, n - 1);
      CallRuns(all, order[n - 1], jobs[n - 1].call, IndexAfter(all, order, n - 1));
    }
  }

  // ---------------------------------------------------------------- main results

  /**
   * The queue is where the model is, and its jobs, the finished ones too, are the mutations the
   * calls queued.
   */
  ghost predicate Reflects(all: seq<Action>, q: QueueState) {
    Mirrors(Exec(EMPTY, all), Order(all), all, q) && CallsAre(all, Order(all), q.jobs)
  }

  /** Every run of the model is a run of the queue that keeps its entry, with the mutations as jobs in call order. */
  lemma StageRunIsQueueRun(all: seq<Action>) returns (acts: seq<QueueAction>)
    ensures Reflects(all, RunOf(acts))
  {
    acts := PrefixMirrors(all, |all|);
    assert all[..|all|] == all;
  }

  lemma NotOver(s: State, order: seq<nat>, all: seq<Action>, q: QueueState, j: nat)
    requires Mirrors(s, order, all, q) && j < |order|
    ensures q.jobs[j].phase.Cleaned? <==> j < |order| - |s.queue|
  {
    assert JobOf(s, order[j], Flags(all, order[j]), q.jobs[j], j < |order| - |s.queue|);
  }

  lemma HeadsAt(s: State, order: seq<nat>, j: nat)
    requires Queued(s) && EndOf(s.queue, order) && |order| - |s.queue| <= j < |order|
    ensures Heads(s, order[j]) <==> j == |order| - |s.queue|
  {
    assert order[j] == s.queue[j - (|order| - |s.queue|)];
  }

  /**
   * Among the mutations not yet over, exactly the one at the head of the model's queue has its
   * captured promise resolved.
   */
  lemma HeadIsReady(all: seq<Action>, acts: seq<QueueAction>, j: nat)
    requires Mirrors(Exec(EMPTY, all), Order(all), all, RunOf(acts))
    requires j < |Order(all)| && !RunOf(acts).jobs[j].phase.Cleaned?
    ensures Queue.Ready(RunOf(acts), j) <==> Heads(Exec(EMPTY, all), Order(all)[j])
  {
    var s, order, q := Exec(EMPTY, all), Order(all), RunOf(acts);
    ExecKeepsInv(all);
    NotOver(s, order, all, q, j);
    HeadsAt(s, order, j);
    if j > 0 {
      NotOver(s, order, all, q, j - 1);
    }
  }

  // The mutation at the head is underway: the index is still what the ones before it left.
  lemma UnderwayValue(all: seq<Action>, p: nat, q: QueueState, b: nat)
    requires b < |q.jobs| && CallIs(all, p, q.jobs[b].call) && Queue.Faithful([], q, b)
    requires q.jobs[b].phase.Running? && q.jobs[b].phase.pc < |q.jobs[b].call.steps|
    ensures Queue.At(q.store, StageIndex, []) == Queue.Replay(q.jobs, StageIndex, b, [])
  {
    CallRuns(all, p, q.jobs[b].call, Queue.Replay(q.jobs, StageIndex, b, []));
  }

  // Before the head mutations are over, behind it they wait.
  lemma PhaseAt(s: State, order: seq<nat>, all: seq<Action>, q: QueueState, j: nat)
    requires Mirrors(s, order, all, q) && Queued(s) && j < |order|
    ensures var b, phase := |order| - |s.queue|, q.jobs[j].phase;
            && (j < b ==> phase.Cleaned?)
            && (j > b ==> phase.Waiting?)
            && (j == b ==> phase.Waiting? || (phase.Running? && phase.pc < |q.jobs[j].call.steps|))
  {
    assert JobOf(s, order[j], Flags(all, order[j]), q.jobs[j], j < |order| - |s.queue|);
    if j >= |order| - |s.queue| {
      HeadsAt(s, order, j);
      CallSteps(s.procs[order[j]], s.index, Flags(all, order[j]));
    }
  }

  lemma FrontierAt(s: State, order: seq<nat>, all: seq<Action>, q: QueueState)
    requires Mirrors(s, order, all, q) && Queued(s)
    requires var b := |order| - |s.queue|; b < |order| ==> q.jobs[b].phase.Waiting?
    ensures Queue.Frontier(q.jobs, StageIndex, |order| - |s.queue|)
  {
    forall j: nat | j < |order|
      ensures if j < |order| - |s.queue| then Queue.Over(q.jobs[j].phase) else q.jobs[j].phase.Waiting?
    {
      PhaseAt(s, order, all, q, j);
    }
  }

  // What the queue promises of job j and of the value once the jobs before j are over.
  ghost predicate InTurn(q: QueueState, j: nat) {
    && j <= |q.jobs|
    && (j < |q.jobs| ==> Queue.Faithful([], q, j))
    && (Queue.Frontier(q.jobs, StageIndex, j) ==>
          Queue.At(q.store, StageIndex, []) == Queue.Replay(q.jobs, StageIndex, j, []))
  }

  lemma RunIsInTurn(acts: seq<QueueAction>, j: nat)
    requires j <= |RunOf(acts).jobs|
    ensures InTurn(RunOf(acts), j)
  {
    Queue.ExecKeepsInv(true, [], acts);
  }

  lemma ValueNow(s: State, order: seq<nat>, all: seq<Action>, q: QueueState)
    requires Mirrors(s, order, all, q) && CallsAre(all, order, q.jobs) && Queued(s)
    requires InTurn(q, |order| - |s.queue|)
    ensures s.index == Queue.Replay(q.jobs, StageIndex, |order| - |s.queue|, [])
  {
    var b: nat := |order| - |s.queue|;
    if b < |order| {
      PhaseAt(s, order, all, q, b);
    }
    if b < |order| && q.jobs[b].phase.Running? {
      UnderwayValue(all, order[b], q, b);
    } else {
      FrontierAt(s, order, all, q);
    }
  }

  // Mutation j is over, and settled as it does alone after the ones before it.
  ghost predicate SettledAlone(s: State, order: seq<nat>, all: seq<Action>, j: nat)
    requires j < |order|
  {
    var p := order[j];
    && p < |s.procs| && Settled(s.procs[p])
    && (Succeeded(s.procs[p]) <==> AloneIn(all, p, IndexAfter(all, order, j)).Some?)
  }

  lemma SettledInOrder(s: State, order: seq<nat>, all: seq<Action>, q: QueueState, j: nat)
    requires Mirrors(s, order, all, q) && CallsAre(all, order, q.jobs) && InTurn(q, j) && j < |order| - |s.queue|
    ensures SettledAlone(s, order, all, j)
  {
    var p := order[j];
    assert JobOf(s, p, Flags(all, p), q.jobs[j], j < |order| - |s.queue|);
    assert CallIs(all, p, q.jobs[j].call);
    CallRuns(all, p, q.jobs[j].call, IndexAfter(all, order, j));
    ReplayIsIndex(all, order, q.jobs, j);
  }

  /**
   * The calls of `order` have queued the mutations, those in the queue are not over, the index is
   * what the ones that are over leave one by one, and each of these settled as it does then.
   */
  ghost predicate OneByOne(s: State, order: seq<nat>, all: seq<Action>) {
    var over := |order| - |s.queue|;
    && 0 <= over && s.queue == order[over..] && s.index == IndexAfter(all, order, over)
    && forall j: nat :: j < over ==> SettledAlone(s, order, all, j)
  }

  lemma MirroredIsOneByOne(s: State, order: seq<nat>, all: seq<Action>, acts: seq<QueueAction>)
    ensures Mirrors(s, order, all, RunOf(acts)) && CallsAre(all, order, RunOf(acts).jobs) && Queued(s) ==>
              OneByOne(s, order, all)
  {
    if Mirrors(s, order, all, RunOf(acts)) && CallsAre(all, order, RunOf(acts).jobs) && Queued(s) {
      var over := |order| - |s.queue|;
      RunIsInTurn(acts, over);
      ValueNow(s, order, all, RunOf(acts));
      ReplayIsIndex(all, order, RunOf(acts).jobs, over);
      forall j: nat | j < over ensures SettledAlone(s, order, all, j) {
        RunIsInTurn(acts, j);
        SettledInOrder(s, order, all, RunOf(acts), j);
      }
    }
  }

  lemma QueuedNow(all: seq<Action>)
    ensures Queued(Exec(EMPTY, all))
  {
    ExecKeepsInv(all);
  }

  /**
   * In every state of every run, the stage index is what its adds and removes leave one by one in
   * call order, and each settled as it does then: an add that resolved, resolved, and one that was
   * refused or failed, rejected. The queue behind it settles its jobs so too.
   */
  lemma IndexIsSequential(all: seq<Action>) returns (acts: seq<QueueAction>)
    ensures OneByOne(Exec(EMPTY, all), Order(all), all)
    ensures Reflects(all, RunOf(acts)) && Queue.AsIfOneByOne([], RunOf(acts))
    ensures Exec(EMPTY, all).queue == [] ==>
              Exec(EMPTY, all).index == Queue.Replay(RunOf(acts).jobs, StageIndex, |Order(all)|, [])
  {
    acts := StageRunIsQueueRun(all);
    QueuedNow(all);
    MirroredIsOneByOne(Exec(EMPTY, all), Order(all), all, acts);
    ReplayIsIndex(all, Order(all), RunOf(acts).jobs, |Order(all)|);
    Queue.RunsAsIfOneByOne(true, [], acts);
  }
}
