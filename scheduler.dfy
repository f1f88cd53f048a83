/**
 * The update scheduler of `OutlineEditor.update` as a pure state machine:
 * Idle, or CommitPending with the one candidate whose deferred commit is
 * queued. The editor class is proved to step exactly as this machine does.
 */
module Scheduler {

  datatype Phase<V> = Idle | CommitPending(candidate: V)

  /**
   * What can happen to the scheduler: a call `update(candidate, forceSync)`,
   * where `isCurrent` says whether the candidate is the committed view model,
   * or the queued continuation running on a later turn of the task queue.
   */
  datatype Request<V> =
    | Update(candidate: V, isCurrent: bool, forceSync: bool)
    | RunDeferred

  /** The next phase, whether the call threw, and the view models committed, in order. */
  datatype StepResult<V> = StepResult(phase: Phase<V>, failed: bool, commits: seq<V>)

  /**
   * One request. The pending check comes first: while a commit is pending
   * every update throws, even with `forceSync` or the current view model.
   * An update throws only then, at most one view model is committed per
   * step, and a step that queues a commit commits nothing.
   */
  function Step<V>(p: Phase<V>, req: Request<V>): (r: StepResult<V>)
    ensures r.failed <==> p.CommitPending? && req.Update?
    ensures r.failed ==> r.phase == p && r.commits == []
    ensures |r.commits| <= 1
    ensures req.Update? && !r.failed && req.isCurrent ==> r.phase == p && r.commits == []
    ensures req.RunDeferred? ==> r.phase == Idle && r.commits == Queued(p)
  {
    match req
    case Update(candidate, isCurrent, forceSync) =>
      if p.CommitPending? then StepResult(p, true, [])
      else if isCurrent then StepResult(p, false, [])
      else if forceSync then StepResult(Idle, false, [candidate])
      else StepResult(CommitPending(candidate), false, [])
    case RunDeferred =>
      if p.CommitPending? then StepResult(Idle, false, [p.candidate])
      else StepResult(p, false, [])
  }

  /** The view model still waiting to be committed in phase `p`. */
  function Queued<V>(p: Phase<V>): seq<V>
  {
    if p.CommitPending? then [p.candidate] else []
  }

  /** Runs a sequence of requests: the final phase and every commit, in order. */
  function Run<V>(p: Phase<V>, reqs: seq<Request<V>>): (Phase<V>, seq<V>)
    decreases |reqs|
  {
    if reqs == [] then (p, [])
    else
      var s := Step(p, reqs[0]);
      var (q, rest) := Run(s.phase, reqs[1..]);
      (q, s.commits + rest)
  }

  /**
   * The candidates of the `update` calls that returned normally and were
   * not no-ops, in the order the calls were made.
   */
  function Accepted<V>(p: Phase<V>, reqs: seq<Request<V>>): seq<V>
    decreases |reqs|
  {
    if reqs == [] then []
    else
      AcceptedBy(p, reqs[0]) + Accepted(Step(p, reqs[0]).phase, reqs[1..])
  }

  /** The candidate of `req` if it is an update that returns normally and is not a no-op. */
  function AcceptedBy<V>(p: Phase<V>, req: Request<V>): seq<V>
  {
    if req.Update? && !Step(p, req).failed && !req.isCurrent then [req.candidate] else []
  }

  /**
   * One step keeps the queue: what it commits, followed by what is queued
   * after it, is what was queued before followed by what it accepted.
   */
  lemma StepKeepsQueue<V>(p: Phase<V>, req: Request<V>)
    ensures Step(p, req).commits + Queued(Step(p, req).phase) == Queued(p) + AcceptedBy(p, req)
  {
  }

  /** `Run` on a non-empty sequence: the first step, then the rest. */
  lemma RunFirstStep<V>(p: Phase<V>, reqs: seq<Request<V>>)
    requires reqs != []
    ensures Run(p, reqs).0 == Run(Step(p, reqs[0]).phase, reqs[1..]).0
    ensures Run(p, reqs).1 == Step(p, reqs[0]).commits + Run(Step(p, reqs[0]).phase, reqs[1..]).1
  {
  }

  /** Splicing one step's queue equation onto the rest of the run's. */
  lemma Splice<V>(commits: seq<V>, rest: seq<V>, last: seq<V>, mid: seq<V>, tail: seq<V>, first: seq<V>, here: seq<V>)
    requires rest + last == mid + tail
    requires commits + mid == first + here
    ensures (commits + rest) + last == first + (here + tail)
  {
    calc {
      (commits + rest) + last;
      commits + (rest + last);
      commits + (mid + tail);
      (commits + mid) + tail;
      (first + here) + tail;
      first + (here + tail);
    }
  }

  /**
   * Commits are strictly serialized and never dropped or reordered: over any
   * run, the commits followed by the one still queued are exactly the
   * candidate queued at the start followed by every accepted update, in order.
   */
  lemma {:induction false} CommitsFollowAcceptedUpdates<V>(p: Phase<V>, reqs: seq<Request<V>>)
    ensures Run(p, reqs).1 + Queued(Run(p, reqs).0) == Queued(p) + Accepted(p, reqs)
    decreases |reqs|
  {
    if reqs != [] {
      var s := Step(p, reqs[0]);
      CommitsFollowAcceptedUpdates(s.phase, reqs[1..]);
      StepKeepsQueue(p, reqs[0]);
      RunFirstStep(p, reqs);
      var tailRun := Run(s.phase, reqs[1..]);
      Splice(s.commits, tailRun.1, Queued(tailRun.0), Queued(s.phase), Accepted(s.phase, reqs[1..]),
             Queued(p), AcceptedBy(p, reqs[0]));
    }
  }

  /**
   * While a commit is pending, every `update` throws and leaves the phase
   * alone, whatever its arguments; at most one commit is ever queued.
   */
  lemma {:induction false} PendingRejectsUpdates<V>(v: V, reqs: seq<Request<V>>)
    requires forall i :: 0 <= i < |reqs| ==> reqs[i].Update?
    ensures Run(CommitPending(v), reqs) == (CommitPending(v), [])
    ensures Accepted(CommitPending(v), reqs) == []
    ensures forall i :: 0 <= i < |reqs| ==> Step(CommitPending(v), reqs[i]).failed
    decreases |reqs|
  {
    if reqs != [] {
      assert reqs[0].Update?;
      assert Step(CommitPending(v), reqs[0]) == StepResult(CommitPending(v), true, []);
      PendingRejectsUpdates(v, reqs[1..]);
      assert Run(CommitPending(v), reqs).1 == [];
      assert Accepted(CommitPending(v), reqs) == [];
    }
  }
}
