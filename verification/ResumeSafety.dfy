/** What every interleaving of the resume protocol guarantees. */
module ResumeSafety {
  import opened PyValues
  import opened ApprovalStore
  import opened ResumeProtocol

  ghost predicate Starts(s: System) {
    s.run.RunInterrupted? && s.tasks == map[]
  }

  /** Every approval id of the run is in the store. */
  ghost predicate Present(c: Config, store: Records) {
    forall id :: id in c.ids ==> id in store
  }

  ghost predicate AllResolved(c: Config, store: Records) {
    forall id :: id in c.ids ==> id in store && !store[id].status.Pending?
  }

  ghost predicate SomeRejected(c: Config, store: Records) {
    exists id :: id in c.ids && Has(store, id, Rejected)
  }

  /** Index k holds the first rejected approval in id order. */
  ghost predicate FirstRejected(c: Config, store: Records, k: nat) {
    && k < |c.ids| && Has(store, c.ids[k], Rejected)
    && forall j :: 0 <= j < k ==> !Has(store, c.ids[j], Rejected)
  }

  lemma {:induction false} RunEvolves(c: Config, s: System, steps: seq<Step>)
    ensures Evolves(s.store, Run(c, s, steps).store)
    decreases |steps|
  {
    if steps != [] {
      if steps[0].StoreStep? {
        OpsEvolve(s.store, steps[0].op);
      }
      RunEvolves(c, Apply(c, s, steps[0]), steps[1..]);
    }
  }

  lemma {:induction false} TaskKeepsKnown(c: Config, s: System, steps: seq<Step>, t: TaskId)
    requires t in s.tasks
    ensures t in Run(c, s, steps).tasks && Run(c, s, steps).tasks[t].known == s.tasks[t].known
    decreases |steps|
  {
    if steps != [] {
      TaskKeepsKnown(c, Apply(c, s, steps[0]), steps[1..], t);
    }
  }

  lemma {:induction false} DecisionsAt(ids: seq<Id>, store: Records)
    requires forall id :: id in ids ==> id in store
    ensures |Decisions(ids, store)| == |ids|
    ensures forall k :: 0 <= k < |ids| ==>
      Decisions(ids, store)[k] == Decision(ids[k], store[ids[k]].status)
  {
    if ids != [] {
      DecisionsAt(ids[..|ids| - 1], store);
      assert ids[|ids| - 1] in ids;
    }
  }

  /** A task started after `before` has, after any further schedule, seen a good state. */
  lemma StartedTaskOk(c: Config, s0: System, before: seq<Step>, t: TaskId, during: seq<Step>)
    requires Starts(s0) && t !in Run(c, s0, before).tasks
    ensures var start := Run(c, s0, before);
            var now := Run(c, s0, before + [Spawn(t)] + during);
            && Inv(c, now) && t in now.tasks
            && now.tasks[t].known == start.store.Keys
            && Evolves(start.store, now.store)
  {
    var start := Run(c, s0, before);
    var spawned := Apply(c, start, Spawn(t));
    RunConcat(c, s0, before + [Spawn(t)], during);
    RunConcat(c, s0, before, [Spawn(t)]);
    assert Run(c, start, [Spawn(t)]) == Run(c, spawned, []);
    RunKeepsInv(c, s0, before + [Spawn(t)] + during);
    TaskKeepsKnown(c, spawned, during, t);
    RunEvolves(c, spawned, during);
  }

  /** Safety of dispatch. Whenever, under any interleaving, the native backend has been called, every
      approval that existed when that resume started is approved or expired at that moment and at
      every later one. The list handed to the backend is the current answers in id order, missing
      approvals left out, as long as no missing one turns up; where none was missing, it is the current
      status of each id, position by position. */
  lemma DispatchIsSafe(c: Config, s0: System, before: seq<Step>, t: TaskId, during: seq<Step>)
    requires Starts(s0) && t !in Run(c, s0, before).tasks
    ensures t in Run(c, s0, before + [Spawn(t)] + during).tasks
    ensures var start := Run(c, s0, before);
            var now := Run(c, s0, before + [Spawn(t)] + during);
            var phase := now.tasks[t].phase;
            phase.Invoked? ==>
              && (forall id :: id in c.ids && id in start.store ==>
                    id in now.store && (now.store[id].status.Approved? || now.store[id].status.Expired?))
              && (NoneAppears(c, start.store.Keys, now.store) ==> phase.approvals == Decisions(c.ids, now.store))
              && (Present(c, start.store) ==>
                    && |phase.approvals| == |c.ids|
                    && forall k :: 0 <= k < |c.ids| ==>
                         c.ids[k] in now.store
                         && phase.approvals[k] == Decision(c.ids[k], now.store[c.ids[k]].status))
  {
    StartedTaskOk(c, s0, before, t, during);
    var start, now := Run(c, s0, before), Run(c, s0, before + [Spawn(t)] + during);
    var task := now.tasks[t];
    assert TaskOk(c, now.store, task);
    assert c.ids[..|c.ids|] == c.ids;
    if task.phase.Invoked? && Present(c, start.store) {
      DecisionsAt(c.ids, now.store);
    }
  }

  // ---- Concurrent resumes of one run agree ----

  ghost predicate KnowsBase(s: System, base: set<Id>) {
    base <= s.store.Keys && forall t :: t in s.tasks ==> base <= s.tasks[t].known
  }

  lemma {:induction false} RunKnowsBase(c: Config, s: System, steps: seq<Step>, base: set<Id>)
    requires KnowsBase(s, base)
    ensures KnowsBase(Run(c, s, steps), base)
    decreases |steps|
  {
    if steps != [] {
      RunKnowsBase(c, Apply(c, s, steps[0]), steps[1..], base);
    }
  }

  /** A task takes the rejecting path only if, and the proceeding path only while no, approval of the run
      is rejected, if it knows every id of the run that the store holds. */
  lemma TaskVerdict(c: Config, store: Records, task: Task, base: set<Id>)
    requires TaskOk(c, store, task) && base <= task.known && NoneAppears(c, base, store)
    ensures Rejects(task.phase) ==> SomeRejected(c, store)
    ensures Proceeds(task.phase) ==> !SomeRejected(c, store) && KnownCleared(c, store, store.Keys)
  {
    if Rejects(task.phase) {
      var hit := match task.phase
        case MarkCompleted(h) => h case ScanReason(_, h) => h case RejectedBy(h, _, _) => h;
      assert c.ids[hit] in c.ids && Has(store, c.ids[hit], Rejected);
    }
  }

  ghost predicate Agree(s: System) {
    forall t, u :: t in s.tasks && u in s.tasks ==> !(Proceeds(s.tasks[t].phase) && Rejects(s.tasks[u].phase))
  }

  /** Resumes of the same run, however interleaved with each other and with the deciders, never reach
      opposite verdicts while no missing id of the run turns up. */
  lemma ResumesAgree(c: Config, s0: System, steps: seq<Step>)
    requires Starts(s0) && NoneAppears(c, s0.store.Keys, Run(c, s0, steps).store)
    ensures Agree(Run(c, s0, steps))
  {
    var s := Run(c, s0, steps);
    RunKeepsInv(c, s0, steps);
    RunKnowsBase(c, s0, steps, s0.store.Keys);
    forall t | t in s.tasks
      ensures Rejects(s.tasks[t].phase) ==> SomeRejected(c, s.store)
      ensures Proceeds(s.tasks[t].phase) ==> !SomeRejected(c, s.store)
    {
      TaskVerdict(c, s.store, s.tasks[t], s0.store.Keys);
    }
  }

  /** The stored run record: completed only if some approval is rejected, resumed only if every
      approval in the store is approved or expired. */
  ghost predicate RunRecordOk(c: Config, s: System) {
    && (s.run.RunCompleted? ==> SomeRejected(c, s.store))
    && (s.run.RunResumed? ==> KnownCleared(c, s.store, s.store.Keys))
  }

  /** Past the await in which the run is marked resumed. */
  predicate MarkedResumed(p: Phase) {
    p.Collect? || p.Invoked? || p.Stub?
  }

  /** Past the await in which the run is marked completed. */
  predicate MarkedCompleted(p: Phase) {
    p.ScanReason? || p.RejectedBy?
  }

  /** The run is marked as every resume of it has gone. */
  ghost predicate RunIsMarked(s: System) {
    forall t :: t in s.tasks ==>
      && (MarkedCompleted(s.tasks[t].phase) ==> s.run.RunCompleted?)
      && (MarkedResumed(s.tasks[t].phase) ==> s.run.RunResumed?)
  }

  lemma {:induction false} StepMarksRun(c: Config, s: System, step: Step, base: set<Id>)
    requires Inv(c, s) && KnowsBase(s, base) && NoneAppears(c, base, s.store) && RunIsMarked(s)
    ensures RunIsMarked(Apply(c, s, step))
  {
    if step.TaskStep? && step.t in s.tasks {
      TaskVerdict(c, s.store, s.tasks[step.t], base);
      forall t | t in s.tasks && t != step.t
        ensures Rejects(s.tasks[step.t].phase) ==> !Proceeds(s.tasks[t].phase)
        ensures Proceeds(s.tasks[step.t].phase) ==> !Rejects(s.tasks[t].phase)
      {
        TaskVerdict(c, s.store, s.tasks[t], base);
      }
    }
  }

  lemma {:induction false} RunRecordFollows(c: Config, s: System, steps: seq<Step>, base: set<Id>)
    requires Inv(c, s) && KnowsBase(s, base) && NoneAppears(c, base, Run(c, s, steps).store)
    requires RunRecordOk(c, s) && RunIsMarked(s)
    ensures RunRecordOk(c, Run(c, s, steps)) && RunIsMarked(Run(c, s, steps))
    ensures !s.run.RunInterrupted? ==> Run(c, s, steps).run == s.run
    decreases |steps|
  {
    if steps != [] {
      var next := Apply(c, s, steps[0]);
      StepKeepsInv(c, s, steps[0]);
      RunEvolves(c, s, [steps[0]]);
      assert Run(c, s, [steps[0]]) == Run(c, next, []);
      RunEvolves(c, next, steps[1..]);
      if SomeRejected(c, s.store) {
        var id :| id in c.ids && Has(s.store, id, Rejected);
        assert Has(next.store, id, Rejected);
      }
      if steps[0].TaskStep? && steps[0].t in s.tasks {
        TaskVerdict(c, s.store, s.tasks[steps[0].t], base);
      }
      StepMarksRun(c, s, steps[0], base);
      RunRecordFollows(c, next, steps[1..], base);
    }
  }

  /** While no missing id turns up, the run is marked completed once a resume of it rejects and resumed
      once one goes ahead; no other resume of it, at any later point, marks it otherwise; and the mark is
      truthful. */
  lemma RunRecordIsFinal(c: Config, s0: System, a: seq<Step>, b: seq<Step>)
    requires Starts(s0) && NoneAppears(c, s0.store.Keys, Run(c, s0, a + b).store)
    ensures var s := Run(c, s0, a);
            && RunRecordOk(c, s) && RunIsMarked(s)
            && (!s.run.RunInterrupted? ==> Run(c, s0, a + b).run == s.run)
  {
    RunConcat(c, s0, a, b);
    RunKeepsInv(c, s0, a);
    RunEvolves(c, Run(c, s0, a), b);
    RunKnowsBase(c, s0, a, s0.store.Keys);
    RunRecordFollows(c, s0, a, s0.store.Keys);
    RunRecordFollows(c, Run(c, s0, a), b, s0.store.Keys);
  }

  // ---- What an interrupted resume saw ----

  /** An approval of the run was open, or not there yet. */
  ghost predicate SomeOpen(c: Config, store: Records) {
    exists id :: id in c.ids && (id !in store || store[id].status.Pending?)
  }

  /** A resume reports the run as still pending only if an approval was open when it started. */
  lemma {:induction false} PendingWasOpen(c: Config, start: Records, s: System, steps: seq<Step>, t: TaskId)
    requires Evolves(start, s.store) && t in s.tasks
    requires s.tasks[t].phase.StillPending? ==> SomeOpen(c, start)
    ensures t in Run(c, s, steps).tasks
    ensures Run(c, s, steps).tasks[t].phase.StillPending? ==> SomeOpen(c, start)
    decreases |steps|
  {
    if steps != [] {
      if steps[0].StoreStep? {
        OpsEvolve(s.store, steps[0].op);
      }
      var next := Apply(c, s, steps[0]);
      if next.tasks[t].phase.StillPending? && !s.tasks[t].phase.StillPending? {
        var i := s.tasks[t].phase.i;
        assert c.ids[i] in c.ids && Has(s.store, c.ids[i], Pending);
      }
      PendingWasOpen(c, start, next, steps[1..], t);
    }
  }

  // ---- Once everything is decided, the verdict is fixed ----

  lemma {:induction false} NeverStillPending(c: Config, s: System, steps: seq<Step>, t: TaskId)
    requires AllResolved(c, s.store) && t in s.tasks && !s.tasks[t].phase.StillPending?
    ensures t in Run(c, s, steps).tasks && !Run(c, s, steps).tasks[t].phase.StillPending?
    decreases |steps|
  {
    if steps != [] {
      if steps[0].StoreStep? {
        OpsEvolve(s.store, steps[0].op);
      }
      NeverStillPending(c, Apply(c, s, steps[0]), steps[1..], t);
    }
  }

  /** A resume that starts when every approval is decided never reports the run as still pending. It
      rejects only if some approval is rejected and proceeds only if none is, and a rejection carries
      the reason of the first rejected approval in id order, never the fallback "Unknown". */
  lemma VerdictIsFixed(c: Config, s0: System, before: seq<Step>, t: TaskId, during: seq<Step>)
    requires Starts(s0) && t !in Run(c, s0, before).tasks
    requires AllResolved(c, Run(c, s0, before).store)
    ensures t in Run(c, s0, before + [Spawn(t)] + during).tasks
    ensures var start := Run(c, s0, before);
            var phase := Run(c, s0, before + [Spawn(t)] + during).tasks[t].phase;
            && !phase.StillPending?
            && (Rejects(phase) ==> SomeRejected(c, start.store))
            && (Proceeds(phase) ==> !SomeRejected(c, start.store))
            && (phase.RejectedBy? ==>
                  && FirstRejected(c, start.store, phase.hit)
                  && phase.at == Some(phase.hit)
                  && phase.reason == ReasonText(start.store[c.ids[phase.hit]]))
  {
    StartedTaskOk(c, s0, before, t, during);
    var start, now := Run(c, s0, before), Run(c, s0, before + [Spawn(t)] + during);
    var task := now.tasks[t];
    assert TaskOk(c, now.store, task);
    DecidedStays(c, start.store, now.store);
    var spawned := Apply(c, start, Spawn(t));
    NeverStillPending(c, spawned, during, t);
    RunConcat(c, s0, before + [Spawn(t)], during);
    RunConcat(c, s0, before, [Spawn(t)]);
    assert Run(c, start, [Spawn(t)]) == Run(c, spawned, []);
    TaskVerdict(c, now.store, task, start.store.Keys);
    if task.phase.RejectedBy? {
      ReasonIsFirst(c, now.store, task);
    }
  }

  lemma DecidedStays(c: Config, before: Records, after: Records)
    requires AllResolved(c, before) && Evolves(before, after)
    ensures AllResolved(c, after) && forall id :: id in c.ids ==> after[id] == before[id]
    ensures SomeRejected(c, before) <==> SomeRejected(c, after)
    ensures forall k :: FirstRejected(c, before, k) <==> FirstRejected(c, after, k)
  {
    assert forall k :: 0 <= k < |c.ids| ==> c.ids[k] in c.ids;
    if id :| id in c.ids && Has(before, id, Rejected) {
      assert Has(after, id, Rejected);
    }
    if id :| id in c.ids && Has(after, id, Rejected) {
      assert Has(before, id, Rejected);
    }
  }

  lemma ReasonIsFirst(c: Config, store: Records, task: Task)
    requires TaskOk(c, store, task) && AllKnown(c, task.known) && task.phase.RejectedBy?
    ensures var hit := task.phase.hit;
            && FirstRejected(c, store, hit) && task.phase.at == Some(hit)
            && task.phase.reason == ReasonText(store[c.ids[hit]])
  {
    assert forall k :: 0 <= k < |c.ids| ==> c.ids[k] in c.ids;
  }

  /** The verdict depends on which ids the run has, not on their order: two finished resumes of runs
      that list the same ids in any order, started from the same decided store after any histories, both
      proceed or both reject. */
  lemma VerdictIgnoresOrder(c: Config, s0: System, before: seq<Step>, during: seq<Step>,
                            d: Config, s1: System, before': seq<Step>, during': seq<Step>, t: TaskId)
    requires forall id :: id in c.ids <==> id in d.ids
    requires Starts(s0) && t !in Run(c, s0, before).tasks && Starts(s1) && t !in Run(d, s1, before').tasks
    requires Run(c, s0, before).store == Run(d, s1, before').store && AllResolved(c, Run(c, s0, before).store)
    ensures t in Run(c, s0, before + [Spawn(t)] + during).tasks
    ensures t in Run(d, s1, before' + [Spawn(t)] + during').tasks
    ensures var p := Run(c, s0, before + [Spawn(t)] + during).tasks[t].phase;
            var q := Run(d, s1, before' + [Spawn(t)] + during').tasks[t].phase;
            Done(p) && Done(q) ==> (Rejects(p) <==> Rejects(q)) && (Proceeds(p) <==> Proceeds(q))
  {
    VerdictIsFixed(c, s0, before, t, during);
    VerdictIsFixed(d, s1, before', t, during');
    var store := Run(c, s0, before).store;
    assert SomeRejected(c, store) <==> SomeRejected(d, store);
  }

  // ---- Every resume finishes ----

  function Left(c: Config, i: nat): nat {
    if i < |c.ids| then |c.ids| - i + 1 else 1
  }

  /** Awaits a task still needs at most, whatever the store does meanwhile. */
  function Budget(c: Config, p: Phase): nat {
    match p
    case ScanPending(i) => Left(c, i) + 2 * Left(c, 0) + 1
    case ScanRejected(i) => Left(c, i) + Left(c, 0) + 1
    case MarkCompleted(_) => Left(c, 0) + 1
    case MarkResumed => Left(c, 0) + 1
    case ScanReason(i, _) => Left(c, i)
    case Collect(i, _) => Left(c, i)
    case _ => 0
  }

  function StepsOf(steps: seq<Step>, t: TaskId): nat {
    if steps == [] then 0 else (if steps[0] == TaskStep(t) then 1 else 0) + StepsOf(steps[1..], t)
  }

  lemma AdvanceSpends(c: Config, store: Records, p: Phase)
    ensures if Done(p) then Advance(c, store, p) == p && Budget(c, p) == 0
            else Budget(c, Advance(c, store, p)) < Budget(c, p)
  {}

  /** A resume of a run with n approvals has returned once it has been scheduled 3n + 4 times,
      whatever the deciders and the other resumes do in between. */
  lemma {:induction false} ResumeTerminates(c: Config, s: System, steps: seq<Step>, t: TaskId)
    requires t in s.tasks && StepsOf(steps, t) >= Budget(c, s.tasks[t].phase)
    ensures Budget(c, ScanPending(0)) == 3 * |c.ids| + 4
    ensures t in Run(c, s, steps).tasks && Done(Run(c, s, steps).tasks[t].phase)
    decreases |steps|
  {
    if steps == [] {
      AdvanceSpends(c, s.store, s.tasks[t].phase);
    } else {
      AdvanceSpends(c, s.store, s.tasks[t].phase);
      ResumeTerminates(c, Apply(c, s, steps[0]), steps[1..], t);
    }
  }

  /** Only a native run gets to the backend, and only a run without one ends as a stub. */
  lemma {:induction false} EndsByKind(c: Config, s: System, steps: seq<Step>, t: TaskId)
    requires t in s.tasks
    requires var p := s.tasks[t].phase; (p.Collect? || p.Invoked? ==> c.native) && (p.Stub? ==> !c.native)
    ensures t in Run(c, s, steps).tasks
    ensures var p := Run(c, s, steps).tasks[t].phase; (p.Collect? || p.Invoked? ==> c.native) && (p.Stub? ==> !c.native)
    decreases |steps|
  {
    if steps != [] {
      EndsByKind(c, Apply(c, s, steps[0]), steps[1..], t);
    }
  }

  /** Total correctness of a resume of a decided run: scheduled 3n + 4 times, in whatever company, it
      ends, and it ends with a rejection if some approval was rejected, else in the backend if there is
      a native one, else as a stub. */
  lemma DecidedResumeCompletes(c: Config, s0: System, before: seq<Step>, t: TaskId, during: seq<Step>)
    requires Starts(s0) && t !in Run(c, s0, before).tasks
    requires AllResolved(c, Run(c, s0, before).store) && StepsOf(during, t) >= 3 * |c.ids| + 4
    ensures t in Run(c, s0, before + [Spawn(t)] + during).tasks
    ensures var start := Run(c, s0, before);
            var phase := Run(c, s0, before + [Spawn(t)] + during).tasks[t].phase;
            if SomeRejected(c, start.store) then phase.RejectedBy?
            else if c.native then phase.Invoked?
            else phase.Stub?
  {
    VerdictIsFixed(c, s0, before, t, during);
    var start := Run(c, s0, before);
    var spawned := Apply(c, start, Spawn(t));
    RunConcat(c, s0, before + [Spawn(t)], during);
    RunConcat(c, s0, before, [Spawn(t)]);
    assert Run(c, start, [Spawn(t)]) == Run(c, spawned, []);
    ResumeTerminates(c, spawned, during, t);
    EndsByKind(c, spawned, during, t);
  }

  /** How a resume started after `before` can stand after any further schedule. */
  lemma StartedTaskEnds(c: Config, s0: System, before: seq<Step>, t: TaskId, during: seq<Step>)
    requires Starts(s0) && t !in Run(c, s0, before).tasks
    ensures t in Run(c, s0, before + [Spawn(t)] + during).tasks
    ensures var start, phase := Run(c, s0, before), Run(c, s0, before + [Spawn(t)] + during).tasks[t].phase;
            && (phase.StillPending? ==> SomeOpen(c, start.store))
            && (phase.Invoked? ==> c.native) && (phase.Stub? ==> !c.native)
  {
    var start := Run(c, s0, before);
    var spawned := Apply(c, start, Spawn(t));
    RunConcat(c, s0, before + [Spawn(t)], during);
    RunConcat(c, s0, before, [Spawn(t)]);
    assert Run(c, start, [Spawn(t)]) == Run(c, spawned, []);
    PendingWasOpen(c, start.store, spawned, during, t);
    EndsByKind(c, spawned, during, t);
  }

  // ---- A resume left alone ----

  function Alone(t: TaskId, n: nat): (steps: seq<Step>)
    ensures forall step :: step in steps ==> step == TaskStep(t)
    ensures StepsOf(steps, t) == n
  {
    if n == 0 then [] else [TaskStep(t)] + Alone(t, n - 1)
  }

  ghost predicate NonePending(c: Config, store: Records) {
    forall id :: id in c.ids ==> !Has(store, id, Pending)
  }

  lemma {:induction false} AloneChangesNothingElse(c: Config, s: System, t: TaskId, n: nat)
    requires t in s.tasks && NonePending(c, s.store) && !s.tasks[t].phase.StillPending?
    requires MarkedResumed(s.tasks[t].phase) ==> s.run.RunResumed?
    ensures var after := Run(c, s, Alone(t, n));
            && after.store == s.store && after.tasks.Keys == s.tasks.Keys && !after.tasks[t].phase.StillPending?
            && (MarkedResumed(after.tasks[t].phase) ==> after.run.RunResumed?)
            && forall u :: u in s.tasks && u != t ==> after.tasks[u] == s.tasks[u]
    decreases n
  {
    if n != 0 {
      AloneChangesNothingElse(c, Apply(c, s, TaskStep(t)), t, n - 1);
    }
  }

  function Enough(c: Config): nat {
    3 * |c.ids| + 4
  }

  /** With nothing pending, a resume left alone goes by the rejections in the store and nothing else. */
  lemma AloneFinishes(c: Config, s: System, t: TaskId)
    requires Inv(c, s) && t in s.tasks && s.tasks[t] == Task(s.store.Keys, ScanPending(0)) && NonePending(c, s.store)
    ensures var after := Run(c, s, Alone(t, Enough(c)));
            && Inv(c, after) && after.store == s.store && after.tasks.Keys == s.tasks.Keys
            && (forall u :: u in s.tasks && u != t ==> after.tasks[u] == s.tasks[u])
            && (MarkedResumed(after.tasks[t].phase) ==> after.run.RunResumed?)
            && if SomeRejected(c, s.store) then after.tasks[t].phase.RejectedBy?
               else if c.native then after.tasks[t].phase.Invoked? else after.tasks[t].phase.Stub?
  {
    var steps := Alone(t, Enough(c));
    RunKeepsInv(c, s, steps);
    AloneChangesNothingElse(c, s, t, Enough(c));
    TaskKeepsKnown(c, s, steps, t);
    ResumeTerminates(c, s, steps, t);
    EndsByKind(c, s, steps, t);
    var after := Run(c, s, steps);
    assert TaskOk(c, after.store, after.tasks[t]);
    TaskVerdict(c, after.store, after.tasks[t], s.store.Keys);
  }

  function ApproveAll(ids: seq<Id>): (steps: seq<Step>)
    ensures forall step :: step in steps ==> step.StoreStep? && step.op.DecideOp?
  {
    if ids == [] then [] else [StoreStep(DecideOp(ids[0], Approve, "", None, 0))] + ApproveAll(ids[1..])
  }

  /** Approving every id in turn leaves none of them pending, rejects none and adds none. */
  lemma {:induction false} ApproveAllClears(c: Config, s: System, ids: seq<Id>)
    ensures var after := Run(c, s, ApproveAll(ids));
            && after.tasks == s.tasks && after.store.Keys == s.store.Keys
            && (forall id :: id in ids ==> !Has(after.store, id, Pending))
            && forall id :: Has(after.store, id, Rejected) ==> Has(s.store, id, Rejected)
    decreases |ids|
  {
    if ids != [] {
      var next := Apply(c, s, ApproveAll(ids)[0]);
      assert ApproveAll(ids)[1..] == ApproveAll(ids[1..]);
      assert next.store.Keys == s.store.Keys;
      ApproveAllClears(c, next, ids[1..]);
      RunEvolves(c, next, ApproveAll(ids[1..]));
    }
  }

  function AtStart(store: Records): System {
    System(store, RunInterrupted, map[])
  }

  /** Every approval there is gets approved, and the resume runs on undisturbed. */
  function Quietly(c: Config): (steps: seq<Step>)
    ensures forall step :: step in steps ==> step == TaskStep(0) || (step.StoreStep? && step.op.DecideOp?)
  {
    ApproveAll(c.ids) + Alone(0, Enough(c))
  }

  lemma QuietlyProceeds(c: Config, s: System)
    requires Inv(c, s) && s.tasks == map[0 := Task(s.store.Keys, ScanPending(0))] && !SomeRejected(c, s.store)
    ensures var after := Run(c, s, Quietly(c));
            && Inv(c, after) && after.tasks.Keys == {0} && after.store.Keys == s.store.Keys
            && NonePending(c, after.store) && !SomeRejected(c, after.store) && after.run.RunResumed?
            && if c.native then after.tasks[0].phase.Invoked? else after.tasks[0].phase.Stub?
  {
    RunConcat(c, s, ApproveAll(c.ids), Alone(0, Enough(c)));
    RunKeepsInv(c, s, ApproveAll(c.ids));
    ApproveAllClears(c, s, c.ids);
    var cleared := Run(c, s, ApproveAll(c.ids));
    assert !SomeRejected(c, cleared.store);
    AloneFinishes(c, cleared, 0);
  }

  /** The same for a resume that has just started. */
  lemma QuietRunProceeds(c: Config, store: Records)
    requires !SomeRejected(c, store)
    ensures var s := Run(c, AtStart(store), [Spawn(0)] + Quietly(c));
            && Inv(c, s) && s.tasks.Keys == {0} && s.store.Keys == store.Keys
            && NonePending(c, s.store) && !SomeRejected(c, s.store)
            && if c.native then s.tasks[0].phase.Invoked? else s.tasks[0].phase.Stub?
  {
    assert ([Spawn(0)] + Quietly(c))[1..] == Quietly(c);
    QuietlyProceeds(c, Apply(c, AtStart(store), Spawn(0)));
  }

  // ---- Exactly when dispatch is safe ----

  /** Under this schedule the backend is called only with every approval of the run in the store and
      approved or expired. */
  ghost predicate SafeUnder(c: Config, store: Records, steps: seq<Step>) {
    var s := Run(c, AtStart(store), [Spawn(0)] + steps);
    0 in s.tasks && s.tasks[0].phase.Invoked? ==>
      forall id :: id in c.ids ==> id in s.store && (s.store[id].status.Approved? || s.store[id].status.Expired?)
  }

  lemma SafeWhenPresent(c: Config, store: Records, steps: seq<Step>)
    requires Present(c, store) || SomeRejected(c, store) || !c.native
    ensures SafeUnder(c, store, steps)
  {
    var s0 := AtStart(store);
    assert [] + [Spawn(0)] + steps == [Spawn(0)] + steps;
    assert Run(c, s0, []) == s0;
    DispatchIsSafe(c, s0, [], 0, steps);
    assert ([Spawn(0)] + steps)[1..] == steps;
    EndsByKind(c, Apply(c, s0, Spawn(0)), steps, 0);
    if SomeRejected(c, store) {
      StartedTaskOk(c, s0, [], 0, steps);
      var id :| id in c.ids && Has(store, id, Rejected);
      assert Has(Run(c, s0, [Spawn(0)] + steps).store, id, Rejected);
    }
  }

  /** The scans skip what the store does not hold: a resume that nobody but the approvers gets in the way
      of calls the backend although an approval of the run was never found. */
  lemma MissingIdBreaksSafety(c: Config, store: Records, x: Id) returns (steps: seq<Step>)
    requires c.native && x in c.ids && x !in store && !SomeRejected(c, store)
    ensures forall step :: step in steps ==> step == TaskStep(0) || (step.StoreStep? && step.op.DecideOp?)
    ensures var s := Run(c, AtStart(store), [Spawn(0)] + steps);
            0 in s.tasks && s.tasks[0].phase.Invoked? && x !in s.store
    ensures !SafeUnder(c, store, steps)
  {
    steps := Quietly(c);
    QuietRunProceeds(c, store);
  }

  /** Dispatch is safe under every schedule exactly when no id of the run is missing at the start, or one
      is already rejected, or there is no native backend to call. */
  lemma DispatchSafeIff(c: Config, store: Records)
    ensures (forall steps :: SafeUnder(c, store, steps)) <==>
            (Present(c, store) || SomeRejected(c, store) || !c.native)
  {
    if Present(c, store) || SomeRejected(c, store) || !c.native {
      forall steps ensures SafeUnder(c, store, steps) {
        SafeWhenPresent(c, store, steps);
      }
    } else {
      var x :| x in c.ids && x !in store;
      var steps := MissingIdBreaksSafety(c, store, x);
    }
  }

  // ---- Exactly when going ahead means approved ----

  /** Under this schedule a resume marks the run resumed, or goes on to, only with every approval of the
      run approved. */
  ghost predicate ApprovedUnder(c: Config, store: Records, steps: seq<Step>) {
    var s := Run(c, AtStart(store), [Spawn(0)] + steps);
    0 in s.tasks && Proceeds(s.tasks[0].phase) ==> forall id :: id in c.ids ==> Has(s.store, id, Approved)
  }

  /** Approved already, or open without a time limit. */
  ghost predicate CannotLapse(store: Records, id: Id) {
    Has(store, id, Approved) || (Has(store, id, Pending) && store[id].expiresAt.None?)
  }

  lemma ApprovedWhenNoneLapses(c: Config, store: Records, steps: seq<Step>)
    requires SomeRejected(c, store) || forall id :: id in c.ids ==> CannotLapse(store, id)
    ensures ApprovedUnder(c, store, steps)
  {
    var s0 := AtStart(store);
    assert [] + [Spawn(0)] + steps == [Spawn(0)] + steps;
    assert Run(c, s0, []) == s0;
    StartedTaskOk(c, s0, [], 0, steps);
    var s := Run(c, s0, [Spawn(0)] + steps);
    assert TaskOk(c, s.store, s.tasks[0]);
    if SomeRejected(c, store) {
      var id :| id in c.ids && Has(store, id, Rejected);
      assert Has(s.store, id, Rejected);
    } else if Proceeds(s.tasks[0].phase) {
      forall id | id in c.ids ensures Has(s.store, id, Approved) {
        assert CannotLapse(store, id);
      }
    }
  }

  /** One answer that comes too late, or to no record at all, and the resume goes ahead without the
      approval and marks the run resumed. */
  lemma LateAnswerGoesAhead(c: Config, store: Records, x: Id) returns (steps: seq<Step>)
    requires x in c.ids && !CannotLapse(store, x) && !SomeRejected(c, store)
    ensures forall step :: step in steps ==> step == TaskStep(0) || (step.StoreStep? && step.op.DecideOp?)
    ensures var s := Run(c, AtStart(store), [Spawn(0)] + steps);
            && 0 in s.tasks && (if c.native then s.tasks[0].phase.Invoked? else s.tasks[0].phase.Stub?)
            && s.run.RunResumed? && (x !in s.store || s.store[x].status.Expired?)
    ensures !ApprovedUnder(c, store, steps)
  {
    var limit := if x in store && store[x].expiresAt.Some? then store[x].expiresAt.value else 0;
    var late := StoreStep(DecideOp(x, Approve, "", None, limit));
    steps := [late] + Quietly(c);
    var s1 := Apply(c, AtStart(store), Spawn(0));
    var s2 := Apply(c, s1, late);
    assert ([Spawn(0)] + steps)[1..] == steps && steps[1..] == Quietly(c);
    assert !Has(store, x, Rejected);
    assert x !in s2.store || s2.store[x].status.Expired?;
    StepKeepsInv(c, s1, late);
    assert s2.store.Keys == store.Keys;
    assert !SomeRejected(c, s2.store);
    QuietlyProceeds(c, s2);
    RunEvolves(c, s2, Quietly(c));
  }

  /** Under every schedule a resume goes ahead only with every approval approved, exactly when one is
      rejected already, or each is in the store and approved, or open without a time limit. */
  lemma GoesAheadApprovedIff(c: Config, store: Records)
    ensures (forall steps :: ApprovedUnder(c, store, steps)) <==>
            (SomeRejected(c, store) || forall id :: id in c.ids ==> CannotLapse(store, id))
  {
    if SomeRejected(c, store) || forall id :: id in c.ids ==> CannotLapse(store, id) {
      forall steps ensures ApprovedUnder(c, store, steps) {
        ApprovedWhenNoneLapses(c, store, steps);
      }
    } else {
      var x :| x in c.ids && !CannotLapse(store, x);
      var steps := LateAnswerGoesAhead(c, store, x);
    }
  }

  // ---- Exactly when resumes agree ----

  lemma AgreeWhenKnown(c: Config, store: Records, steps: seq<Step>)
    requires Present(c, store) || SomeRejected(c, store)
    ensures Agree(Run(c, AtStart(store), steps))
  {
    var s0 := AtStart(store);
    var s := Run(c, s0, steps);
    if Present(c, store) {
      ResumesAgree(c, s0, steps);
    } else {
      var id :| id in c.ids && Has(store, id, Rejected);
      RunKeepsInv(c, s0, steps);
      RunKnowsBase(c, s0, steps, store.Keys);
      RunEvolves(c, s0, steps);
      forall t | t in s.tasks ensures !Proceeds(s.tasks[t].phase) {
        assert id in s.tasks[t].known && Has(s.store, id, Rejected);
      }
    }
  }

  /** A missing approval that somebody creates again, under its old id, and rejects after one resume went
      ahead makes the next one reject. */
  lemma LateRejectionSplits(c: Config, store: Records, x: Id) returns (steps: seq<Step>)
    requires x in c.ids && x !in store && !SomeRejected(c, store)
    ensures var again := [StoreStep(CreateOp(x, NEW_RECORD)), StoreStep(DecideOp(x, Reject, "", None, 0)), Spawn(1)];
            steps == ([Spawn(0)] + Quietly(c)) + (again + Alone(1, Enough(c)))
    ensures !Agree(Run(c, AtStart(store), steps))
  {
    QuietRunProceeds(c, store);
    var first := [Spawn(0)] + Quietly(c);
    var s1 := Run(c, AtStart(store), first);
    var create, reject := StoreStep(CreateOp(x, NEW_RECORD)), StoreStep(DecideOp(x, Reject, "", None, 0));
    var again := [create, reject, Spawn(1)];
    var s2 := Apply(c, Apply(c, s1, create), reject);
    var s3 := Apply(c, s2, Spawn(1));
    assert again[1..] == [reject, Spawn(1)] && again[1..][1..] == [Spawn(1)];
    assert Run(c, s2, [Spawn(1)]) == Run(c, s3, []);
    assert Run(c, s1, again) == s3;
    RunKeepsInv(c, s1, again);
    assert Has(s3.store, x, Rejected);
    AloneFinishes(c, s3, 1);
    steps := first + (again + Alone(1, Enough(c)));
    RunConcat(c, AtStart(store), first, again + Alone(1, Enough(c)));
    RunConcat(c, s1, again, Alone(1, Enough(c)));
    var s := Run(c, AtStart(store), steps);
    assert Proceeds(s.tasks[0].phase) && Rejects(s.tasks[1].phase);
  }

  /** Resumes of one run agree under every schedule exactly when no id of the run is missing at the start,
      or one is already rejected. */
  lemma AgreeIff(c: Config, store: Records)
    ensures (forall steps :: Agree(Run(c, AtStart(store), steps))) <==> (Present(c, store) || SomeRejected(c, store))
  {
    if Present(c, store) || SomeRejected(c, store) {
      forall steps ensures Agree(Run(c, AtStart(store), steps)) {
        AgreeWhenKnown(c, store, steps);
      }
    } else {
      var x :| x in c.ids && x !in store;
      var steps := LateRejectionSplits(c, store, x);
    }
  }
}
