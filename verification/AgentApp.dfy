/** `AgentApp.resume` in its own form: loops that await the approval store once per id. Every await
    lets the rest of the process run, and the methods are proved to be runs of the protocol. */
module AgentApp {
  import opened PyValues
  import opened ApprovalStore
  import opened ResumeProtocol
  import opened ResumeSafety

  datatype Outcome =
    | Interrupted
    | CompletedRejected(reason: string)
    | CompletedStub
    | Dispatched(approvals: seq<Decision>)

  lemma RunSnoc(c: Config, s: System, steps: seq<Step>, step: Step)
    ensures Run(c, s, steps + [step]) == Apply(c, Run(c, s, steps), step)
  {
    RunConcat(c, s, steps, [step]);
    var mid := Run(c, s, steps);
    assert Run(c, mid, [step]) == Run(c, Apply(c, mid, step), []);
  }

  /** One interrupted run and the event loop its resumes run on. */
  class RunHost {
    const config: Config
    const store: Store
    var run: RunStatus
    var tasks: map<TaskId, Task>
    ghost const start: System
    ghost var steps: seq<Step>

    constructor (config: Config, store: Store)
      ensures Valid() && fresh(this) && this.config == config && this.store == store
      ensures run.RunInterrupted? && tasks == map[]
    {
      this.config := config;
      this.store := store;
      run := RunInterrupted;
      tasks := map[];
      start := System(store.records, RunInterrupted, map[]);
      steps := [];
    }

    /** The fields are the state that the schedule so far leads to. */
    ghost predicate Valid()
      reads this, store
    {
      && Starts(start)
      && Run(config, start, steps) == System(store.records, run, tasks)
    }

    /** Everything a suspended resume task can rely on when it is scheduled again. */
    ghost predicate At(me: TaskId, known: set<Id>, phase: Phase)
      reads this, store
    {
      Valid() && me in tasks && tasks[me] == Task(known, phase)
    }

    /** Suspend `me`: deciders and other resumes of the run take any number of steps. */
    method Await(me: TaskId, ghost known: set<Id>, ghost phase: Phase)
      requires At(me, known, phase)
      modifies this, store
      ensures At(me, known, phase)
      ensures old(steps) <= steps
    {
      var n: nat := *;
      while n > 0
        invariant At(me, known, phase)
        invariant old(steps) <= steps
      {
        var other: TaskId := *;
        var op: StoreOp := *;
        if * {
          Other(op);
        } else if other != me {
          if other in tasks {
            Tick(other);
          } else {
            Begin(other);
          }
        }
        n := n - 1;
      }
    }

    /** Time passes before resume `me` is called: deciders and other resumes of the run act. */
    method Elapse(me: TaskId)
      requires Valid() && me !in tasks
      modifies this, store
      ensures Valid() && me !in tasks && Evolves(old(store.records), store.records)
    {
      var n: nat := *;
      while n > 0
        invariant Valid() && me !in tasks && Evolves(old(store.records), store.records)
      {
        var other: TaskId := *;
        var op: StoreOp := *;
        if * {
          OpsEvolve(store.records, op);
          Other(op);
        } else if other != me {
          if other in tasks {
            Tick(other);
          } else {
            Begin(other);
          }
        }
        n := n - 1;
      }
    }

    /** One call on the approval store by anyone. */
    method Other(op: StoreOp)
      requires Valid()
      modifies this, store
      ensures Valid() && tasks == old(tasks) && run == old(run)
      ensures store.records == AfterOp(old(store.records), op)
      ensures steps == old(steps) + [StoreStep(op)]
    {
      RunSnoc(config, start, steps, StoreStep(op));
      match op {
        case CreateOp(id, record) =>
          var r := store.Create(id, record);
        case DecideOp(id, verdict, who, reason, now) =>
          var r := store.Decide(id, verdict, who, reason, now);
      }
      steps := steps + [StoreStep(op)];
    }

    /** A resume call arrives. */
    method Begin(t: TaskId)
      requires Valid() && t !in tasks
      modifies this
      ensures At(t, store.records.Keys, ScanPending(0))
      ensures tasks == old(tasks)[t := tasks[t]] && run == old(run) && steps == old(steps) + [Spawn(t)]
    {
      RunSnoc(config, start, steps, Spawn(t));
      tasks := tasks[t := Task(store.records.Keys, ScanPending(0))];
      steps := steps + [Spawn(t)];
    }

    /** The stretch of task t between two awaits. */
    method Tick(t: TaskId)
      requires Valid() && t in tasks
      modifies this
      ensures At(t, old(tasks[t].known), Advance(config, store.records, old(tasks[t].phase)))
      ensures tasks == old(tasks)[t := tasks[t]] && run == RunAfter(old(tasks[t].phase), old(run))
      ensures steps == old(steps) + [TaskStep(t)]
    {
      RunSnoc(config, start, steps, TaskStep(t));
      var task := tasks[t];
      run := RunAfter(task.phase, run);
      tasks := tasks[t := task.(phase := Advance(config, store.records, task.phase))];
      steps := steps + [TaskStep(t)];
    }

    method CheckPendingApprovals(me: TaskId, ghost known: set<Id>) returns (pending: bool)
      requires At(me, known, ScanPending(0))
      modifies this, store
      ensures At(me, known, if pending then StillPending else ScanRejected(0))
      ensures old(steps) <= steps
    {
      var i := 0;
      while i < |config.ids|
        invariant i <= |config.ids|
        invariant At(me, known, ScanPending(i)) && old(steps) <= steps
      {
        Await(me, known, ScanPending(i));
        var req := store.Lookup(config.ids[i]);
        Tick(me);
        if req.Ok? && req.value.status.Pending? {
          return true;
        }
        i := i + 1;
      }
      Tick(me);
      pending := false;
    }

    method CheckRejectedApprovals(me: TaskId, ghost known: set<Id>) returns (rejected: bool, ghost hit: nat)
      requires At(me, known, ScanRejected(0))
      modifies this, store
      ensures At(me, known, if rejected then MarkCompleted(hit) else MarkResumed)
      ensures old(steps) <= steps
    {
      var i := 0;
      while i < |config.ids|
        invariant i <= |config.ids|
        invariant At(me, known, ScanRejected(i)) && old(steps) <= steps
      {
        Await(me, known, ScanRejected(i));
        var req := store.Lookup(config.ids[i]);
        Tick(me);
        if req.Ok? && req.value.status.Rejected? {
          return true, i;
        }
        i := i + 1;
      }
      Tick(me);
      rejected, hit := false, 0;
    }

    method GetRejectionInfo(me: TaskId, ghost known: set<Id>, ghost hit: nat) returns (reason: string)
      requires At(me, known, ScanReason(0, hit))
      modifies this, store
      ensures Valid() && me in tasks && tasks[me].known == known
      ensures tasks[me].phase.RejectedBy? && tasks[me].phase.hit == hit && tasks[me].phase.reason == reason
      ensures old(steps) <= steps
    {
      var i := 0;
      while i < |config.ids|
        invariant i <= |config.ids|
        invariant At(me, known, ScanReason(i, hit)) && old(steps) <= steps
      {
        Await(me, known, ScanReason(i, hit));
        var req := store.Lookup(config.ids[i]);
        Tick(me);
        if req.Ok? && req.value.status.Rejected? {
          return OrDefault(req.value.reason, "No reason provided.");
        }
        i := i + 1;
      }
      Tick(me);
      reason := "Unknown";
    }

    method CollectApprovals(me: TaskId, ghost known: set<Id>) returns (approvals: seq<Decision>)
      requires At(me, known, Collect(0, []))
      modifies this, store
      ensures At(me, known, Invoked(approvals)) && old(steps) <= steps
    {
      approvals := [];
      var i := 0;
      while i < |config.ids|
        invariant i <= |config.ids|
        invariant At(me, known, Collect(i, approvals)) && old(steps) <= steps
      {
        Await(me, known, Collect(i, approvals));
        var id := config.ids[i];
        var req := store.Lookup(id);
        Tick(me);
        if req.Ok? {
          approvals := approvals + [Decision(id, req.value.status)];
        }
        i := i + 1;
      }
      Tick(me);
    }

    ghost predicate Matches(outcome: Outcome, phase: Phase) {
      match outcome
      case Interrupted => phase.StillPending?
      case CompletedRejected(reason) => phase.RejectedBy? && phase.reason == reason
      case CompletedStub => phase.Stub?
      case Dispatched(approvals) => phase == Invoked(approvals)
    }

    /** The awaits of one resume call, in order. */
    method ResumeTask(me: TaskId) returns (outcome: Outcome)
      requires Valid() && me !in tasks
      modifies this, store
      ensures Valid() && me in tasks && Matches(outcome, tasks[me].phase)
      ensures old(steps) + [Spawn(me)] <= steps
    {
      Begin(me);
      ghost var known := store.records.Keys;
      var pending := CheckPendingApprovals(me, known);
      if pending {
        return Interrupted;
      }
      var rejected, hit := CheckRejectedApprovals(me, known);
      if rejected {
        Await(me, known, MarkCompleted(hit));
        Tick(me);
        var reason := GetRejectionInfo(me, known, hit);
        return CompletedRejected(reason);
      }
      Await(me, known, MarkResumed);
      Tick(me);
      if !config.native {
        return CompletedStub;
      }
      var approvals := CollectApprovals(me, known);
      outcome := Dispatched(approvals);
    }

    /** The reason on record, or, where there is none, the words for that. */
    ghost predicate GivesReason(record: Record, text: string) {
      if record.reason in {None, Some("")} then text == "No reason provided." else record.reason == Some(text)
    }

    /** `resume`. A dispatch happens only when every approval that existed at the call is approved or
        expired, and hands over the current statuses, missing approvals left out; a call made after the
        last decision is never answered "still pending", and rejects, with the first rejection's reason,
        exactly when some approval was rejected. The stored run is marked accordingly, while no missing
        approval turns up. */
    method Resume(me: TaskId) returns (outcome: Outcome)
      requires Valid() && me !in tasks
      modifies this, store
      ensures Valid() && Evolves(old(store.records), store.records)
      ensures outcome.Dispatched? || outcome.CompletedStub? ==>
        KnownCleared(config, store.records, old(store.records.Keys))
      ensures outcome.Dispatched? && NoneAppears(config, old(store.records.Keys), store.records) ==>
        outcome.approvals == Decisions(config.ids, store.records)
      ensures AllResolved(config, old(store.records)) ==>
        !outcome.Interrupted? && (outcome.CompletedRejected? <==> SomeRejected(config, old(store.records)))
      ensures AllResolved(config, old(store.records)) && outcome.CompletedRejected? ==>
        exists k: nat :: FirstRejected(config, old(store.records), k)
                    && GivesReason(old(store.records)[config.ids[k]], outcome.reason)
      ensures outcome.CompletedRejected? ==>
        exists id :: id in config.ids && Has(store.records, id, Rejected)
                  && GivesReason(store.records[id], outcome.reason)
      ensures outcome.Interrupted? ==> SomeOpen(config, old(store.records))
      ensures (outcome.Dispatched? ==> config.native) && (outcome.CompletedStub? ==> !config.native)
      ensures NoneAppears(config, start.store.Keys, store.records) ==>
        && (outcome.CompletedRejected? ==> run.RunCompleted?)
        && (outcome.Dispatched? || outcome.CompletedStub? ==> run.RunResumed?)
    {
      ghost var before, records := steps, store.records;
      outcome := ResumeTask(me);
      ghost var during := steps[|before| + 1..];
      assert steps == before + [Spawn(me)] + during;
      StartedTaskOk(config, start, before, me, during);
      assert TaskOk(config, store.records, tasks[me]);
      assert config.ids[..|config.ids|] == config.ids;
      if AllResolved(config, records) {
        VerdictIsFixed(config, start, before, me, during);
      }
      StartedTaskEnds(config, start, before, me, during);
      if outcome.CompletedRejected? {
        ghost var at := tasks[me].phase.at.value;
        assert config.ids[at] in config.ids && GivesReason(store.records[config.ids[at]], outcome.reason);
      }
      if NoneAppears(config, start.store.Keys, store.records) {
        assert steps + [] == steps;
        RunRecordIsFinal(config, start, steps, []);
      }
    }
  }
}
