/** `AgentApp.resume` as a concurrent protocol. Any number of resume tasks of one interrupted run
    read the approval store one id per await, while people create, approve, reject and let expire
    approvals between any two reads. */
module ResumeProtocol {
  import opened PyValues
  import opened ApprovalStore

  type TaskId = nat

  datatype RunStatus = RunInterrupted | RunCompleted | RunResumed

  datatype Decision = Decision(id: Id, status: Status)

  /** Where a resume task stands. `hit` and `at` record the index of the rejected approval that the
      rejection scan and the later reason scan stopped at; the program does not store them. */
  datatype Phase =
    | ScanPending(i: nat)
    | ScanRejected(i: nat)
    | MarkCompleted(hit: nat)
    | ScanReason(i: nat, hit: nat)
    | MarkResumed
    | Collect(i: nat, approvals: seq<Decision>)
    | StillPending
    | RejectedBy(hit: nat, at: Option<nat>, reason: string)
    | Invoked(approvals: seq<Decision>)
    | Stub

  /** `known` is the set of approval ids that were in the store when the task started. */
  datatype Task = Task(known: set<Id>, phase: Phase)

  /** The interrupted run: its approval ids, and whether a native backend with saved state can be called. */
  datatype Config = Config(ids: seq<Id>, native: bool)

  datatype System = System(store: Records, run: RunStatus, tasks: map<TaskId, Task>)

  datatype Step = StoreStep(op: StoreOp) | Spawn(t: TaskId) | TaskStep(t: TaskId)

  predicate Has(store: Records, id: Id, status: Status) {
    id in store && store[id].status == status
  }

  function ReasonText(record: Record): string {
    OrDefault(record.reason, "No reason provided.")
  }

  /** One await of a resume task. A missing id is skipped by every scan. */
  function Advance(c: Config, store: Records, p: Phase): Phase {
    match p
    case ScanPending(i) =>
      if i >= |c.ids| then ScanRejected(0)
      else if Has(store, c.ids[i], Pending) then StillPending
      else ScanPending(i + 1)
    case ScanRejected(i) =>
      if i >= |c.ids| then MarkResumed
      else if Has(store, c.ids[i], Rejected) then MarkCompleted(i)
      else ScanRejected(i + 1)
    case MarkCompleted(hit) => ScanReason(0, hit)
    case ScanReason(i, hit) =>
      if i >= |c.ids| then RejectedBy(hit, None, "Unknown")
      else if Has(store, c.ids[i], Rejected) then RejectedBy(hit, Some(i), ReasonText(store[c.ids[i]]))
      else ScanReason(i + 1, hit)
    case MarkResumed => if c.native then Collect(0, []) else Stub
    case Collect(i, approvals) =>
      if i >= |c.ids| then Invoked(approvals)
      else if c.ids[i] in store then Collect(i + 1, approvals + [Decision(c.ids[i], store[c.ids[i]].status)])
      else Collect(i + 1, approvals)
    case _ => p
  }

  predicate Done(p: Phase) {
    p.StillPending? || p.RejectedBy? || p.Invoked? || p.Stub?
  }

  predicate Proceeds(p: Phase) {
    p.MarkResumed? || p.Collect? || p.Invoked? || p.Stub?
  }

  predicate Rejects(p: Phase) {
    p.MarkCompleted? || p.ScanReason? || p.RejectedBy?
  }

  /** The run record after the await in phase p. */
  function RunAfter(p: Phase, run: RunStatus): RunStatus {
    if p.MarkCompleted? then RunCompleted else if p.MarkResumed? then RunResumed else run
  }

  function Apply(c: Config, s: System, step: Step): System {
    match step
    case StoreStep(op) => s.(store := AfterOp(s.store, op))
    case Spawn(t) =>
      if t in s.tasks then s else s.(tasks := s.tasks[t := Task(s.store.Keys, ScanPending(0))])
    case TaskStep(t) =>
      if t !in s.tasks then s else
        var task := s.tasks[t];
        System(s.store, RunAfter(task.phase, s.run),
               s.tasks[t := task.(phase := Advance(c, s.store, task.phase))])
  }

  /** The state reached by a schedule: every interleaving is one sequence of steps. */
  function Run(c: Config, s: System, steps: seq<Step>): System
    decreases |steps|
  {
    if steps == [] then s else Run(c, Apply(c, s, steps[0]), steps[1..])
  }

  lemma {:induction false} RunConcat(c: Config, s: System, a: seq<Step>, b: seq<Step>)
    ensures Run(c, s, a + b) == Run(c, Run(c, s, a), b)
    decreases |a|
  {
    if a == [] {
      assert a + b == b;
    } else {
      assert (a + b)[1..] == a[1..] + b;
      RunConcat(c, Apply(c, s, a[0]), a[1..], b);
    }
  }

  // ---- What the scans have established ----

  ghost predicate KnownResolved(c: Config, store: Records, known: set<Id>) {
    forall id :: id in c.ids && id in known ==> id in store && !store[id].status.Pending?
  }

  ghost predicate KnownCleared(c: Config, store: Records, known: set<Id>) {
    forall id :: id in c.ids && id in known ==>
      id in store && (store[id].status.Approved? || store[id].status.Expired?)
  }

  ghost predicate NoneBefore(c: Config, store: Records, known: set<Id>, n: nat, status: Status)
    requires n <= |c.ids|
  {
    forall k :: 0 <= k < n && c.ids[k] in known ==> !Has(store, c.ids[k], status)
  }

  ghost predicate RejectionFound(c: Config, store: Records, known: set<Id>, hit: nat) {
    && hit < |c.ids|
    && Has(store, c.ids[hit], Rejected)
    && NoneBefore(c, store, known, hit, Rejected)
    && KnownResolved(c, store, known)
  }

  /** The current answers, in id order, missing ids left out. */
  function Decisions(ids: seq<Id>, store: Records): seq<Decision> {
    if ids == [] then []
    else
      var id := ids[|ids| - 1];
      Decisions(ids[..|ids| - 1], store) + (if id in store then [Decision(id, store[id].status)] else [])
  }

  ghost predicate AllKnown(c: Config, known: set<Id>) {
    forall id :: id in c.ids ==> id in known
  }

  /** No id of the run is in the store but those in base: a missing one stays missing. */
  ghost predicate NoneAppears(c: Config, base: set<Id>, store: Records) {
    forall id :: id in c.ids && id in store ==> id in base
  }

  ghost predicate Collected(c: Config, store: Records, known: set<Id>, n: nat, approvals: seq<Decision>)
    requires n <= |c.ids|
  {
    && KnownCleared(c, store, known)
    && (forall d :: d in approvals ==>
         d.id in c.ids && (d.id in known ==> Has(store, d.id, d.status)))
    && (NoneAppears(c, known, store) ==> approvals == Decisions(c.ids[..n], store))
  }

  ghost predicate TaskOk(c: Config, store: Records, task: Task) {
    var known := task.known;
    && known <= store.Keys
    && match task.phase
       case ScanPending(i) => i <= |c.ids| && NoneBefore(c, store, known, i, Pending)
       case ScanRejected(i) =>
         i <= |c.ids| && KnownResolved(c, store, known) && NoneBefore(c, store, known, i, Rejected)
       case MarkCompleted(hit) => RejectionFound(c, store, known, hit)
       case ScanReason(i, hit) => RejectionFound(c, store, known, hit) && i <= hit
       case RejectedBy(hit, at, reason) =>
         && RejectionFound(c, store, known, hit)
         && at.Some? && at.value <= hit && Has(store, c.ids[at.value], Rejected)
         && reason == ReasonText(store[c.ids[at.value]])
       case MarkResumed => KnownCleared(c, store, known)
       case Stub => KnownCleared(c, store, known)
       case Collect(i, approvals) => i <= |c.ids| && Collected(c, store, known, i, approvals)
       case Invoked(approvals) => Collected(c, store, known, |c.ids|, approvals)
       case StillPending => true
  }

  ghost predicate Inv(c: Config, s: System) {
    forall t :: t in s.tasks ==> TaskOk(c, s.store, s.tasks[t])
  }

  // ---- Store traffic never invalidates what a task has established ----

  lemma {:induction false} DecisionsStable(ids: seq<Id>, before: Records, after: Records)
    requires Evolves(before, after)
    requires forall id :: id in ids && id in after ==> id in before && !before[id].status.Pending?
    ensures Decisions(ids, before) == Decisions(ids, after)
  {
    if ids != [] {
      DecisionsStable(ids[..|ids| - 1], before, after);
      assert ids[|ids| - 1] in ids;
    }
  }

  lemma CollectedStable(c: Config, before: Records, after: Records, known: set<Id>, n: nat, approvals: seq<Decision>)
    requires Evolves(before, after) && n <= |c.ids| && Collected(c, before, known, n, approvals)
    ensures Collected(c, after, known, n, approvals)
  {
    if NoneAppears(c, known, after) {
      forall id | id in c.ids[..n] && id in after ensures id in before && !before[id].status.Pending? {
        assert id in c.ids && id in known;
      }
      DecisionsStable(c.ids[..n], before, after);
    }
  }

  lemma {:induction false} TaskStable(c: Config, before: Records, after: Records, task: Task)
    requires Evolves(before, after) && TaskOk(c, before, task)
    ensures TaskOk(c, after, task)
  {
    match task.phase
    case Collect(i, approvals) => CollectedStable(c, before, after, task.known, i, approvals);
    case Invoked(approvals) => CollectedStable(c, before, after, task.known, |c.ids|, approvals);
    case _ =>
  }

  lemma {:induction false} CollectOne(c: Config, store: Records, known: set<Id>, i: nat, approvals: seq<Decision>)
    requires known <= store.Keys && i < |c.ids| && Collected(c, store, known, i, approvals)
    ensures TaskOk(c, store, Task(known, Advance(c, store, Collect(i, approvals))))
  {
    assert c.ids[..i + 1][..i] == c.ids[..i];
  }

  lemma {:induction false} TaskAdvances(c: Config, store: Records, task: Task)
    requires TaskOk(c, store, task)
    ensures TaskOk(c, store, task.(phase := Advance(c, store, task.phase)))
  {
    match task.phase
    case ScanPending(i) =>
      if i == |c.ids| {
        forall id | id in c.ids && id in task.known ensures id in store && !store[id].status.Pending? {
          var k :| 0 <= k < |c.ids| && c.ids[k] == id;
        }
      }
    case ScanRejected(i) =>
      if i == |c.ids| {
        forall id | id in c.ids && id in task.known ensures !Has(store, id, Rejected) {
          var k :| 0 <= k < |c.ids| && c.ids[k] == id;
        }
      }
    case Collect(i, approvals) =>
      if i < |c.ids| {
        CollectOne(c, store, task.known, i, approvals);
      }
    case _ =>
  }

  lemma StepKeepsInv(c: Config, s: System, step: Step)
    requires Inv(c, s)
    ensures Inv(c, Apply(c, s, step))
  {
    match step
    case StoreStep(op) =>
      OpsEvolve(s.store, op);
      forall t | t in s.tasks ensures TaskOk(c, AfterOp(s.store, op), s.tasks[t]) {
        TaskStable(c, s.store, AfterOp(s.store, op), s.tasks[t]);
      }
    case Spawn(t) =>
    case TaskStep(t) =>
      if t in s.tasks {
        TaskAdvances(c, s.store, s.tasks[t]);
      }
  }

  lemma {:induction false} RunKeepsInv(c: Config, s: System, steps: seq<Step>)
    requires Inv(c, s)
    ensures Inv(c, Run(c, s, steps))
    decreases |steps|
  {
    if steps != [] {
      StepKeepsInv(c, s, steps[0]);
      RunKeepsInv(c, Apply(c, s, steps[0]), steps[1..]);
    }
  }
}
