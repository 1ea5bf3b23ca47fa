/** The overall status of a run, inferred from its trace. */
module RunTrace {
  /** An event type as the collector holds it: absent, an enumeration member, or a plain value. */
  datatype EventType = NoType | Member(value: string) | Plain(text: string)

  function TypeText(e: EventType): string {
    match e
    case NoType => ""
    case Member(v) => v
    case Plain(t) => t
  }

  /** None < completed < interrupted < failed. */
  datatype Status = NoStatus | Completed | Interrupted | Failed

  const FAILED_TYPES := {"run.failed", "workflow.failed", "agent.failed", "tool.failed"}

  /** What one event says on its own, for any set of failure types. */
  function Says(failed: set<string>, e: EventType): Status {
    if TypeText(e) in failed then Failed
    else if TypeText(e) == "run.interrupted" then Interrupted
    else if TypeText(e) == "run.completed" then Completed
    else NoStatus
  }

  function Rank(s: Status): nat {
    match s case NoStatus => 0 case Completed => 1 case Interrupted => 2 case Failed => 3
  }

  function Join(a: Status, b: Status): Status {
    if Rank(a) < Rank(b) then b else a
  }

  /** The strongest thing any event says. */
  function Strongest(failed: set<string>, events: seq<EventType>): Status {
    if events == [] then NoStatus else Join(Says(failed, events[0]), Strongest(failed, events[1..]))
  }

  ghost predicate SomeEventSays(failed: set<string>, events: seq<EventType>, s: Status) {
    exists i :: 0 <= i < |events| && Says(failed, events[i]) == s
  }

  lemma {:induction false} StrongestBounds(failed: set<string>, events: seq<EventType>)
    ensures forall i :: 0 <= i < |events| ==> Rank(Says(failed, events[i])) <= Rank(Strongest(failed, events))
    ensures Strongest(failed, events) == NoStatus || SomeEventSays(failed, events, Strongest(failed, events))
  {
    if events != [] {
      var rest := events[1..];
      StrongestBounds(failed, rest);
      if Strongest(failed, events) == Says(failed, events[0]) {
      } else {
        var i :| 0 <= i < |rest| && Says(failed, rest[i]) == Strongest(failed, rest);
        assert events[i + 1] == rest[i];
      }
      forall i | 0 <= i < |events| ensures Rank(Says(failed, events[i])) <= Rank(Strongest(failed, events)) {
        assert i > 0 ==> events[i] == rest[i - 1];
      }
    }
  }

  lemma {:induction false} StrongestIs(failed: set<string>, events: seq<EventType>, s: Status)
    requires forall i :: 0 <= i < |events| ==> Rank(Says(failed, events[i])) <= Rank(s)
    requires s == NoStatus || SomeEventSays(failed, events, s)
    ensures Strongest(failed, events) == s
  {
    StrongestBounds(failed, events);
    if s != NoStatus {
      var i :| 0 <= i < |events| && Says(failed, events[i]) == s;
    }
  }

  /** `_infer_status`: three passes over the events. */
  method InferWith(failed: set<string>, events: seq<EventType>) returns (s: Status)
    ensures s == Strongest(failed, events)
  {
    for n := 0 to |events|
      invariant forall i :: 0 <= i < n ==> Rank(Says(failed, events[i])) <= 2
    {
      if TypeText(events[n]) in failed {
        StrongestIs(failed, events, Failed);
        return Failed;
      }
    }
    for n := 0 to |events|
      invariant forall i :: 0 <= i < n ==> Rank(Says(failed, events[i])) <= 1
    {
      if TypeText(events[n]) == "run.interrupted" {
        StrongestIs(failed, events, Interrupted);
        return Interrupted;
      }
    }
    for n := 0 to |events|
      invariant forall i :: 0 <= i < n ==> Rank(Says(failed, events[i])) <= 0
    {
      if TypeText(events[n]) == "run.completed" {
        StrongestIs(failed, events, Completed);
        return Completed;
      }
    }
    StrongestIs(failed, events, NoStatus);
    s := NoStatus;
  }

  /** The type of an event, as an enumeration member or as plain text. */
  predicate IsType(e: EventType, text: string) {
    e == Member(text) || e == Plain(text)
  }

  predicate IsFailure(e: EventType) {
    IsType(e, "run.failed") || IsType(e, "workflow.failed") || IsType(e, "agent.failed") || IsType(e, "tool.failed")
  }

  lemma SaysByName(e: EventType)
    ensures Says(FAILED_TYPES, e) == Failed <==> IsFailure(e)
    ensures Says(FAILED_TYPES, e) == Interrupted <==> IsType(e, "run.interrupted")
    ensures Says(FAILED_TYPES, e) == Completed <==> IsType(e, "run.completed")
  {}

  ghost predicate HasFailure(events: seq<EventType>) {
    exists e :: e in events && IsFailure(e)
  }

  ghost predicate HasType(events: seq<EventType>, text: string) {
    exists e :: e in events && IsType(e, text)
  }

  ghost predicate AnySays(failed: set<string>, events: seq<EventType>, s: Status) {
    exists e :: e in events && Says(failed, e) == s
  }

  /** The strongest status there is among the events. */
  lemma StrongestThereIs(failed: set<string>, events: seq<EventType>)
    ensures var s := Strongest(failed, events);
            && (s == Failed <==> AnySays(failed, events, Failed))
            && (s == Interrupted <==> !AnySays(failed, events, Failed) && AnySays(failed, events, Interrupted))
            && (s == Completed <==> !AnySays(failed, events, Failed) && !AnySays(failed, events, Interrupted)
                                    && AnySays(failed, events, Completed))
  {
    StrongestBounds(failed, events);
    forall e | e in events ensures Rank(Says(failed, e)) <= Rank(Strongest(failed, events)) {
      var i :| 0 <= i < |events| && events[i] == e;
    }
    if Strongest(failed, events) != NoStatus {
      var i :| 0 <= i < |events| && Says(failed, events[i]) == Strongest(failed, events);
      assert events[i] in events;
    }
  }

  /** The same in the names of the event types. */
  lemma StrongestByName(events: seq<EventType>)
    ensures AnySays(FAILED_TYPES, events, Failed) <==> HasFailure(events)
    ensures AnySays(FAILED_TYPES, events, Interrupted) <==> HasType(events, "run.interrupted")
    ensures AnySays(FAILED_TYPES, events, Completed) <==> HasType(events, "run.completed")
  {
    forall e
      ensures Says(FAILED_TYPES, e) == Failed <==> IsFailure(e)
      ensures Says(FAILED_TYPES, e) == Interrupted <==> IsType(e, "run.interrupted")
      ensures Says(FAILED_TYPES, e) == Completed <==> IsType(e, "run.completed")
    {
      SaysByName(e);
    }
  }

  method InferStatus(events: seq<EventType>) returns (s: Status)
    ensures s == Strongest(FAILED_TYPES, events)
    ensures s == Failed <==> HasFailure(events)
    ensures s == Interrupted <==> !HasFailure(events) && HasType(events, "run.interrupted")
    ensures s == Completed <==>
            !HasFailure(events) && !HasType(events, "run.interrupted") && HasType(events, "run.completed")
  {
    s := InferWith(FAILED_TYPES, events);
    StrongestThereIs(FAILED_TYPES, events);
    StrongestByName(events);
  }

  /** Inference is a homomorphism: a trace in two parts says the join of what the parts say. */
  lemma {:induction false} InferConcat(failed: set<string>, a: seq<EventType>, b: seq<EventType>)
    ensures Strongest(failed, a + b) == Join(Strongest(failed, a), Strongest(failed, b))
    ensures Rank(Strongest(failed, a)) <= Rank(Strongest(failed, a + b))
  {
    if a == [] {
      assert a + b == b;
    } else {
      assert (a + b)[1..] == a[1..] + b;
      InferConcat(failed, a[1..], b);
    }
  }

  /** The order in which events were collected, and how often each was, does not matter. */
  lemma InferIgnoresOrder(failed: set<string>, a: seq<EventType>, b: seq<EventType>)
    requires forall e :: e in a <==> e in b
    ensures Strongest(failed, a) == Strongest(failed, b)
  {
    StrongestBounds(failed, a);
    StrongestBounds(failed, b);
    if Strongest(failed, a) != NoStatus {
      var i :| 0 <= i < |a| && Says(failed, a[i]) == Strongest(failed, a);
      assert a[i] in b;
    }
    if Strongest(failed, b) != NoStatus {
      var i :| 0 <= i < |b| && Says(failed, b[i]) == Strongest(failed, b);
      assert b[i] in a;
    }
  }
}
