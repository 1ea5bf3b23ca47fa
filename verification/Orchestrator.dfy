/** Which agents an orchestrator run is said to have called, read off its tool calls. */
module Orchestrator {
  import opened PyValues

  /** `tc.get("tool", "unknown")`. */
  function ToolOf(call: Option<string>): (tool: string)
    ensures call == Some(tool) || (call == None && tool == "unknown")
  {
    if call.Some? then call.value else "unknown"
  }

  /** The calls that name a specialist, in order. */
  function SpecialistCalls(calls: seq<Option<string>>, specialists: seq<string>): seq<string> {
    if calls == [] then []
    else
      var n := |calls| - 1;
      SpecialistCalls(calls[..n], specialists) + (if ToolOf(calls[n]) in specialists then [ToolOf(calls[n])] else [])
  }

  /** Every tool called, at its first occurrence. */
  function FirstOccurrences(calls: seq<Option<string>>): seq<string> {
    if calls == [] then []
    else
      var n := |calls| - 1;
      var earlier := FirstOccurrences(calls[..n]);
      if ToolOf(calls[n]) in earlier then earlier else earlier + [ToolOf(calls[n])]
  }

  /** The extraction loops: the specialist calls if there are any, else all distinct tools. */
  method ExtractAgentCalls(calls: seq<Option<string>>, specialists: seq<string>) returns (agents: seq<string>)
    ensures agents == if exists i :: 0 <= i < |calls| && ToolOf(calls[i]) in specialists
                      then SpecialistCalls(calls, specialists) else FirstOccurrences(calls)
  {
    agents := [];
    for n := 0 to |calls|
      invariant agents == SpecialistCalls(calls[..n], specialists)
      invariant agents == [] <==> forall i :: 0 <= i < n ==> ToolOf(calls[i]) !in specialists
    {
      assert calls[..n + 1][..n] == calls[..n];
      if ToolOf(calls[n]) in specialists {
        agents := agents + [ToolOf(calls[n])];
      }
    }
    assert calls[..|calls|] == calls;
    if agents == [] && calls != [] {
      for n := 0 to |calls|
        invariant agents == FirstOccurrences(calls[..n])
      {
        assert calls[..n + 1][..n] == calls[..n];
        if ToolOf(calls[n]) !in agents {
          agents := agents + [ToolOf(calls[n])];
        }
      }
    }
  }

  /** A call goes into the specialist list exactly when it names a specialist, at the place that the number
      of such calls before it gives: so in order, and as often as it was made. */
  lemma {:induction false} SpecialistPositions(calls: seq<Option<string>>, specialists: seq<string>, i: nat)
    requires i < |calls|
    ensures var all, k := SpecialistCalls(calls, specialists), |SpecialistCalls(calls[..i], specialists)|;
            var next := |SpecialistCalls(calls[..i + 1], specialists)|;
            if ToolOf(calls[i]) in specialists then k < |all| && all[k] == ToolOf(calls[i]) && next == k + 1
            else next == k
    decreases |calls|
  {
    assert calls[..i + 1][..i] == calls[..i];
    var front := calls[..|calls| - 1];
    if i < |front| {
      SpecialistPositions(front, specialists, i);
      assert front[..i] == calls[..i];
    } else {
      assert calls[..i] == front && calls[..i + 1] == calls;
    }
  }

  /** Where a tool is first called, or the number of calls. */
  function FirstAt(calls: seq<Option<string>>, name: string): nat {
    if calls == [] || ToolOf(calls[0]) == name then 0 else 1 + FirstAt(calls[1..], name)
  }

  lemma {:induction false} FirstAtIsFirst(calls: seq<Option<string>>, name: string)
    ensures FirstAt(calls, name) <= |calls|
    ensures FirstAt(calls, name) < |calls| ==> ToolOf(calls[FirstAt(calls, name)]) == name
    ensures forall i :: 0 <= i < FirstAt(calls, name) ==> ToolOf(calls[i]) != name
  {
    if calls != [] {
      FirstAtIsFirst(calls[1..], name);
    }
  }

  lemma {:induction false} FirstAtFront(front: seq<Option<string>>, last: Option<string>, name: string)
    ensures FirstAt(front + [last], name) ==
            if FirstAt(front, name) == |front| && ToolOf(last) != name then |front| + 1 else FirstAt(front, name)
    ensures FirstAt(front, name) <= |front|
  {
    if front == [] {
      assert [last][1..] == [];
    } else {
      assert (front + [last])[1..] == front[1..] + [last];
      FirstAtFront(front[1..], last, name);
    }
  }

  lemma {:induction false} CalledIff(calls: seq<Option<string>>)
    ensures forall name :: name in FirstOccurrences(calls) <==> FirstAt(calls, name) < |calls|
  {
    if calls != [] {
      var front, last := calls[..|calls| - 1], calls[|calls| - 1];
      assert calls == front + [last];
      CalledIff(front);
      forall name ensures name in FirstOccurrences(calls) <==> FirstAt(calls, name) < |calls| {
        FirstAtFront(front, last, name);
      }
    }
  }

  ghost predicate Ascending(f: string -> nat, names: seq<string>) {
    forall k, l :: 0 <= k < l < |names| ==> f(names[k]) < f(names[l])
  }

  lemma AscendingExtends(f: string -> nat, g: string -> nat, names: seq<string>, bound: nat)
    requires Ascending(f, names) && forall name :: name in names ==> g(name) == f(name) < bound
    ensures Ascending(g, names)
    ensures forall last :: g(last) >= bound ==> Ascending(g, names + [last])
  {}

  function PlaceIn(calls: seq<Option<string>>): string -> nat {
    (name: string) => FirstAt(calls, name)
  }

  /** The fallback list names exactly the tools called, in the strict order of their first calls, and so
      without duplicates. */
  lemma {:induction false} FirstOccurrencesOrder(calls: seq<Option<string>>)
    ensures forall name :: name in FirstOccurrences(calls) <==> FirstAt(calls, name) < |calls|
    ensures Ascending(PlaceIn(calls), FirstOccurrences(calls))
  {
    CalledIff(calls);
    if calls != [] {
      var front, last := calls[..|calls| - 1], calls[|calls| - 1];
      assert calls == front + [last];
      FirstOccurrencesOrder(front);
      var names := FirstOccurrences(front);
      forall name | name in names ensures PlaceIn(calls)(name) == PlaceIn(front)(name) < |front| {
        FirstAtFront(front, last, name);
      }
      FirstAtFront(front, last, ToolOf(last));
      AscendingExtends(PlaceIn(front), PlaceIn(calls), names, |front|);
    }
  }
}
