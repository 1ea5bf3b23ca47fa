/** From interruption to tool call: run, decide, resume, call, across all three layers. */
module EndToEnd {
  import opened PyValues
  import opened ApprovalStore
  import opened ResumeProtocol
  import opened ResumeSafety
  import opened DecisionMap
  import opened Ledger
  import opened NativeBackend
  import opened SavedRuns
  import App = AgentApp

  function StatusName(s: Status): string {
    match s
    case Pending => "pending"
    case Approved => "approved"
    case Rejected => "rejected"
    case Expired => "expired"
  }

  /** The approvals argument that `AgentApp.resume` passes on. */
  function AsItems(ds: seq<Decision>): seq<ApprovalItem> {
    seq(|ds|, k requires 0 <= k < |ds| => ApprovalItem(Text(ds[k].id), Text(StatusName(ds[k].status))))
  }

  /** Answers for a run whose interruption k was recorded under ids[k]. `shown` is whichever interruption
      list reaches the decision map. */
  function AnswersOf(items: seq<Item>, ids: seq<Id>, ds: seq<Decision>, shown: seq<Interruption>): Answers
    requires |items| == |ids|
  {
    Answers(AsItems(ds), shown, IdMapOf(items, ids))
  }

  // ---- The answer that counts ----

  /** The status of an approval; one that the store does not hold counts as pending. */
  function StatusOf(store: Records, id: Id): Status {
    if id in store then store[id].status else Pending
  }

  /** The last interruption with a given call id whose approval is in the store. */
  function LastTwin(items: seq<Item>, ids: seq<Id>, store: Records, call: string): (n: Option<nat>)
    requires |items| == |ids|
    ensures n.Some? ==> n.value < |items|
  {
    if items == [] then None
    else
      var n := |items| - 1;
      if CallId(items[n]) == call && ids[n] in store then Some(n) else LastTwin(items[..n], ids[..n], store, call)
  }

  lemma {:induction false} LastTwinIsLast(items: seq<Item>, ids: seq<Id>, store: Records, call: string)
    requires |items| == |ids|
    ensures match LastTwin(items, ids, store, call)
            case Some(j) =>
              && CallId(items[j]) == call && ids[j] in store
              && forall k :: j < k < |items| && CallId(items[k]) == call ==> ids[k] !in store
            case None => forall k :: 0 <= k < |items| && CallId(items[k]) == call ==> ids[k] !in store
  {
    if items != [] {
      LastTwinIsLast(items[..|items| - 1], ids[..|ids| - 1], store, call);
    }
  }

  /** The answer that counts for an interruption: the one to the last interruption with its call id whose
      approval is in the store. Where there is none, the call id is taken for an approval id of the run, and
      if it is none either, or empty, the interruption is undecided. */
  function Answer(items: seq<Item>, ids: seq<Id>, store: Records, item: Item): Status
    requires |items| == |ids|
  {
    var call := CallId(item);
    var twin := LastTwin(items, ids, store, call);
    if call == "" then Pending
    else if twin.Some? then StatusOf(store, ids[twin.value])
    else if call in ids then StatusOf(store, call)
    else Pending
  }

  function Told(store: Records, id: Id): Option<string> {
    if id in store then Some(StatusName(store[id].status)) else None
  }

  /** The approvals list answers for every id of the run that the store holds, and for no other. */
  lemma {:induction false} StatusListed(ids: seq<Id>, store: Records, id: Id)
    ensures var approvals := AsItems(Decisions(ids, store));
            LastStatus(approvals, id) == FirstStatus(approvals, id) == if id in ids then Told(store, id) else None
  {
    if ids != [] {
      var n := |ids| - 1;
      var ds, front := Decisions(ids, store), Decisions(ids[..n], store);
      StatusListed(ids[..n], store, id);
      if ids[n] in store {
        assert ds == front + [Decision(ids[n], store[ids[n]].status)];
        assert AsItems(ds)[..|front|] == AsItems(front);
      } else {
        assert ds == front;
      }
    }
  }

  lemma {:induction false} ViaRunMap(approvals: seq<ApprovalItem>, items: seq<Item>, ids: seq<Id>, store: Records,
                                     call: string)
    requires |items| == |ids| && forall id :: id in ids ==> LastStatus(approvals, id) == Told(store, id)
    ensures var r := ViaIdMap(approvals, IdMapOf(items, ids), call);
            if call == "" then r.None?
            else match LastTwin(items, ids, store, call)
              case Some(j) => r == Some(StatusName(StatusOf(store, ids[j])))
              case None => r.None?
  {
    if items != [] {
      var n := |items| - 1;
      ViaRunMap(approvals, items[..n], ids[..n], store, call);
      var earlier := IdMapOf(items[..n], ids[..n]);
      ViaIdMapSnoc(approvals, earlier, IdEntry(ids[n], CallId(items[n])), call);
      assert earlier + [] == earlier;
      assert ids[n] in ids;
      LastTwinIsLast(items[..n], ids[..n], store, call);
    }
  }

  /** Interruptions as `run` recorded them, in whatever selection and order. */
  ghost predicate FromRun(shown: seq<Interruption>, items: seq<Item>, ids: seq<Id>)
    requires |items| == |ids|
  {
    forall x :: x in shown ==> x in RecordedAs(items, ids)
  }

  ghost predicate AllKept(ids: seq<Id>, store: Records) {
    forall id :: id in ids ==> id in store
  }

  /** Where the id map has no answer, the run's own interruptions have none either. */
  lemma ViaShown(approvals: seq<ApprovalItem>, items: seq<Item>, ids: seq<Id>, store: Records,
                 shown: seq<Interruption>, call: string)
    requires |items| == |ids| && forall id :: id in ids ==> LastStatus(approvals, id) == Told(store, id)
    requires FromRun(shown, items, ids) && LastTwin(items, ids, store, call).None?
    ensures ViaInterruptions(approvals, shown, call).None?
  {
    var n := ViaInterruptionsFinds(approvals, shown, call);
    LastTwinIsLast(items, ids, store, call);
    if ViaInterruptions(approvals, shown, call).Some? {
      assert shown[n] in shown;
      var k :| 0 <= k < |items| && shown[n] == RecordedAs(items, ids)[k];
      assert ids[k] in ids;
    }
  }

  /** Whatever the call ids and whatever the store has lost, the answer that counts is what the decision
      lookup finds. */
  lemma DecidedByLastTwin(items: seq<Item>, ids: seq<Id>, store: Records, shown: seq<Interruption>, i: nat)
    requires |items| == |ids| && i < |items| && (FromRun(shown, items, ids) || AllKept(ids, store))
    ensures VerdictOn(AnswersOf(items, ids, Decisions(ids, store), shown), items[i]) ==
            StatusName(Answer(items, ids, store, items[i]))
  {
    var call, approvals := CallId(items[i]), AsItems(Decisions(ids, store));
    forall id
      ensures LastStatus(approvals, id) == FirstStatus(approvals, id) == if id in ids then Told(store, id) else None
    {
      StatusListed(ids, store, id);
    }
    ViaRunMap(approvals, items, ids, store, call);
    LastTwinIsLast(items, ids, store, call);
    EmptyNeverViaInterruptions(approvals, shown);
    if call != "" && LastTwin(items, ids, store, call).None? {
      assert ids[i] in ids && ids[i] !in store;
      ViaShown(approvals, items, ids, store, shown, call);
    }
  }

  /** No two interruptions with one call id were answered differently; a lost approval was not answered. */
  ghost predicate TwinsAgree(items: seq<Item>, ids: seq<Id>, store: Records)
    requires |items| == |ids|
  {
    forall i, j :: 0 <= i < |items| && 0 <= j < |items| && CallId(items[i]) == CallId(items[j]) != "" ==>
      StatusOf(store, ids[i]) == StatusOf(store, ids[j])
  }

  /** No call id whose approvals are all lost is itself the id of another approval that was answered. */
  ghost predicate NoneMistaken(items: seq<Item>, ids: seq<Id>, store: Records)
    requires |items| == |ids|
  {
    forall i :: 0 <= i < |items| && CallId(items[i]) != "" && CallId(items[i]) in ids
      && (forall j :: 0 <= j < |items| && CallId(items[j]) == CallId(items[i]) ==> ids[j] !in store)
      ==> StatusOf(store, CallId(items[i])).Pending?
  }

  lemma OwnAnswer(items: seq<Item>, ids: seq<Id>, store: Records, i: nat)
    requires |items| == |ids| && i < |items| && CallId(items[i]) != ""
    requires TwinsAgree(items, ids, store) && NoneMistaken(items, ids, store)
    ensures Answer(items, ids, store, items[i]) == StatusOf(store, ids[i])
  {
    LastTwinIsLast(items, ids, store, CallId(items[i]));
  }

  lemma NamesDiffer(a: Status, b: Status)
    ensures StatusName(a) == StatusName(b) <==> a == b
    ensures StatusName(a) in {"pending", "approved", "rejected", "expired"}
  {}

  ghost predicate EachOwn(items: seq<Item>, ids: seq<Id>, store: Records)
    requires |items| == |ids|
  {
    forall i :: 0 <= i < |items| && CallId(items[i]) != "" ==>
      Answer(items, ids, store, items[i]) == StatusOf(store, ids[i])
  }

  lemma TwinsShare(items: seq<Item>, ids: seq<Id>, store: Records)
    requires |items| == |ids| && EachOwn(items, ids, store)
    ensures TwinsAgree(items, ids, store)
  {
    forall i, j | 0 <= i < |items| && 0 <= j < |items| && CallId(items[i]) == CallId(items[j]) != ""
      ensures StatusOf(store, ids[i]) == StatusOf(store, ids[j])
    {
      assert Answer(items, ids, store, items[i]) == Answer(items, ids, store, items[j]);
    }
  }

  lemma LostAreUndecided(items: seq<Item>, ids: seq<Id>, store: Records)
    requires |items| == |ids| && EachOwn(items, ids, store)
    ensures NoneMistaken(items, ids, store)
  {
    forall i | 0 <= i < |items| && CallId(items[i]) != "" && CallId(items[i]) in ids
      && (forall j :: 0 <= j < |items| && CallId(items[j]) == CallId(items[i]) ==> ids[j] !in store)
      ensures StatusOf(store, CallId(items[i])).Pending?
    {
      LastTwinIsLast(items, ids, store, CallId(items[i]));
      assert Answer(items, ids, store, items[i]) == StatusOf(store, CallId(items[i]));
    }
  }

  lemma EachOwnIff(items: seq<Item>, ids: seq<Id>, store: Records)
    requires |items| == |ids|
    ensures EachOwn(items, ids, store) <==> TwinsAgree(items, ids, store) && NoneMistaken(items, ids, store)
  {
    if EachOwn(items, ids, store) {
      TwinsShare(items, ids, store);
      LostAreUndecided(items, ids, store);
    } else if TwinsAgree(items, ids, store) && NoneMistaken(items, ids, store) {
      forall i | 0 <= i < |items| && CallId(items[i]) != ""
        ensures Answer(items, ids, store, items[i]) == StatusOf(store, ids[i])
      {
        OwnAnswer(items, ids, store, i);
      }
      assert false;
    }
  }

  /** Interruptions that share a call id share a fate: every interruption with a call id gets the answer to
      its own approval exactly when no two with one call id were answered differently and no call id is
      mistaken for an approval id. */
  lemma OwnAnswerIff(items: seq<Item>, ids: seq<Id>, store: Records, shown: seq<Interruption>)
    requires |items| == |ids| && (FromRun(shown, items, ids) || AllKept(ids, store))
    ensures (forall i :: 0 <= i < |items| && CallId(items[i]) != "" ==>
               VerdictOn(AnswersOf(items, ids, Decisions(ids, store), shown), items[i]) ==
               StatusName(StatusOf(store, ids[i])))
            <==> TwinsAgree(items, ids, store) && NoneMistaken(items, ids, store)
  {
    EachOwnIff(items, ids, store);
    forall i | 0 <= i < |items|
      ensures VerdictOn(AnswersOf(items, ids, Decisions(ids, store), shown), items[i]) ==
              StatusName(StatusOf(store, ids[i]))
              <==> Answer(items, ids, store, items[i]) == StatusOf(store, ids[i])
    {
      DecidedByLastTwin(items, ids, store, shown, i);
      NamesDiffer(Answer(items, ids, store, items[i]), StatusOf(store, ids[i]));
    }
  }

  /** The items, in order, for which the answer that counts is `status`. */
  function AnsweredIn(part: seq<Item>, items: seq<Item>, ids: seq<Id>, store: Records, status: Status): seq<Item>
    requires |items| == |ids|
  {
    if part == [] then []
    else
      var n := |part| - 1;
      AnsweredIn(part[..n], items, ids, store, status)
      + (if Answer(items, ids, store, part[n]) == status then [part[n]] else [])
  }

  function Answered(items: seq<Item>, ids: seq<Id>, store: Records, status: Status): seq<Item>
    requires |items| == |ids|
  {
    AnsweredIn(items, items, ids, store, status)
  }

  lemma {:induction false} ChosenIn(answers: Answers, part: seq<Item>, items: seq<Item>, ids: seq<Id>, store: Records,
                                    status: Status)
    requires |items| == |ids|
    requires forall i :: 0 <= i < |part| ==>
      (VerdictOn(answers, part[i]) == StatusName(status) <==> Answer(items, ids, store, part[i]) == status)
    ensures Chosen(answers, part, StatusName(status)) == AnsweredIn(part, items, ids, store, status)
  {
    if part != [] {
      ChosenIn(answers, part[..|part| - 1], items, ids, store, status);
    }
  }

  /** The resumed run approves the interruptions for which the answer that counts is approval and rejects
      those for which it is rejection, and no others. */
  lemma ChosenByAnswer(items: seq<Item>, ids: seq<Id>, store: Records, shown: seq<Interruption>, status: Status)
    requires |items| == |ids| && (FromRun(shown, items, ids) || AllKept(ids, store))
    ensures Chosen(AnswersOf(items, ids, Decisions(ids, store), shown), items, StatusName(status)) ==
            Answered(items, ids, store, status)
  {
    var answers := AnswersOf(items, ids, Decisions(ids, store), shown);
    forall i | 0 <= i < |items|
      ensures VerdictOn(answers, items[i]) == StatusName(status) <==> Answer(items, ids, store, items[i]) == status
    {
      DecidedByLastTwin(items, ids, store, shown, i);
      NamesDiffer(Answer(items, ids, store, items[i]), status);
    }
    ChosenIn(answers, items, items, ids, store, status);
  }

  /** The interruptions whose own approval has a given status, in order; one without a call id has no
      say. */
  function ItemsWith(items: seq<Item>, ids: seq<Id>, store: Records, status: Status): seq<Item>
    requires |items| == |ids|
  {
    if items == [] then []
    else
      var n := |items| - 1;
      ItemsWith(items[..n], ids[..n], store, status)
      + (if CallId(items[n]) != "" && StatusOf(store, ids[n]) == status then [items[n]] else [])
  }

  lemma {:induction false} AnsweredInOwn(items: seq<Item>, ids: seq<Id>, store: Records, status: Status, n: nat)
    requires |items| == |ids| && n <= |items| && EachOwn(items, ids, store) && !status.Pending?
    ensures AnsweredIn(items[..n], items, ids, store, status) == ItemsWith(items[..n], ids[..n], store, status)
  {
    if n != 0 {
      AnsweredInOwn(items, ids, store, status, n - 1);
      PrefixGrows(items, n - 1);
      PrefixGrows(ids, n - 1);
    }
  }

  /** Where twins agree, so in particular where call ids are distinct, and no call id is mistaken for an
      approval id, what counts is the interruption's own approval. */
  lemma AnsweredOwn(items: seq<Item>, ids: seq<Id>, store: Records, status: Status)
    requires |items| == |ids| && TwinsAgree(items, ids, store) && NoneMistaken(items, ids, store) && !status.Pending?
    ensures Answered(items, ids, store, status) == ItemsWith(items, ids, store, status)
  {
    EachOwnIff(items, ids, store);
    AnsweredInOwn(items, ids, store, status, |items|);
    assert items[..|items|] == items && ids[..|items|] == ids;
  }

  lemma {:induction false} NoneAnswered(part: seq<Item>, items: seq<Item>, ids: seq<Id>, store: Records, status: Status)
    requires |items| == |ids| && !status.Pending? && forall id :: id in ids ==> StatusOf(store, id) != status
    ensures AnsweredIn(part, items, ids, store, status) == []
  {
    if part != [] {
      NoneAnswered(part[..|part| - 1], items, ids, store, status);
    }
  }

  // ---- What the calls get ----

  lemma {:induction false} LedgerHolds(ms: seq<Marker>, key: Key)
    ensures Filed(LedgerOf(ms)) && Unused(LedgerOf(ms), key) == Filter(ms, key)
  {
    if ms != [] {
      var n := |ms| - 1;
      LedgerHolds(ms[..n], key);
      assert ms == ms[..n] + [ms[n]];
      FilterConcat(ms[..n], [ms[n]], key);
      AppendedUnused(LedgerOf(ms[..n]), ms[n], key);
    }
  }

  lemma AppendedUnused(ledger: Markers, m: Marker, key: Key)
    requires Filed(ledger)
    ensures Filed(Appended(ledger, m))
    ensures Unused(Appended(ledger, m), key) == Unused(ledger, key) + Filter([m], key)
  {
    FilterConcat(if m.tool in ledger then ledger[m.tool] else [], [m], key);
  }

  /** Of these interruptions, the markers of those asking for a given call, in order. */
  function Bought(decode: Decoder, approved: seq<Item>, key: Key): seq<Marker> {
    Filter(MarkersOf(decode, approved), key)
  }

  /** Which calls an interruption buys: those of the tool it names, with the dictionary it reports, or the
      dictionary its JSON text decodes to, or none for None, or else the reported or decoded value under a
      key of its own; each up to Python equality. */
  lemma BuysCallIff(decode: Decoder, item: Item, call: Call)
    ensures var tool := if item.toolName.Some? then item.toolName.value
                        else if item.name.Some? then item.name.value else "unknown";
            var value := if item.args.Str? && decode(item.args.s).Some? then decode(item.args.s).value else item.args;
            var args := if value.Obj? then value.fields
                        else if item.args.Null? then map[] else map["_raw" := value];
            MarkerKey(ItemMarker(decode, item)) == CallKey(call) <==>
            call.tool == tool && PyEq(Obj(args), Obj(call.args))
  {
    SameKeyIff(ToolName(item), Normalize(decode, item.args), call.tool, call.args);
  }

  /** An interruption whose arguments the SDK reports as JSON text buys the call that the tool wrapper
      sees with the decoded dictionary, up to Python equality of its values. */
  lemma TextBuysDecodedCall(decode: Decoder, item: Item, text: string, fields: Dict, call: Call)
    requires item.args == Str(text) && decode(text) == Some(Obj(fields))
    requires item.toolName == Some(call.tool) || (item.toolName.None? && item.name == Some(call.tool))
    requires PyEq(Obj(call.args), Obj(fields))
    ensures MarkerKey(ItemMarker(decode, item)) == CallKey(call)
  {
    PyEqIsEquivalence(Null, Obj(fields), Obj(call.args));
    BuysCallIff(decode, item, call);
  }

  /** What a resume with these answers hands the tools: the interruptions whose counting answer is approval
      are approved, those whose counting answer is rejection are rejected, and each call gets the oldest
      unused marker of the approved ones that asked for it. */
  lemma AnswersBuyCalls(items: seq<Item>, ids: seq<Id>, store: Records, shown: seq<Interruption>,
                        decode: Decoder, calls: seq<Call>, key: Key)
    requires |items| == |ids| && (FromRun(shown, items, ids) || AllKept(ids, store))
    ensures var answers := AnswersOf(items, ids, Decisions(ids, store), shown);
            var ledger := LedgerOf(MarkersOf(decode, Chosen(answers, items, "approved")));
            var bought := Bought(decode, Answered(items, ids, store, Approved), key);
            && Chosen(answers, items, "approved") == Answered(items, ids, store, Approved)
            && Chosen(answers, items, "rejected") == Answered(items, ids, store, Rejected)
            && Filed(ledger) && Unused(ledger, key) == bought
            && ReceiptsFor(ledger, calls, key) == FirstCome(bought, CallsWith(calls, key))
  {
    ChosenByAnswer(items, ids, store, shown, Approved);
    ChosenByAnswer(items, ids, store, shown, Rejected);
    var ms := MarkersOf(decode, Answered(items, ids, store, Approved));
    LedgerHolds(ms, key);
    FirstComeFirstServed(LedgerOf(ms), calls, key);
  }

  /** Approval is necessary, sufficient and spent once. Under every interleaving of deciders and resumes,
      when the backend of a run is resumed, no interruption is rejected, and whatever tool calls follow
      in whatever order, those with a given tool and arguments receive exactly the markers of the
      interruptions asking for them whose answer, as it stands in the store at that moment, is approval,
      oldest first, one call each, and then none. This holds whatever approvals the store has lost, as
      long as none of them turns up again, for the run's own interruption list, and for any other list
      if nothing was lost. */
  lemma ApprovalsBuyCalls(c: Config, s0: System, before: seq<Step>, t: TaskId, during: seq<Step>,
                          items: seq<Item>, shown: seq<Interruption>, decode: Decoder, calls: seq<Call>, key: Key)
    requires Starts(s0) && t !in Run(c, s0, before).tasks && |items| == |c.ids|
    requires FromRun(shown, items, c.ids) || Present(c, Run(c, s0, before).store)
    ensures var start, now := Run(c, s0, before), Run(c, s0, before + [Spawn(t)] + during);
            t in now.tasks && (now.tasks[t].phase.Invoked? && NoneAppears(c, start.store.Keys, now.store) ==>
              var ds := now.tasks[t].phase.approvals;
              var answers := AnswersOf(items, c.ids, ds, shown);
              var ledger := LedgerOf(MarkersOf(decode, Chosen(answers, items, "approved")));
              && ds == Decisions(c.ids, now.store)
              && (Present(c, start.store) ==>
                    |ds| == |items| && forall k :: 0 <= k < |ds| ==> Has(now.store, c.ids[k], ds[k].status))
              && Chosen(answers, items, "rejected") == []
              && ReceiptsFor(ledger, calls, key) ==
                 FirstCome(Bought(decode, Answered(items, c.ids, now.store, Approved), key), CallsWith(calls, key)))
  {
    DispatchIsSafe(c, s0, before, t, during);
    var start, now := Run(c, s0, before), Run(c, s0, before + [Spawn(t)] + during);
    if now.tasks[t].phase.Invoked? && NoneAppears(c, start.store.Keys, now.store) {
      AnswersBuyCalls(items, c.ids, now.store, shown, decode, calls, key);
      NoneAnswered(items, items, c.ids, now.store, Rejected);
    }
  }

  /** The same in terms of each interruption's own approval, where call ids are distinct, and where either no
      approval was lost or no call id is an approval id of the run. */
  lemma OwnApprovalsBuyCalls(c: Config, s0: System, before: seq<Step>, t: TaskId, during: seq<Step>,
                             items: seq<Item>, shown: seq<Interruption>, decode: Decoder, calls: seq<Call>, key: Key)
    requires Starts(s0) && t !in Run(c, s0, before).tasks && |items| == |c.ids|
    requires forall i, j :: 0 <= i < j < |items| && CallId(items[i]) != "" ==> CallId(items[i]) != CallId(items[j])
    requires Present(c, Run(c, s0, before).store)
      || (FromRun(shown, items, c.ids) && forall i :: 0 <= i < |items| ==> CallId(items[i]) !in c.ids)
    ensures var start, now := Run(c, s0, before), Run(c, s0, before + [Spawn(t)] + during);
            t in now.tasks && (now.tasks[t].phase.Invoked? && NoneAppears(c, start.store.Keys, now.store) ==>
              var ds := now.tasks[t].phase.approvals;
              var answers := AnswersOf(items, c.ids, ds, shown);
              var ledger := LedgerOf(MarkersOf(decode, Chosen(answers, items, "approved")));
              && ds == Decisions(c.ids, now.store)
              && (Present(c, start.store) ==>
                    |ds| == |items| && forall k :: 0 <= k < |ds| ==> Has(now.store, c.ids[k], ds[k].status))
              && ReceiptsFor(ledger, calls, key) ==
                 FirstCome(Bought(decode, ItemsWith(items, c.ids, now.store, Approved), key), CallsWith(calls, key)))
  {
    ApprovalsBuyCalls(c, s0, before, t, during, items, shown, decode, calls, key);
    DispatchIsSafe(c, s0, before, t, during);
    var start, now := Run(c, s0, before), Run(c, s0, before + [Spawn(t)] + during);
    if now.tasks[t].phase.Invoked? {
      if Present(c, start.store) {
        forall i | 0 <= i < |items| ensures c.ids[i] in now.store {
          assert c.ids[i] in c.ids;
        }
      }
      AnsweredOwn(items, c.ids, now.store, Approved);
    }
  }

  /** A run none of whose approvals the store holds may be resumed, but no call gets anything. */
  lemma LostRunBuysNothing(items: seq<Item>, ids: seq<Id>, store: Records, shown: seq<Interruption>,
                           decode: Decoder, calls: seq<Call>, key: Key)
    requires |items| == |ids| && FromRun(shown, items, ids) && forall id :: id in ids ==> id !in store
    ensures var answers := AnswersOf(items, ids, Decisions(ids, store), shown);
            var ledger := LedgerOf(MarkersOf(decode, Chosen(answers, items, "approved")));
            ReceiptsFor(ledger, calls, key) == FirstCome([], CallsWith(calls, key))
  {
    AnswersBuyCalls(items, ids, store, shown, decode, calls, key);
    NoneAnswered(items, items, ids, store, Approved);
  }

  // ---- An answer to another request ----

  const TRANSFER := Item(Some("call_1"), None, Some("transfer"), None, Obj(map["amount" := Num(900.0)]))
  const LOOKUP := Item(Some("call_1"), None, Some("lookup"), None, Obj(map["name" := Str("ann")]))
  const TWO_IDS := ["apv_1", "apv_2"]

  /** `OpenAIAgentsBackend.resume` called with two approvals whose requests share a call id, the first
      rejected and the second approved: nothing is rejected, and the call that was refused receives its
      marker. `AgentApp.resume` does not make this call, since it does not dispatch a rejection. */
  lemma RejectedRequestBuysCall(show: Show, decode: Decoder, state: Option<Codec.SdkState>)
    ensures var items := [TRANSFER, LOOKUP];
            var saved := SavedAs(state, IdMapOf(items, TWO_IDS), MetadataOf(items, TWO_IDS));
            var approvals :=
              [ApprovalItem(Text("apv_1"), Text("rejected")), ApprovalItem(Text("apv_2"), Text("approved"))];
            ShownTo(show, saved, []).Some? &&
            var answers := Answers(approvals, ShownTo(show, saved, []).value, IdMapIn(show, saved));
            var ledger := LedgerOf(MarkersOf(decode, Chosen(answers, items, "approved")));
            && Chosen(answers, items, "rejected") == []
            && Granted(ledger, KeyOf("transfer", TRANSFER.args.fields)) == Some(ItemMarker(decode, TRANSFER))
  {
    var items := [TRANSFER, LOOKUP];
    RecordedReadsBack(show, state, items, TWO_IDS);
    var refused := map["apv_1" := NEW_RECORD.(status := Rejected), "apv_2" := NEW_RECORD.(status := Approved)];
    TwoDecisions(refused);
    BothByTheSecond(items, refused);
    var key := KeyOf("transfer", TRANSFER.args.fields);
    AnswersBuyCalls(items, TWO_IDS, refused, RecordedAs(items, TWO_IDS), decode, [], key);
    assert MarkersOf(decode, items)[0] == ItemMarker(decode, TRANSFER);
    PopTakesOldest(LedgerOf(MarkersOf(decode, items)), key, key);
  }

  lemma TwoDecisions(refused: Records)
    requires refused == map["apv_1" := NEW_RECORD.(status := Rejected), "apv_2" := NEW_RECORD.(status := Approved)]
    ensures AsItems(Decisions(TWO_IDS, refused)) ==
            [ApprovalItem(Text("apv_1"), Text("rejected")), ApprovalItem(Text("apv_2"), Text("approved"))]
  {
    assert TWO_IDS[0] == "apv_1" && TWO_IDS[1] == "apv_2";
    DecisionsAt(TWO_IDS, refused);
  }

  lemma BothByTheSecond(items: seq<Item>, refused: Records)
    requires items == [TRANSFER, LOOKUP]
    requires refused == map["apv_1" := NEW_RECORD.(status := Rejected), "apv_2" := NEW_RECORD.(status := Approved)]
    ensures Answered(items, TWO_IDS, refused, Approved) == items && Answered(items, TWO_IDS, refused, Rejected) == []
  {
    assert CallId(TRANSFER) == CallId(LOOKUP) == CallId(items[1]) == "call_1" && TWO_IDS[1] == "apv_2";
    assert LastTwin(items, TWO_IDS, refused, "call_1") == Some(1);
    assert items[..1] == [TRANSFER] && items[..1][..0] == [];
    assert AnsweredIn(items[..1], items, TWO_IDS, refused, Approved) == [TRANSFER];
    assert AnsweredIn(items[..1], items, TWO_IDS, refused, Rejected) == [];
  }

  // ---- The methods chained ----

  /** The interruptions behind a saved run: its id map and its interruption list were recorded for them
      under the run's ids. */
  ghost predicate RecordedFor(show: Show, items: seq<Item>, ids: seq<Id>, saved: SavedRun) {
    && |items| == |ids|
    && IdMapIn(show, saved) == IdMapOf(items, ids) && ShownTo(show, saved, []) == Some(RecordedAs(items, ids))
  }

  /** Exactly the interruptions for which the answer that counts is approval are approved in the SDK and
      have a marker, none is rejected, and `ds` are the current answers. */
  ghost predicate ResumedExactly(items: seq<Item>, ids: seq<Id>, ds: seq<Decision>, decode: Decoder,
                                 result: Option<NativeBackend.Outcome>, ledger: Markers, store: Records) {
    && |items| == |ids| && ds == Decisions(ids, store)
    && result == Some(Ran(Answered(items, ids, store, Approved), []))
    && HoldsMarkersOf(ledger, decode, Answered(items, ids, store, Approved))
  }

  /** For every tool and arguments, the ledger has the markers of these items that ask for it, in order. */
  ghost predicate HoldsMarkersOf(ledger: Markers, decode: Decoder, approved: seq<Item>) {
    forall key :: Unused(ledger, key) == Bought(decode, approved, key)
  }

  lemma LedgerHoldsAll(decode: Decoder, approved: seq<Item>)
    ensures HoldsMarkersOf(LedgerOf(MarkersOf(decode, approved)), decode, approved)
  {
    forall key ensures Unused(LedgerOf(MarkersOf(decode, approved)), key) == Bought(decode, approved, key) {
      LedgerHolds(MarkersOf(decode, approved), key);
    }
  }

  /** `AgentApp.resume` calling `OpenAIAgentsBackend.resume`, in their own form. Without a dispatch, or
      when the saved run does not load, there is no marker; a dispatched run that loads is resumed
      exactly as the people decided, whatever the store has lost, if nothing lost turns up again. */
  method ResumeNatively(host: App.RunHost, me: TaskId, show: Show, decode: Decoder,
                        fromJson: Json -> Codec.Parse<seq<Item>>, saved: SavedRun)
    returns (outcome: App.Outcome, result: Option<NativeBackend.Outcome>, ledger: ApprovalLedger)
    requires host.Valid() && me !in host.tasks
    modifies host, host.store
    ensures host.Valid() && (result.Some? <==> outcome.Dispatched?)
    ensures Evolves(old(host.store.records), host.store.records)
    ensures outcome.Dispatched? ==> KnownCleared(host.config, host.store.records, old(host.store.records.Keys))
    ensures result.None? || !result.value.Ran? ==> ledger.markers == map[]
    ensures outcome.Dispatched? && ListIn(saved).None? ==> result == Some(Raised)
    ensures outcome.Dispatched? && ListIn(saved).Some? ==>
              match Codec.Load(saved.dict, fromJson)
              case Failed(e) => result == Some(NativeBackend.Failed(e))
              case Loaded(items) =>
                RecordedFor(show, items, host.config.ids, saved)
                && NoneAppears(host.config, old(host.store.records.Keys), host.store.records) ==>
                  ResumedExactly(items, host.config.ids, outcome.approvals, decode, result, ledger.markers,
                                 host.store.records)
  {
    ghost var known := host.store.records.Keys;
    outcome := host.Resume(me);
    if !outcome.Dispatched? {
      result := None;
      ledger := new ApprovalLedger();
      return;
    }
    var answer;
    answer, ledger := NativeBackend.Resume(show, decode, fromJson, saved, AsItems(outcome.approvals), []);
    result := Some(answer);
    ghost var loaded := Codec.Load(saved.dict, fromJson);
    if loaded.Loaded? && RecordedFor(show, loaded.state, host.config.ids, saved)
       && NoneAppears(host.config, known, host.store.records) {
      DispatchedExactly(show, loaded.state, host.config, known, saved, decode, host.store.records);
    }
  }

  lemma DispatchedExactly(show: Show, items: seq<Item>, c: Config, known: set<Id>, saved: SavedRun, decode: Decoder,
                          store: Records)
    requires RecordedFor(show, items, c.ids, saved) && KnownCleared(c, store, known) && NoneAppears(c, known, store)
    ensures var ds := Decisions(c.ids, store);
            var answers := Answers(AsItems(ds), ShownTo(show, saved, []).value, IdMapIn(show, saved));
            var approved := Chosen(answers, items, "approved");
            ResumedExactly(items, c.ids, ds, decode, Some(Ran(approved, Chosen(answers, items, "rejected"))),
                           LedgerOf(MarkersOf(decode, approved)), store)
  {
    var shown := RecordedAs(items, c.ids);
    ChosenByAnswer(items, c.ids, store, shown, Approved);
    ChosenByAnswer(items, c.ids, store, shown, Rejected);
    NoneAnswered(items, items, c.ids, store, Rejected);
    LedgerHoldsAll(decode, Answered(items, c.ids, store, Approved));
  }

  /** The interruptions that can be decided at all. */
  function WithCallId(items: seq<Item>): seq<Item> {
    if items == [] then []
    else
      var n := |items| - 1;
      WithCallId(items[..n]) + (if CallId(items[n]) != "" then [items[n]] else [])
  }

  lemma {:induction false} AllApprovedIn(items: seq<Item>, ids: seq<Id>, store: Records, n: nat)
    requires |items| == |ids| && n <= |items| && forall id :: id in ids ==> Has(store, id, Approved)
    ensures AnsweredIn(items[..n], items, ids, store, Approved) == WithCallId(items[..n])
  {
    if n != 0 {
      AllApprovedIn(items, ids, store, n - 1);
      PrefixGrows(items, n - 1);
      var twin := LastTwin(items, ids, store, CallId(items[n - 1]));
      LastTwinIsLast(items, ids, store, CallId(items[n - 1]));
      assert ids[n - 1] in ids;
      assert twin.Some? && ids[twin.value] in ids;
    }
  }

  /** The records that `run` creates have no time limit, so one that has been decided and not rejected is
      approved. */
  lemma RunApprovalsApproved(c: Config, created: Records, now: Records)
    requires forall id :: id in c.ids ==> id in created && created[id] == NEW_RECORD
    requires Evolves(created, now) && KnownCleared(c, now, created.Keys)
    ensures forall id :: id in c.ids ==> Has(now, id, Approved)
  {}

  lemma EvolvesTwice(a: Records, b: Records, c: Records)
    requires Evolves(a, b) && Evolves(b, c)
    ensures Evolves(a, c)
  {}

  /** run up to the point where the interrupted run is stored: its backend state, and the approval ids its
      result shows. */
  method RunAndSave(items: seq<Item>, ids: seq<Id>, store: Store, state: Option<Codec.SdkState>)
    returns (saved: SavedRun, shownIds: seq<Id>)
    requires |items| == |ids| && Distinct(ids)
    requires forall id :: id in ids ==> id != "" && id !in store.records
    modifies store
    ensures saved == SavedAs(state, IdMapOf(items, ids), MetadataOf(items, ids)) && shownIds == ids
    ensures forall id :: id in ids ==> id in store.records && store.records[id] == NEW_RECORD
  {
    var idMap, metadata, shown := RecordInterruptions(items, ids, store);
    forall id | id in ids ensures id in store.records && store.records[id] == NEW_RECORD {
      WithPendingHolds(old(store.records), ids, id);
    }
    saved := SavedAs(state, idMap, metadata);
    forall k | 0 <= k < |ids| ensures shown[k].approvalId == Text(ids[k]) && ids[k] != "" {
      assert ids[k] in ids;
    }
    ShownIdsAre(shown, ids);
    shownIds := ExtractApprovalIds(shown);
  }

  /** run, then any traffic, then resume of the run under the approval ids it showed. A dispatch finds
      every approval of the run approved. If the SDK state comes back from the saved dictionary with the
      same interruptions, exactly those with a call id are approved and have a marker; if it does not come
      back, the dispatch fails without a marker. */
  method RunThenResume(items: seq<Item>, ids: seq<Id>, store: Store, show: Show, decode: Decoder,
                       state: Option<Codec.SdkState>, fromJson: Json -> Codec.Parse<seq<Item>>)
    returns (outcome: App.Outcome, result: Option<NativeBackend.Outcome>, ledger: ApprovalLedger)
    requires |items| == |ids| && Distinct(ids)
    requires forall id :: id in ids ==> id != "" && id !in store.records
    modifies store
    ensures result.None? || !result.value.Ran? ==> ledger.markers == map[]
    ensures outcome.Dispatched? ==> forall id :: id in ids ==> Has(store.records, id, Approved)
    ensures outcome.Dispatched? && !Codec.Resumable(state, fromJson) ==> result.Some? && result.value.Failed?
    ensures outcome.Dispatched? && Codec.Resumable(state, fromJson)
            && fromJson(state.value.toJson.value) == Codec.Gives(items) ==>
              && ResumedExactly(items, ids, outcome.approvals, decode, result, ledger.markers, store.records)
              && result == Some(Ran(WithCallId(items), []))
              && HoldsMarkersOf(ledger.markers, decode, WithCallId(items))
  {
    var saved, shownIds := RunAndSave(items, ids, store, state);
    ghost var created := store.records;
    RecordedReadsBack(show, state, items, ids);
    Codec.SavedThenLoaded(state, Obj(FieldsOf(IdMapOf(items, ids))), Arr(MetadataOf(items, ids)), fromJson);
    var host := new App.RunHost(Config(shownIds, true), store);
    var me: TaskId := 0;
    host.Elapse(me);
    ghost var started := store.records;
    outcome, result, ledger := ResumeNatively(host, me, show, decode, fromJson, saved);
    EvolvesTwice(created, started, store.records);
    if outcome.Dispatched? {
      RunApprovalsApproved(host.config, created, store.records);
      AllApprovedIn(items, ids, store.records, |items|);
      assert items[..|items|] == items;
    }
  }
}
