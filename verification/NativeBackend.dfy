/** `OpenAIAgentsBackend.run` and `resume` in native mode: interruptions become approvals, and
    decisions become one-use markers. */
module NativeBackend {
  import opened PyValues
  import opened ApprovalStore
  import opened DecisionMap
  import opened Ledger
  import opened SavedRuns

  /** An SDK interruption. */
  datatype Item = Item(
    callId: Option<string>,
    lookupKey: Option<string>,
    toolName: Option<string>,
    name: Option<string>,
    args: Json)

  /** `_sdk_interruption_call_id`: an empty call id falls back to the lookup key. */
  function CallId(item: Item): (id: string)
    ensures id == "" <==> item.callId in {None, Some("")} && item.lookupKey in {None, Some("")}
    ensures item.callId !in {None, Some("")} ==> Some(id) == item.callId
    ensures item.callId in {None, Some("")} && id != "" ==> Some(id) == item.lookupKey
  {
    if item.callId.Some? && item.callId.value != "" then item.callId.value
    else if item.lookupKey.Some? then item.lookupKey.value
    else ""
  }

  /** The tool an interruption asks for: `tool_name`, else `name`, else a fixed word. */
  function ToolName(item: Item): (t: string)
    ensures item.toolName.Some? ==> Some(t) == item.toolName
    ensures item.toolName.None? && item.name.Some? ==> Some(t) == item.name
    ensures item.toolName.None? && item.name.None? ==> t == "unknown"
  {
    match item.toolName
    case Some(t) => t
    case None => if item.name.Some? then item.name.value else "unknown"
  }

  // ---- run ----

  /** What `run` records for each interruption, in order. */
  function IdMapOf(items: seq<Item>, ids: seq<Id>): (m: seq<IdEntry>)
    requires |items| == |ids|
  {
    if items == [] then []
    else
      var n := |items| - 1;
      IdMapOf(items[..n], ids[..n]) + (if CallId(items[n]) != "" then [IdEntry(ids[n], CallId(items[n]))] else [])
  }

  /** The saved metadata, which keeps an empty call id as it is. */
  function MetadataOf(items: seq<Item>, ids: seq<Id>): seq<Json>
    requires |items| == |ids|
  {
    seq(|items|, k requires 0 <= k < |items| => MetadataEntry(ids[k], CallId(items[k]), ToolName(items[k])))
  }

  function MetadataEntry(id: Id, callId: string, tool: string): Json {
    Obj(map["approval_id" := Str(id), "sdk_call_id" := Str(callId), "tool_name" := Str(tool)])
  }

  /** The interruptions shown to people store an empty call id as None. */
  function ShownOf(items: seq<Item>, ids: seq<Id>): seq<Interruption>
    requires |items| == |ids|
  {
    seq(|items|, k requires 0 <= k < |items| =>
      Interruption(Text(ids[k]), if CallId(items[k]) != "" then Text(CallId(items[k])) else PyNone))
  }

  ghost predicate Distinct(ids: seq<Id>) {
    forall i, j :: 0 <= i < j < |ids| ==> ids[i] != ids[j]
  }

  function WithPending(records: Records, ids: seq<Id>): Records {
    if ids == [] then records
    else WithPending(records, ids[..|ids| - 1])[ids[|ids| - 1] := NEW_RECORD]
  }

  /** Every id of the run is in the store, pending; nothing else changed. */
  lemma {:induction false} WithPendingHolds(records: Records, ids: seq<Id>, id: Id)
    ensures Get(WithPending(records, ids), id) == if id in ids then Some(NEW_RECORD) else Get(records, id)
  {
    if ids != [] {
      WithPendingHolds(records, ids[..|ids| - 1], id);
    }
  }

  lemma PrefixGrows<T>(s: seq<T>, n: nat)
    requires n < |s|
    ensures s[..n + 1] == s[..n] + [s[n]] && s[..n + 1][..n] == s[..n]
  {}

  lemma IdMapSnoc(items: seq<Item>, ids: seq<Id>, n: nat)
    requires |items| == |ids| && n < |items|
    ensures IdMapOf(items[..n + 1], ids[..n + 1]) ==
            IdMapOf(items[..n], ids[..n]) + (if CallId(items[n]) != "" then [IdEntry(ids[n], CallId(items[n]))] else [])
  {
    PrefixGrows(items, n);
    PrefixGrows(ids, n);
  }

  /** Each interruption is saved with its approval id, its call id, empty or not, and its tool. */
  ghost predicate MetadataNames(metadata: seq<Json>, items: seq<Item>, ids: seq<Id>)
    requires |items| == |ids|
  {
    |metadata| == |items|
    && forall k :: 0 <= k < |items| ==>
         metadata[k] == Obj(map["approval_id" := Str(ids[k]), "sdk_call_id" := Str(CallId(items[k])),
                                "tool_name" := Str(ToolName(items[k]))])
  }

  /** Each interruption is shown with its approval id and its call id, None exactly when that is empty. */
  ghost predicate ShownNames(shown: seq<Interruption>, items: seq<Item>, ids: seq<Id>)
    requires |items| == |ids|
  {
    |shown| == |items|
    && forall k :: 0 <= k < |items| ==>
         && shown[k].approvalId == Text(ids[k])
         && (CallId(items[k]) != "" ==> shown[k].sdkCallId == Text(CallId(items[k])))
         && (CallId(items[k]) == "" ==> shown[k].sdkCallId == PyNone)
  }

  lemma RecordedNames(items: seq<Item>, ids: seq<Id>)
    requires |items| == |ids|
    ensures MetadataNames(MetadataOf(items, ids), items, ids) && ShownNames(ShownOf(items, ids), items, ids)
  {}

  /** Every id has a pending record without a time limit, and nothing else changed. */
  ghost predicate OnlyAdds(before: Records, after: Records, ids: seq<Id>) {
    && (forall id :: id in ids ==> id in after && after[id].status.Pending? && after[id].expiresAt.None?)
    && forall id :: id !in ids ==> Get(after, id) == Get(before, id)
  }

  lemma PendingAdded(records: Records, ids: seq<Id>)
    ensures OnlyAdds(records, WithPending(records, ids), ids)
  {
    forall id
      ensures Get(WithPending(records, ids), id) == if id in ids then Some(NEW_RECORD) else Get(records, id)
    {
      WithPendingHolds(records, ids, id);
    }
    forall id | id in ids ensures id in WithPending(records, ids) && WithPending(records, ids)[id] == NEW_RECORD {
      assert Get(WithPending(records, ids), id) == Some(NEW_RECORD);
    }
  }

  /** The interruption loop of `run`: one fresh approval per interruption. `ids` are the random ids
      the loop draws. Afterwards every approval of the run is in the store, pending. */
  method RecordInterruptions(items: seq<Item>, ids: seq<Id>, store: Store)
    returns (idMap: seq<IdEntry>, metadata: seq<Json>, shown: seq<Interruption>)
    requires |items| == |ids| && Distinct(ids)
    requires forall id :: id in ids ==> id !in store.records
    modifies store
    ensures idMap == IdMapOf(items, ids) && metadata == MetadataOf(items, ids) && shown == ShownOf(items, ids)
    ensures MetadataNames(metadata, items, ids) && ShownNames(shown, items, ids)
    ensures store.records == WithPending(old(store.records), ids)
    ensures OnlyAdds(old(store.records), store.records, ids)
  {
    idMap, metadata, shown := [], [], [];
    var n := 0;
    while n < |items|
      invariant n <= |items|
      invariant idMap == IdMapOf(items[..n], ids[..n])
      invariant metadata == MetadataOf(items, ids)[..n] && shown == ShownOf(items, ids)[..n]
      invariant store.records == WithPending(old(store.records), ids[..n])
    {
      var callId := CallId(items[n]);
      WithPendingHolds(old(store.records), ids[..n], ids[n]);
      var created := store.Create(ids[n], NEW_RECORD);
      IdMapSnoc(items, ids, n);
      PrefixGrows(ids, n);
      PrefixGrows(MetadataOf(items, ids), n);
      PrefixGrows(ShownOf(items, ids), n);
      if callId != "" {
        idMap := idMap + [IdEntry(ids[n], callId)];
      }
      metadata := metadata + [MetadataEntry(ids[n], callId, ToolName(items[n]))];
      shown := shown + [Interruption(Text(ids[n]), if callId != "" then Text(callId) else PyNone)];
      n := n + 1;
    }
    assert items[..n] == items && ids[..n] == ids;
    assert metadata == MetadataOf(items, ids) && shown == ShownOf(items, ids);
    RecordedNames(items, ids);
    PendingAdded(old(store.records), ids);
  }

  /** The approval ids that a result shows, missing and empty ones left out. */
  function ShownIds(shown: seq<Interruption>): seq<Id> {
    if shown == [] then []
    else
      var n := |shown| - 1;
      ShownIds(shown[..n]) +
      match shown[n].approvalId
      case Text(id) => if id != "" then [id] else []
      case _ => []
  }

  /** `_extract_approval_ids`: the ids under which the interrupted run is stored. */
  method ExtractApprovalIds(shown: seq<Interruption>) returns (ids: seq<Id>)
    ensures ids == ShownIds(shown)
  {
    ids := [];
    for n := 0 to |shown|
      invariant ids == ShownIds(shown[..n])
    {
      PrefixGrows(shown, n);
      var id := shown[n].approvalId;
      if id.Text? && id.text != "" {
        ids := ids + [id.text];
      }
    }
    assert shown[..|shown|] == shown;
  }

  /** An id is collected exactly when it is not empty and some interruption shows it. */
  lemma {:induction false} ShownIdsIff(shown: seq<Interruption>, id: Id)
    ensures id in ShownIds(shown) <==> id != "" && exists k :: 0 <= k < |shown| && shown[k].approvalId == Text(id)
  {
    if shown != [] {
      var n := |shown| - 1;
      ShownIdsIff(shown[..n], id);
      if k :| 0 <= k < n && shown[k].approvalId == Text(id) {
        assert shown[..n][k].approvalId == Text(id);
      }
      if k :| 0 <= k < n && shown[..n][k].approvalId == Text(id) {
        assert shown[k].approvalId == Text(id);
      }
      assert shown[n].approvalId == Text(id) || shown[n].approvalId != Text(id);
    }
  }

  /** Where every interruption shows an approval id, the run is stored under those ids in that order. */
  lemma {:induction false} ShownIdsAre(shown: seq<Interruption>, ids: seq<Id>)
    requires |shown| == |ids| && forall k :: 0 <= k < |ids| ==> shown[k].approvalId == Text(ids[k]) && ids[k] != ""
    ensures ShownIds(shown) == ids
  {
    if shown != [] {
      var n := |ids| - 1;
      ShownIdsAre(shown[..n], ids[..n]);
      assert shown[n].approvalId == Text(ids[n]);
    }
  }

  lemma {:induction false} IdMapHasOwnIds(items: seq<Item>, ids: seq<Id>)
    requires |items| == |ids| && Distinct(ids)
    ensures OwnIds(IdMapOf(items, ids)) && forall e :: e in IdMapOf(items, ids) ==> e.approvalId in ids
  {
    if items != [] {
      var n := |items| - 1;
      IdMapHasOwnIds(items[..n], ids[..n]);
      var front := IdMapOf(items[..n], ids[..n]);
      forall i | 0 <= i < |front| ensures front[i].approvalId != ids[n] {
        assert front[i] in front;
      }
    }
  }

  /** The interruptions as `resume` sees them. */
  function RecordedAs(items: seq<Item>, ids: seq<Id>): seq<Interruption>
    requires |items| == |ids|
  {
    seq(|items|, k requires 0 <= k < |items| => Interruption(Text(ids[k]), Text(CallId(items[k]))))
  }

  lemma MetadataReadsBack(show: Show, items: seq<Item>, ids: seq<Id>)
    requires |items| == |ids|
    ensures AllDicts(MetadataOf(items, ids)) && InterruptionsOf(show, MetadataOf(items, ids)) == RecordedAs(items, ids)
  {
    var dicts := MetadataOf(items, ids);
    forall k | 0 <= k < |items|
      ensures dicts[k].Obj? && FieldOf(show, dicts[k].fields, "approval_id") == Text(ids[k])
      ensures FieldOf(show, dicts[k].fields, "sdk_call_id") == Text(CallId(items[k]))
    {}
  }

  /** What `run` saves about its interruptions is what `resume` reads: the id map entry by entry, and each
      interruption with its approval id and call id. */
  lemma RecordedReadsBack(show: Show, state: Option<Codec.SdkState>, items: seq<Item>, ids: seq<Id>)
    requires |items| == |ids| && Distinct(ids)
    ensures var saved := SavedAs(state, IdMapOf(items, ids), MetadataOf(items, ids));
            && IdMapIn(show, saved) == IdMapOf(items, ids)
            && ShownTo(show, saved, []) == Some(RecordedAs(items, ids))
  {
    IdMapHasOwnIds(items, ids);
    MetadataReadsBack(show, items, ids);
    SavedReadsBack(show, state, IdMapOf(items, ids), MetadataOf(items, ids));
  }

  // ---- resume ----

  datatype Answers = Answers(approvals: seq<ApprovalItem>, interruptions: seq<Interruption>, idMap: seq<IdEntry>)

  function VerdictOn(answers: Answers, item: Item): string {
    var d := Decide(answers.approvals, answers.interruptions, answers.idMap, CallId(item));
    if d.Some? then d.value else "pending"
  }

  function Chosen(answers: Answers, items: seq<Item>, verdict: string): seq<Item> {
    if items == [] then []
    else
      var n := |items| - 1;
      Chosen(answers, items[..n], verdict) + (if VerdictOn(answers, items[n]) == verdict then [items[n]] else [])
  }

  function ItemMarker(decode: Decoder, item: Item): (m: Marker)
    ensures m.callId.Some? <==> CallId(item) != ""
    ensures m.callId.Some? ==> m.callId.value == CallId(item)
  {
    Marker(ToolName(item), Normalize(decode, item.args), if CallId(item) != "" then Some(CallId(item)) else None)
  }

  function MarkersOf(decode: Decoder, items: seq<Item>): seq<Marker> {
    seq(|items|, k requires 0 <= k < |items| => ItemMarker(decode, items[k]))
  }

  function LedgerOf(ms: seq<Marker>): Markers {
    if ms == [] then map[] else Appended(LedgerOf(ms[..|ms| - 1]), ms[|ms| - 1])
  }

  /** Raised where the saved interruption list cannot be read. */
  datatype Outcome = Failed(error: Codec.LoadError) | Raised | Ran(approved: seq<Item>, rejected: seq<Item>)

  lemma ChosenSnoc(answers: Answers, items: seq<Item>, verdict: string, n: nat)
    requires n < |items|
    ensures Chosen(answers, items[..n + 1], verdict) ==
            Chosen(answers, items[..n], verdict) + (if VerdictOn(answers, items[n]) == verdict then [items[n]] else [])
  {
    PrefixGrows(items, n);
  }

  /** The chosen items are those with the verdict, each at the place that the number before it gives. */
  lemma {:induction false} ChosenPositions(answers: Answers, items: seq<Item>, verdict: string, i: nat)
    requires i < |items|
    ensures var k := |Chosen(answers, items[..i], verdict)|;
            if VerdictOn(answers, items[i]) == verdict
            then k < |Chosen(answers, items, verdict)| && Chosen(answers, items, verdict)[k] == items[i]
                 && |Chosen(answers, items[..i + 1], verdict)| == k + 1
            else |Chosen(answers, items[..i + 1], verdict)| == k
    decreases |items|
  {
    ChosenSnoc(answers, items, verdict, i);
    var front := items[..|items| - 1];
    if i < |front| {
      ChosenPositions(answers, front, verdict, i);
      assert front[..i] == items[..i];
    } else {
      assert items[..i] == front && items[..i + 1] == items;
    }
  }

  lemma LedgerSnoc(decode: Decoder, items: seq<Item>, item: Item)
    ensures LedgerOf(MarkersOf(decode, items + [item])) ==
            Appended(LedgerOf(MarkersOf(decode, items)), ItemMarker(decode, item))
  {
    var ms := MarkersOf(decode, items + [item]);
    assert ms[..|items|] == MarkersOf(decode, items);
  }

  /** The decision loop of `resume`. */
  method ApplyDecisions(decode: Decoder, items: seq<Item>, answers: Answers, ledger: ApprovalLedger)
    returns (approved: seq<Item>, rejected: seq<Item>)
    requires ledger.markers == map[]
    modifies ledger
    ensures approved == Chosen(answers, items, "approved") && rejected == Chosen(answers, items, "rejected")
    ensures ledger.markers == LedgerOf(MarkersOf(decode, approved))
  {
    var decisions := BuildSdkDecisionMap(answers.approvals, answers.interruptions, answers.idMap);
    approved, rejected := [], [];
    var n := 0;
    while n < |items|
      invariant n <= |items|
      invariant approved == Chosen(answers, items[..n], "approved")
      invariant rejected == Chosen(answers, items[..n], "rejected")
      invariant ledger.markers == LedgerOf(MarkersOf(decode, approved))
    {
      var item := items[n];
      ChosenSnoc(answers, items, "approved", n);
      ChosenSnoc(answers, items, "rejected", n);
      assert Get(decisions, CallId(item)) ==
             Decide(answers.approvals, answers.interruptions, answers.idMap, CallId(item));
      var decision := if CallId(item) in decisions then decisions[CallId(item)] else "pending";
      assert decision == VerdictOn(answers, item);
      if decision == "approved" {
        LedgerSnoc(decode, approved, item);
        approved := approved + [item];
        ledger.Append(ItemMarker(decode, item));
      } else if decision == "rejected" {
        rejected := rejected + [item];
      }
      n := n + 1;
    }
    assert items[..n] == items;
  }

  /** `resume`, up to the call of the runner; `passed` are the interruptions the caller supplies, if
      any. A run that does not get that far makes no marker. */
  method Resume(show: Show, decode: Decoder, fromJson: Json -> Codec.Parse<seq<Item>>, saved: SavedRun,
                approvals: seq<ApprovalItem>, passed: seq<Interruption>)
    returns (outcome: Outcome, ledger: ApprovalLedger)
    ensures fresh(ledger)
    ensures !outcome.Ran? ==> ledger.markers == map[]
    ensures passed == [] && ListIn(saved).None? ==> outcome == Raised
    ensures passed != [] || ListIn(saved).Some? ==>
              match Codec.Load(saved.dict, fromJson)
              case Failed(e) => outcome == Failed(e)
              case Loaded(items) =>
                match ShownTo(show, saved, passed)
                case None => outcome == Raised
                case Some(shown) =>
                  var answers := Answers(approvals, shown, IdMapIn(show, saved));
                  && outcome == Ran(Chosen(answers, items, "approved"), Chosen(answers, items, "rejected"))
                  && ledger.markers == LedgerOf(MarkersOf(decode, outcome.approved))
  {
    ledger := new ApprovalLedger();
    if passed == [] && ListIn(saved).None? {
      return Raised, ledger;
    }
    var loaded := Codec.Load(saved.dict, fromJson);
    if loaded.Failed? {
      return Failed(loaded.error), ledger;
    }
    var shown := ShownTo(show, saved, passed);
    if shown.None? {
      return Raised, ledger;
    }
    var answers := Answers(approvals, shown.value, IdMapIn(show, saved));
    var approved, rejected := ApplyDecisions(decode, loaded.state, answers, ledger);
    outcome := Ran(approved, rejected);
  }
}
