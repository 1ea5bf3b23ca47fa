/** The backend state of an interrupted run, as `run` saves it and `resume` reads it back. */
module SavedRuns {
  import opened PyValues
  import opened DecisionMap
  import Codec = RunStateCodec

  /** The dictionary, and the order of the keys of its id map, which Json does not keep. */
  datatype SavedRun = SavedRun(dict: Dict, idOrder: seq<string>)

  /** `str` of anything but a string and None. */
  type Show = Json -> string

  // ---- Writing ----

  /** `approval_id_map[approval_id] = sdk_call_id`, entry by entry. */
  function FieldsOf(idMap: seq<IdEntry>): Dict {
    if idMap == [] then map[]
    else
      var e := idMap[|idMap| - 1];
      FieldsOf(idMap[..|idMap| - 1])[e.approvalId := Str(e.callId)]
  }

  function KeysOf(idMap: seq<IdEntry>): seq<string> {
    seq(|idMap|, k requires 0 <= k < |idMap| => idMap[k].approvalId)
  }

  /** The backend state `run` returns; `state` is None when `result.to_state()` raises. */
  function SavedAs(state: Option<Codec.SdkState>, idMap: seq<IdEntry>, metadata: seq<Json>): SavedRun {
    SavedRun(Codec.Saved(state, Obj(FieldsOf(idMap)), Arr(metadata)), KeysOf(idMap))
  }

  // ---- Reading ----

  function FieldOf(show: Show, d: Dict, k: string): Field {
    if k !in d then Absent
    else match d[k]
      case Null => PyNone
      case Str(s) => Text(s)
      case v => Text(show(v))
  }

  function EntriesIn(show: Show, fields: Dict, order: seq<string>): seq<IdEntry> {
    if order == [] then []
    else
      var n := |order| - 1;
      EntriesIn(show, fields, order[..n])
      + (if order[n] in fields then [IdEntry(order[n], IdText(FieldOf(show, fields, order[n])))] else [])
  }

  /** `backend_state.get("approval_id_map", {})`; anything but a dictionary counts as an empty one. */
  function IdMapIn(show: Show, saved: SavedRun): seq<IdEntry> {
    match Get<string, Json>(saved.dict, "approval_id_map")
    case Some(Obj(fields)) => EntriesIn(show, fields, saved.idOrder)
    case _ => []
  }

  /** `backend_state.get("metadata", {}).get("sdk_interruptions", [])`; None where that raises. */
  function ListIn(saved: SavedRun): Option<Json> {
    match Get<string, Json>(saved.dict, "metadata")
    case None => Some(Arr([]))
    case Some(Obj(fields)) => Some(if "sdk_interruptions" in fields then fields["sdk_interruptions"] else Arr([]))
    case Some(_) => None
  }

  predicate AllDicts(items: seq<Json>) {
    forall k :: 0 <= k < |items| ==> items[k].Obj?
  }

  /** The dictionaries found by iterating over a value; None where it cannot be iterated or yields
      anything else. */
  function DictsIn(v: Json): Option<seq<Json>> {
    match v
    case Arr(items) => if AllDicts(items) then Some(items) else None
    case Obj(fields) => if fields == map[] then Some([]) else None
    case Str(s) => if s == "" then Some([]) else None
    case _ => None
  }

  function InterruptionsOf(show: Show, dicts: seq<Json>): seq<Interruption>
    requires AllDicts(dicts)
  {
    seq(|dicts|, k requires 0 <= k < |dicts| =>
      Interruption(FieldOf(show, dicts[k].fields, "approval_id"), FieldOf(show, dicts[k].fields, "sdk_call_id")))
  }

  /** The interruption list that reaches the decision map: the one passed in unless it is empty, else
      the saved one; None where reading it raises. */
  function ShownTo(show: Show, saved: SavedRun, passed: seq<Interruption>): Option<seq<Interruption>> {
    if passed != [] then Some(passed)
    else
      match ListIn(saved)
      case None => None
      case Some(v) =>
        var dicts := DictsIn(v);
        if dicts.Some? && AllDicts(dicts.value) then Some(InterruptionsOf(show, dicts.value)) else None
  }

  /** `str(d.get(k, ""))`, however the member is given. */
  lemma ReadAsText(show: Show, d: Dict, k: string)
    ensures k !in d ==> IdText(FieldOf(show, d, k)) == ""
    ensures k in d && d[k] == Null ==> IdText(FieldOf(show, d, k)) == "None"
    ensures k in d && d[k].Str? ==> d[k] == Str(IdText(FieldOf(show, d, k)))
    ensures k in d && d[k] != Null && !d[k].Str? ==> IdText(FieldOf(show, d, k)) == show(d[k])
  {}

  /** When a saved interruption list can be read: the metadata, if any, is a dictionary, and the list in it,
      if any, is a list of dictionaries, or empty text, or an empty dictionary. */
  lemma ReadableIff(show: Show, saved: SavedRun)
    ensures ShownTo(show, saved, []).Some? <==>
            ("metadata" in saved.dict ==>
               && saved.dict["metadata"].Obj?
               && var fields := saved.dict["metadata"].fields;
                  ("sdk_interruptions" in fields ==>
                     var v := fields["sdk_interruptions"];
                     || v == Str("") || v == Obj(map[])
                     || (v.Arr? && forall k :: 0 <= k < |v.items| ==> v.items[k].Obj?)))
    ensures forall passed :: passed != [] ==> ShownTo(show, saved, passed) == Some(passed)
  {}

  // ---- Reading what was written ----

  ghost predicate OwnIds(idMap: seq<IdEntry>) {
    forall i, j :: 0 <= i < j < |idMap| ==> idMap[i].approvalId != idMap[j].approvalId
  }

  lemma {:induction false} FieldsHold(idMap: seq<IdEntry>)
    requires OwnIds(idMap)
    ensures forall k :: 0 <= k < |idMap| ==> Get(FieldsOf(idMap), idMap[k].approvalId) == Some(Str(idMap[k].callId))
  {
    if idMap != [] {
      var n := |idMap| - 1;
      FieldsHold(idMap[..n]);
      forall k | 0 <= k < n ensures Get(FieldsOf(idMap), idMap[k].approvalId) == Some(Str(idMap[k].callId)) {
        assert idMap[..n][k] == idMap[k];
      }
    }
  }

  lemma {:induction false} EntriesReadBack(show: Show, fields: Dict, idMap: seq<IdEntry>)
    requires forall k :: 0 <= k < |idMap| ==> Get(fields, idMap[k].approvalId) == Some(Str(idMap[k].callId))
    ensures EntriesIn(show, fields, KeysOf(idMap)) == idMap
  {
    if idMap != [] {
      var n := |idMap| - 1;
      assert KeysOf(idMap)[..n] == KeysOf(idMap[..n]);
      EntriesReadBack(show, fields, idMap[..n]);
      assert Get(fields, idMap[n].approvalId) == Some(Str(idMap[n].callId));
    }
  }

  /** Whatever becomes of the SDK state, the id map and the interruptions come back from the saved
      dictionary as they were written, in order. */
  lemma SavedReadsBack(show: Show, state: Option<Codec.SdkState>, idMap: seq<IdEntry>, metadata: seq<Json>)
    requires OwnIds(idMap) && AllDicts(metadata)
    ensures var saved := SavedAs(state, idMap, metadata);
            && IdMapIn(show, saved) == idMap
            && ShownTo(show, saved, []) == Some(InterruptionsOf(show, metadata))
  {
    FieldsHold(idMap);
    EntriesReadBack(show, FieldsOf(idMap), idMap);
    var saved := SavedAs(state, idMap, metadata);
    assert Get(saved.dict, "approval_id_map") == Some(Obj(FieldsOf(idMap)));
    assert ListIn(saved) == Some(Arr(metadata));
  }
}
