/** Saving an interrupted SDK run and loading it back for resume. */
module RunStateCodec {
  import opened PyValues

  /** Calling an optional method of an SDK object. */
  datatype Attempt = Missing | Raises | Returns(value: Json)

  /** What the serialiser can observe of a RunState; `asDict` is Missing unless it is a dataclass. */
  datatype SdkState = SdkState(toJson: Attempt, toDict: Attempt, asDict: Attempt, repr: string)

  predicate GivesDict(a: Attempt) {
    a.Returns? && a.value.Obj?
  }

  function Tagged(method_: string, value: Json): Dict {
    map["serialization" := Str(method_), "value" := value]
  }

  /** `_serialize_run_state`. */
  function Serialize(state: SdkState): Dict {
    if GivesDict(state.toJson) then Tagged("to_json", state.toJson.value)
    else if GivesDict(state.toDict) then Tagged("to_dict", state.toDict.value)
    else if state.asDict.Returns? then Tagged("dataclass", state.asDict.value)
    else Tagged("repr", Str(state.repr))["_non_resumable" := Bool(true)]
  }

  /** The backend state that `run` saves. `state` is None when `result.to_state()` raises. */
  function Saved(state: Option<SdkState>, idMap: Json, interruptions: Json): Dict {
    match state
    case Some(s) =>
      Serialize(s)["hitl_mode" := Str("native")]["backend" := Str("openai")]["approval_id_map" := idMap]
        ["metadata" := Obj(map["sdk_interruptions" := interruptions])]
    case None =>
      map["hitl_mode" := Str("native"), "backend" := Str("openai"), "approval_id_map" := idMap,
          "metadata" := Obj(map["sdk_interruptions" := interruptions, "resumable" := Bool(false)])]
  }

  /** The state is saved by the first way that works, under its name, and only the last resort is marked as
      not resumable. */
  lemma SerializedBy(state: SdkState)
    ensures var d := Serialize(state);
            var byJson := state.toJson.Returns? && state.toJson.value.Obj?;
            var byDict := state.toDict.Returns? && state.toDict.value.Obj?;
            && d.Keys - {"_non_resumable"} == {"serialization", "value"}
            && ("_non_resumable" in d <==> !byJson && !byDict && !state.asDict.Returns?)
            && (byJson ==> d["serialization"] == Str("to_json") && d["value"] == state.toJson.value)
            && (!byJson && byDict ==> d["serialization"] == Str("to_dict") && d["value"] == state.toDict.value)
            && (!byJson && !byDict && state.asDict.Returns? ==>
                  d["serialization"] == Str("dataclass") && d["value"] == state.asDict.value)
            && ("_non_resumable" in d ==>
                  && d["serialization"] == Str("repr") && d["value"] == Str(state.repr)
                  && d["_non_resumable"] == Bool(true))
  {}

  /** Every saved run says that it is a native one, has its id map and its interruptions, and keeps all that
      the state was serialised to. */
  lemma SavedSays(state: Option<SdkState>, idMap: Json, interruptions: Json)
    ensures var d := Saved(state, idMap, interruptions);
            && Get(d, "hitl_mode") == Some(Str("native")) && Get(d, "backend") == Some(Str("openai"))
            && Get(d, "approval_id_map") == Some(idMap) && "metadata" in d && d["metadata"].Obj?
            && Get(d["metadata"].fields, "sdk_interruptions") == Some(interruptions)
            && Get(d["metadata"].fields, "resumable") == (if state.None? then Some(Bool(false)) else None)
            && (state.None? ==> "serialization" !in d && "value" !in d)
            && (state.Some? ==>
                  forall k :: k in Serialize(state.value) ==> Get(d, k) == Some(Serialize(state.value)[k]))
  {}

  predicate Truthy(v: Json) {
    match v
    case Null => false
    case Bool(b) => b
    case Num(n) => n != 0.0
    case Str(s) => s != ""
    case Arr(items) => items != []
    case Obj(fields) => fields != map[]
  }

  datatype LoadError = NoRunState | DeserializationFailed
  datatype Loaded<+T> = Loaded(state: T) | Failed(error: LoadError)

  /** What `RunState.from_json` makes of a payload: nothing, where the SDK has no such method, where it
      raises or returns None; a state; or a coroutine, with what awaiting it would give. */
  datatype Parse<+T> = NoState | Gives(state: T) | Coroutine(awaited: Option<T>)

  /** `_deserialize_run_state` on the wrapped form. A coroutine is handed to `asyncio.run`, which raises
      when the caller itself runs inside an event loop. */
  function Deserialize<T>(wrapped: Dict, fromJson: Json -> Parse<T>, inLoop: bool): Option<T>
    requires "serialization" in wrapped && "value" in wrapped
  {
    if wrapped["serialization"] == Str("to_json") && wrapped["value"].Obj? then
      match fromJson(wrapped["value"])
      case NoState => None
      case Gives(state) => Some(state)
      case Coroutine(awaited) => if inLoop then None else awaited
    else None
  }

  /** The unwrap, rewrap and deserialise steps of `resume`, up to the point where it either fails or
      goes on to apply decisions and call the runner. `resume` is a coroutine, so there is a loop. */
  function Load<T>(saved: Dict, fromJson: Json -> Parse<T>): Loaded<T> {
    var data := if "value" in saved then saved["value"] else Obj(saved);
    if !Truthy(data) || !data.Obj? then Failed(NoRunState)
    else
      var tag := if "serialization" in saved then saved["serialization"] else Str("unknown");
      var bare: Dict := map["serialization" := tag, "value" := data];
      var wrapped := if "_non_resumable" in saved && Truthy(saved["_non_resumable"])
        then bare["_non_resumable" := Bool(true)] else bare;
      match Deserialize(wrapped, fromJson, true)
      case Some(state) => Loaded(state)
      case None => Failed(DeserializationFailed)
  }

  /** Resume goes on, for any saved dictionary whatever, exactly when it is tagged to_json and its
      payload, the whole dictionary if it has none, is a non-empty dictionary of which from_json makes a
      state without being awaited. */
  lemma LoadSucceedsIff<T>(saved: Dict, fromJson: Json -> Parse<T>)
    ensures var payload := if "value" in saved then saved["value"] else Obj(saved);
            Load(saved, fromJson).Loaded? <==>
              && Get(saved, "serialization") == Some(Str("to_json"))
              && payload.Obj? && payload.fields != map[] && fromJson(payload).Gives?
    ensures var payload := if "value" in saved then saved["value"] else Obj(saved);
            && (Load(saved, fromJson).Loaded? ==> fromJson(payload) == Gives(Load(saved, fromJson).state))
            && (Load(saved, fromJson) == Failed(NoRunState) <==> !payload.Obj? || payload.fields == map[])
  {}

  predicate NonEmptyDict(v: Json) {
    v.Obj? && v.fields != map[]
  }

  /** The SDK serialised the state with to_json, non-trivially, and reads that payload back at once. */
  predicate Resumable<T>(state: Option<SdkState>, fromJson: Json -> Parse<T>) {
    && state.Some? && GivesDict(state.value.toJson) && NonEmptyDict(state.value.toJson.value)
    && fromJson(state.value.toJson.value).Gives?
  }

  /** Round trip: a resumable state saved by `run` comes back as exactly what the SDK makes of its own
      to_json payload. Every other saved shape fails: one whose payload is empty or no dictionary for
      want of a run state, every other, the failed to_state fallback among them, at deserialisation. */
  lemma SavedThenLoaded<T>(state: Option<SdkState>, idMap: Json, interruptions: Json, fromJson: Json -> Parse<T>)
    ensures var r := Load(Saved(state, idMap, interruptions), fromJson);
            && (Resumable(state, fromJson) ==> r == Loaded(fromJson(state.value.toJson.value).state))
            && (!Resumable(state, fromJson) ==> r.Failed?)
            && (r == Failed(NoRunState) <==> state.Some? && !NonEmptyDict(Serialize(state.value)["value"]))
  {
    var saved := Saved(state, idMap, interruptions);
    if state.Some? {
      assert saved["value"] == Serialize(state.value)["value"];
      assert saved["serialization"] == Serialize(state.value)["serialization"];
    } else {
      assert "value" !in saved && "hitl_mode" in saved;
    }
  }

  /** A from_json that is a coroutine function loses every run: what would load outside an event loop
      fails inside the one that `resume` runs in. */
  lemma CoroutineIsLost<T>(state: Option<SdkState>, idMap: Json, interruptions: Json, fromJson: Json -> Parse<T>, t: T)
    requires state.Some? && GivesDict(state.value.toJson) && NonEmptyDict(state.value.toJson.value)
    requires fromJson(state.value.toJson.value) == Coroutine(Some(t))
    ensures Deserialize(Tagged("to_json", state.value.toJson.value), fromJson, false) == Some(t)
    ensures Load(Saved(state, idMap, interruptions), fromJson) == Failed(DeserializationFailed)
  {
    SavedThenLoaded(state, idMap, interruptions, fromJson);
  }
}
