/** The approval markers of one resumed run, shared by all tool wrappers: each approved interruption
    buys one call of the same tool with the same arguments. */
module Ledger {
  import opened PyValues

  /** `json.loads`, abstract: None where it raises. */
  type Decoder = string -> Option<Json>

  /** `_normalize_tool_arguments`: a dictionary, however the SDK hands the arguments over. */
  function Normalize(decode: Decoder, raw: Json): Dict {
    match raw
    case Obj(fields) => fields
    case Str(s) => NormalizeText(decode, s)
    case Null => map[]
    case _ => map["_raw" := raw]
  }

  function NormalizeText(decode: Decoder, s: string): Dict {
    match decode(s)
    case None => map["_raw" := Str(s)]
    case Some(Obj(fields)) => fields
    case Some(v) => map["_raw" := v]
  }

  /** What an argument value stands for: JSON text for what it decodes to, None for no arguments. */
  function Meaning(decode: Decoder, v: Json): Json {
    if v.Null? then Obj(map[])
    else if v.Str? && decode(v.s).Some? then decode(v.s).value
    else v
  }

  predicate Wraps(a: Json, b: Json) {
    !b.Obj? && a == Obj(map["_raw" := b])
  }

  /** Two argument values count as the same call exactly when they mean the same, or one is spelled as
      the dictionary that wraps the other. */
  lemma SameArgumentsIff(decode: Decoder, v: Json, w: Json)
    ensures Normalize(decode, v) == Normalize(decode, w) <==>
            var a, b := Meaning(decode, v), Meaning(decode, w);
            a == b || Wraps(a, b) || Wraps(b, a)
  {
    var a, b := Meaning(decode, v), Meaning(decode, w);
    assert Normalize(decode, v) == if a.Obj? then a.fields else map["_raw" := a];
    assert Normalize(decode, w) == if b.Obj? then b.fields else map["_raw" := b];
    assert !a.Obj? && !b.Obj? && a != b ==> map["_raw" := a]["_raw"] != map["_raw" := b]["_raw"];
  }

  datatype Marker = Marker(tool: string, args: Dict, callId: Option<string>)

  /** What a marker stands for: a tool and its arguments up to Python equality. */
  datatype Key = Key(tool: string, args: Json)

  function KeyOf(tool: string, args: Dict): Key {
    Key(tool, Canon(Obj(args)))
  }

  /** Calls of one tool with equal arguments have one key, and no others do. */
  lemma SameKeyIff(tool: string, args: Dict, tool': string, args': Dict)
    ensures KeyOf(tool, args) == KeyOf(tool', args') <==> tool == tool' && PyEq(Obj(args), Obj(args'))
  {
    CanonIffPyEq(Obj(args), Obj(args'));
  }

  function MarkerKey(m: Marker): Key {
    KeyOf(m.tool, m.args)
  }

  type Markers = map<string, seq<Marker>>

  /** Markers are filed under their own tool name. */
  ghost predicate Filed(ledger: Markers) {
    forall tool, m :: tool in ledger && m in ledger[tool] ==> m.tool == tool
  }

  function Filter(ms: seq<Marker>, key: Key): seq<Marker> {
    if ms == [] then []
    else (if MarkerKey(ms[0]) == key then [ms[0]] else []) + Filter(ms[1..], key)
  }

  /** The unused markers for a key, oldest first. */
  function Unused(ledger: Markers, key: Key): seq<Marker> {
    if key.tool in ledger then Filter(ledger[key.tool], key) else []
  }

  /** Position of the first marker that matches, or the length. */
  function FirstMatch(ms: seq<Marker>, key: Key): (n: nat)
    ensures n <= |ms|
    ensures n < |ms| ==> MarkerKey(ms[n]) == key
    ensures forall j :: 0 <= j < n ==> MarkerKey(ms[j]) != key
  {
    if ms == [] || MarkerKey(ms[0]) == key then 0 else 1 + FirstMatch(ms[1..], key)
  }

  function Without(ms: seq<Marker>, n: nat): seq<Marker>
    requires n < |ms|
  {
    ms[..n] + ms[n + 1..]
  }

  function Granted(ledger: Markers, key: Key): Option<Marker> {
    if key.tool in ledger then
      var n := FirstMatch(ledger[key.tool], key);
      if n < |ledger[key.tool]| then Some(ledger[key.tool][n]) else None
    else None
  }

  function AfterPop(ledger: Markers, key: Key): Markers {
    if key.tool in ledger then
      var ms := ledger[key.tool];
      var n := FirstMatch(ms, key);
      if n < |ms| then ledger[key.tool := Without(ms, n)] else ledger
    else ledger
  }

  /** `_is_tool_call_approval_marker_valid` for markers that carry the process-wide token, which every
      marker made by `_make_native_hitl_approval_marker` does. */
  predicate AcceptedByExecutor(m: Marker, tool: string, args: Dict) {
    m.tool == tool && PyEq(Obj(m.args), Obj(args))
  }

  class ApprovalLedger {
    var markers: Markers

    constructor ()
      ensures markers == map[] && Filed(markers)
    {
      markers := map[];
    }

    /** `approval_markers.setdefault(tool, []).append(marker)`. */
    method Append(m: Marker)
      modifies this
      ensures markers == Appended(old(markers), m)
    {
      if m.tool !in markers {
        markers := markers[m.tool := []];
      }
      markers := markers[m.tool := markers[m.tool] + [m]];
    }

    /** `_pop_approval_marker`: consume the first marker for this call, in place. */
    method Pop(tool: string, args: Dict) returns (r: Option<Marker>)
      requires Filed(markers)
      modifies this
      ensures Filed(markers)
      ensures r == Granted(old(markers), KeyOf(tool, args))
      ensures markers == AfterPop(old(markers), KeyOf(tool, args))
      ensures r.Some? ==> AcceptedByExecutor(r.value, tool, args)
      ensures r.Some? && BoolFree(Obj(args)) && BoolFree(Obj(r.value.args)) ==> r.value.args == args
    {
      if tool !in markers {
        return None;
      }
      var ms := markers[tool];
      var index := 0;
      while index < |ms|
        invariant index <= |ms|
        invariant forall j :: 0 <= j < index ==> MarkerKey(ms[j]) != KeyOf(tool, args)
      {
        assert ms[index] in ms;
        assert MarkerKey(ms[index]) == KeyOf(tool, args) <==> PyEq(Obj(ms[index].args), Obj(args)) by {
          SameKeyIff(tool, ms[index].args, tool, args);
        }
        if PyEq(Obj(ms[index].args), Obj(args)) {
          markers := markers[tool := Without(ms, index)];
          if BoolFree(Obj(args)) && BoolFree(Obj(ms[index].args)) {
            PyEqExact(Obj(ms[index].args), Obj(args));
          }
          return Some(ms[index]);
        }
        index := index + 1;
      }
      r := None;
    }
  }

  function Appended(ledger: Markers, m: Marker): Markers {
    ledger[m.tool := (if m.tool in ledger then ledger[m.tool] else []) + [m]]
  }

  // ---- One call ----

  lemma {:induction false} FilterConcat(a: seq<Marker>, b: seq<Marker>, key: Key)
    ensures Filter(a + b, key) == Filter(a, key) + Filter(b, key)
    decreases |a|
  {
    if a == [] {
      assert a + b == b;
    } else {
      assert (a + b)[1..] == a[1..] + b;
      FilterConcat(a[1..], b, key);
    }
  }

  lemma {:induction false} FilterNone(ms: seq<Marker>, key: Key)
    requires forall j :: 0 <= j < |ms| ==> MarkerKey(ms[j]) != key
    ensures Filter(ms, key) == []
  {
    if ms != [] {
      FilterNone(ms[1..], key);
    }
  }

  lemma FilterSplit(ms: seq<Marker>, n: nat, key: Key)
    requires n < |ms|
    ensures Filter(ms, key) == Filter(ms[..n], key) + Filter([ms[n]], key) + Filter(ms[n + 1..], key)
    ensures Filter(Without(ms, n), key) == Filter(ms[..n], key) + Filter(ms[n + 1..], key)
  {
    assert ms == ms[..n] + [ms[n]] + ms[n + 1..];
    FilterConcat(ms[..n] + [ms[n]], ms[n + 1..], key);
    FilterConcat(ms[..n], [ms[n]], key);
    FilterConcat(ms[..n], ms[n + 1..], key);
  }

  /** A call takes the oldest unused marker of its key, if there is one, and leaves every other key's
      markers and their order alone. */
  lemma PopTakesOldest(ledger: Markers, key: Key, other: Key)
    ensures Granted(ledger, key) ==
            (if Unused(ledger, key) == [] then None else Some(Unused(ledger, key)[0]))
    ensures Unused(AfterPop(ledger, key), key) ==
            (if Unused(ledger, key) == [] then [] else Unused(ledger, key)[1..])
    ensures other != key ==> Unused(AfterPop(ledger, key), other) == Unused(ledger, other)
  {
    if key.tool in ledger {
      var ms := ledger[key.tool];
      var n := FirstMatch(ms, key);
      FilterNone(ms[..n], key);
      if n < |ms| {
        FilterSplit(ms, n, key);
        FilterSplit(ms, n, other);
        assert Filter([ms[n]], key) == [ms[n]];
        assert other != key ==> Filter([ms[n]], other) == [];
      } else {
        assert ms[..n] == ms;
      }
    }
  }

  // ---- Any sequence of calls ----

  datatype Call = Call(tool: string, args: Dict)

  function CallKey(call: Call): Key {
    KeyOf(call.tool, call.args)
  }

  function AfterCalls(ledger: Markers, calls: seq<Call>): Markers {
    if calls == [] then ledger else AfterCalls(AfterPop(ledger, CallKey(calls[0])), calls[1..])
  }

  /** What each call received, in call order. */
  function Receipts(ledger: Markers, calls: seq<Call>): (rs: seq<Option<Marker>>)
    ensures |rs| == |calls|
  {
    if calls == [] then []
    else [Granted(ledger, CallKey(calls[0]))] + Receipts(AfterPop(ledger, CallKey(calls[0])), calls[1..])
  }

  /** What the calls with one key received, in call order. */
  function ReceiptsFor(ledger: Markers, calls: seq<Call>, key: Key): seq<Option<Marker>> {
    if calls == [] then []
    else (if CallKey(calls[0]) == key then [Receipts(ledger, calls)[0]] else [])
         + ReceiptsFor(AfterPop(ledger, CallKey(calls[0])), calls[1..], key)
  }

  function CallsWith(calls: seq<Call>, key: Key): nat {
    if calls == [] then 0 else (if CallKey(calls[0]) == key then 1 else 0) + CallsWith(calls[1..], key)
  }

  /** Markers given out in order, then nothing. */
  function FirstCome(markers: seq<Marker>, n: nat): seq<Option<Marker>> {
    seq(n, k requires 0 <= k < n => if k < |markers| then Some(markers[k]) else None)
  }

  lemma FirstComeStep(markers: seq<Marker>, n: nat)
    requires n > 0
    ensures FirstCome(markers, n) ==
            if markers == [] then [None] + FirstCome([], n - 1) else [Some(markers[0])] + FirstCome(markers[1..], n - 1)
  {}

  /** First come, first served, per key: whatever the order in which calls of different tools and
      arguments are interleaved, the calls with one key receive that key's markers oldest first until
      they run out, and what is left is the rest of them in the same order. */
  lemma {:induction false} FirstComeFirstServed(ledger: Markers, calls: seq<Call>, key: Key)
    ensures ReceiptsFor(ledger, calls, key) == FirstCome(Unused(ledger, key), CallsWith(calls, key))
    ensures Unused(AfterCalls(ledger, calls), key) ==
            Unused(ledger, key)[Min(CallsWith(calls, key), |Unused(ledger, key)|)..]
    decreases |calls|
  {
    if calls != [] {
      var next := AfterPop(ledger, CallKey(calls[0]));
      PopTakesOldest(ledger, CallKey(calls[0]), key);
      FirstComeFirstServed(next, calls[1..], key);
      if CallKey(calls[0]) == key {
        FirstComeStep(Unused(ledger, key), CallsWith(calls, key));
      }
    }
  }

  // ---- Conservation ----

  function GrantedMarkers(rs: seq<Option<Marker>>): multiset<Marker> {
    if rs == [] then multiset{}
    else (if rs[0].Some? then multiset{rs[0].value} else multiset{}) + GrantedMarkers(rs[1..])
  }

  /** How many unused markers equal to m the ledger holds. */
  function Copies(ledger: Markers, m: Marker): nat {
    if m.tool in ledger then multiset(ledger[m.tool])[m] else 0
  }

  lemma PopConserves(ledger: Markers, key: Key, m: Marker)
    requires Filed(ledger)
    ensures Filed(AfterPop(ledger, key))
    ensures Copies(ledger, m) == Copies(AfterPop(ledger, key), m) + (if Granted(ledger, key) == Some(m) then 1 else 0)
  {
    if key.tool in ledger {
      var ms := ledger[key.tool];
      var n := FirstMatch(ms, key);
      if n < |ms| {
        assert ms == ms[..n] + [ms[n]] + ms[n + 1..];
        assert multiset(ms) == multiset(ms[..n]) + multiset{ms[n]} + multiset(ms[n + 1..]);
        assert multiset(Without(ms, n)) == multiset(ms[..n]) + multiset(ms[n + 1..]);
        assert ms[n] in ms;
      }
    }
  }

  /** No marker is lost, copied or invented: for every marker, copies left plus copies handed out
      equal the copies the ledger started with. */
  lemma {:induction false} CallsConserve(ledger: Markers, calls: seq<Call>, m: Marker)
    requires Filed(ledger)
    ensures Filed(AfterCalls(ledger, calls))
    ensures Copies(ledger, m) == Copies(AfterCalls(ledger, calls), m) + GrantedMarkers(Receipts(ledger, calls))[m]
    decreases |calls|
  {
    if calls != [] {
      PopConserves(ledger, CallKey(calls[0]), m);
      CallsConserve(AfterPop(ledger, CallKey(calls[0])), calls[1..], m);
      assert Receipts(ledger, calls)[1..] == Receipts(AfterPop(ledger, CallKey(calls[0])), calls[1..]);
    }
  }
}
