/** Console metadata redaction over nested dictionaries and lists. */
module Redaction {
  import opened PyValues

  const SENSITIVE := {
    "authorization", "token", "secret", "password", "api_key",
    "x-signature", "x-signature-key", "x-api-key", "x-secret",
    "x-auth-token", "x-webhook-secret", "cookie", "set-cookie",
    "proxy-authorization", "www-authenticate",
    "signature", "key", "private_key", "access_key"}

  const REDACTED := Str("[REDACTED]")

  /** Which keys are sensitive. The console hides a key when its lower-cased form is listed. */
  type Hidden = string -> bool

  function ConsoleHides(lower: string -> string): Hidden {
    (k: string) => lower(k) in SENSITIVE
  }

  /** The nineteen keys, in any letter case. */
  lemma ConsoleKeys(lower: string -> string, k: string)
    ensures var low := lower(k);
            ConsoleHides(lower)(k) <==>
            low == "authorization" || low == "token" || low == "secret" || low == "password" || low == "api_key"
            || low == "x-signature" || low == "x-signature-key" || low == "x-api-key" || low == "x-secret"
            || low == "x-auth-token" || low == "x-webhook-secret" || low == "cookie" || low == "set-cookie"
            || low == "proxy-authorization" || low == "www-authenticate"
            || low == "signature" || low == "key" || low == "private_key" || low == "access_key"
  {}

  /** The redacted form of a value. A list keeps its members as they are unless they are dictionaries,
      so a list inside a list is not looked into. */
  function Redact(hidden: Hidden, v: Json): Json {
    match v
    case Obj(fields) => Obj(map k | k in fields :: if hidden(k) then REDACTED else Redact(hidden, fields[k]))
    case Arr(items) =>
      Arr(seq(|items|, i requires 0 <= i < |items| => if items[i].Obj? then Redact(hidden, items[i]) else items[i]))
    case _ => v
  }

  function EntryOf(hidden: Hidden, k: string, v: Json): Json {
    if hidden(k) then REDACTED else Redact(hidden, v)
  }

  function ItemOf(hidden: Hidden, v: Json): Json {
    if v.Obj? then Redact(hidden, v) else v
  }

  lemma DictByEntry(hidden: Hidden, metadata: map<string, Json>, r: map<string, Json>)
    requires r.Keys == metadata.Keys && forall k :: k in r ==> r[k] == EntryOf(hidden, k, metadata[k])
    ensures Obj(r) == Redact(hidden, Obj(metadata))
  {
    assert r == Redact(hidden, Obj(metadata)).fields;
  }

  lemma ListByItem(hidden: Hidden, items: seq<Json>, r: seq<Json>)
    requires |r| == |items| && forall i :: 0 <= i < |r| ==> r[i] == ItemOf(hidden, items[i])
    ensures Arr(r) == Redact(hidden, Arr(items))
  {
    assert r == Redact(hidden, Arr(items)).items;
  }

  /** `_sanitize_metadata` on a dictionary: fill a result key by key. */
  method SanitizeDict(hidden: Hidden, metadata: map<string, Json>) returns (r: map<string, Json>)
    ensures Obj(r) == Redact(hidden, Obj(metadata))
    decreases Obj(metadata)
  {
    r := map[];
    var todo := metadata.Keys;
    while todo != {}
      invariant todo <= metadata.Keys && r.Keys == metadata.Keys - todo
      invariant forall k :: k in r ==> r[k] == EntryOf(hidden, k, metadata[k])
      decreases |todo|
    {
      var k :| k in todo;
      todo := todo - {k};
      var value := metadata[k];
      assert value < Obj(metadata);
      if hidden(k) {
        r := r[k := REDACTED];
      } else if value.Obj? {
        var inner := SanitizeDict(hidden, value.fields);
        r := r[k := Obj(inner)];
      } else if value.Arr? {
        var items := SanitizeList(hidden, value.items);
        r := r[k := Arr(items)];
      } else {
        r := r[k := value];
      }
    }
    DictByEntry(hidden, metadata, r);
  }

  method SanitizeList(hidden: Hidden, items: seq<Json>) returns (r: seq<Json>)
    ensures Arr(r) == Redact(hidden, Arr(items))
    decreases Arr(items)
  {
    r := [];
    for n := 0 to |items|
      invariant |r| == n
      invariant forall i :: 0 <= i < n ==> r[i] == ItemOf(hidden, items[i])
    {
      assert items[n] < Arr(items);
      if items[n].Obj? {
        var inner := SanitizeDict(hidden, items[n].fields);
        r := r + [Obj(inner)];
      } else {
        r := r + [items[n]];
      }
    }
    ListByItem(hidden, items, r);
  }

  method SanitizeMetadata(lower: string -> string, metadata: Option<map<string, Json>>) returns (r: map<string, Json>)
    ensures Obj(r) == Redact(ConsoleHides(lower), Obj(if metadata.Some? then metadata.value else map[]))
    ensures r.Keys == if metadata.Some? then metadata.value.Keys else {}
    ensures forall k :: k in r && ConsoleHides(lower)(k) ==> r[k] == Str("[REDACTED]")
  {
    if metadata.None? {
      r := map[];
      DictByEntry(ConsoleHides(lower), map[], r);
    } else {
      r := SanitizeDict(ConsoleHides(lower), metadata.value);
    }
  }

  lemma {:induction false} RedactIdempotent(hidden: Hidden, v: Json)
    ensures Redact(hidden, Redact(hidden, v)) == Redact(hidden, v)
  {
    match v
    case Obj(fields) =>
      forall k | k in fields ensures Redact(hidden, Redact(hidden, fields[k])) == Redact(hidden, fields[k]) {
        RedactIdempotent(hidden, fields[k]);
      }
    case Arr(items) =>
      forall i | 0 <= i < |items| ensures Redact(hidden, Redact(hidden, items[i])) == Redact(hidden, items[i]) {
        RedactIdempotent(hidden, items[i]);
      }
      forall i | 0 <= i < |items| && items[i].Obj? ensures Redact(hidden, items[i]).Obj? {}
    case _ =>
  }

  // ---- What survives ----

  datatype PathStep = Key(k: string) | Index(i: nat)

  function At(v: Json, path: seq<PathStep>): Option<Json> {
    if path == [] then Some(v)
    else match path[0]
      case Key(k) => if v.Obj? && k in v.fields then At(v.fields[k], path[1..]) else None
      case Index(i) => if v.Arr? && i < |v.items| then At(v.items[i], path[1..]) else None
  }

  /** What is visible of a value without descending: a leaf itself, a dictionary's keys, a list's length. */
  datatype Outline = Leaf(v: Json) | Dict(keys: set<string>) | List(n: nat)

  function OutlineOf(v: Option<Json>): Option<Outline> {
    match v
    case None => None
    case Some(w) => Some(if w.Obj? then Dict(w.fields.Keys) else if w.Arr? then List(|w.items|) else Leaf(w))
  }

  predicate Visible(hidden: Hidden, path: seq<PathStep>) {
    forall j :: 0 <= j < |path| ==> path[j].Key? ==> !hidden(path[j].k)
  }

  /** Off the sensitive keys nothing moves: along a path without one, every leaf is the leaf it was,
      every dictionary has the keys and every list the length it had, and nothing new appears. */
  lemma {:induction false} VisiblePartKept(hidden: Hidden, v: Json, path: seq<PathStep>)
    requires Visible(hidden, path)
    ensures OutlineOf(At(Redact(hidden, v), path)) == OutlineOf(At(v, path))
    decreases |path|
  {
    var r := Redact(hidden, v);
    if v.Obj? {
      assert r.fields.Keys == v.fields.Keys;
    }
    if path != [] {
      var rest := path[1..];
      assert forall j :: 0 <= j < |rest| ==> rest[j] == path[j + 1];
      if path[0].Key? && v.Obj? && path[0].k in v.fields {
        assert r.fields[path[0].k] == Redact(hidden, v.fields[path[0].k]);
        VisiblePartKept(hidden, v.fields[path[0].k], rest);
      } else if path[0].Index? && v.Arr? && path[0].i < |v.items| {
        assert r.items[path[0].i] == ItemOf(hidden, v.items[path[0].i]);
        VisiblePartKept(hidden, v.items[path[0].i], rest);
      }
    }
  }

  // ---- What is redacted ----

  /** Every sensitive key, at any depth, holds the placeholder. */
  predicate FullyRedacted(hidden: Hidden, v: Json) {
    match v
    case Obj(fields) =>
      forall k :: k in fields ==> if hidden(k) then fields[k] == REDACTED else FullyRedacted(hidden, fields[k])
    case Arr(items) => forall i :: 0 <= i < |items| ==> FullyRedacted(hidden, items[i])
    case _ => true
  }

  /** The lists that sit directly in a list, off the sensitive keys, hold no secret to begin with. */
  predicate InnerListsClean(hidden: Hidden, v: Json) {
    match v
    case Obj(fields) => forall k :: k in fields && !hidden(k) ==> InnerListsClean(hidden, fields[k])
    case Arr(items) =>
      forall i :: 0 <= i < |items| ==>
        if items[i].Arr? then FullyRedacted(hidden, items[i]) else InnerListsClean(hidden, items[i])
    case _ => true
  }

  /** Redaction hides every secret exactly when none sits in a list directly inside a list. */
  lemma {:induction false} FullyRedactedIff(hidden: Hidden, v: Json)
    ensures FullyRedacted(hidden, Redact(hidden, v)) <==> InnerListsClean(hidden, v)
  {
    match v
    case Obj(fields) =>
      var r := Redact(hidden, v).fields;
      forall k | k in fields && !hidden(k)
        ensures FullyRedacted(hidden, r[k]) <==> InnerListsClean(hidden, fields[k])
      {
        FullyRedactedIff(hidden, fields[k]);
      }
    case Arr(items) =>
      var r := Redact(hidden, v).items;
      forall i | 0 <= i < |items|
        ensures FullyRedacted(hidden, r[i]) <==>
                if items[i].Arr? then FullyRedacted(hidden, items[i]) else InnerListsClean(hidden, items[i])
      {
        FullyRedactedIff(hidden, items[i]);
      }
    case _ =>
  }

  /** A secret two lists deep gets through. */
  lemma InnerListLeaks(hidden: Hidden, k: string, t: string, secret: Json)
    requires !hidden(k) && hidden(t) && secret != REDACTED
    ensures var v := Obj(map[k := Arr([Arr([Obj(map[t := secret])])])]);
            Redact(hidden, v) == v && !FullyRedacted(hidden, v)
  {
    var dict := Obj(map[t := secret]);
    var inner := Arr([dict]);
    var list := Arr([inner]);
    assert t in dict.fields && inner.items[0] == dict && list.items[0] == inner;
    assert !FullyRedacted(hidden, inner);
    ListByItem(hidden, [inner], [inner]);
    var v := Obj(map[k := list]);
    assert k in v.fields;
    DictByEntry(hidden, v.fields, v.fields);
  }
}
