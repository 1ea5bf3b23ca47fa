/** The top level of the configuration: name-keyed sections become lists, governance sections become
    dictionaries, and duplicate agent names are refused. */
module AppConfig {
  import opened PyValues

  /** A section as YAML gives it: a dictionary keyed by name, in order, or anything else. */
  datatype NamedSection = ByName(entries: seq<(string, Json)>) | AsIs(value: Json)

  type Named = s: NamedSection | s.AsIs? ==> !s.value.Obj? witness AsIs(Null)

  /** The top-level dictionary: the keys that normalisation touches, None where missing, and all others. */
  datatype Top = Top(agents: Option<Named>, tools: Option<Named>, governance: Option<Json>, others: Dict)

  // ---- _normalize_dicts_to_lists ----

  /** `{"name": name, **cfg}`: a name inside the body wins. */
  function Entry(name: string, cfg: Dict): Json {
    Obj(map["name" := Str(name)] + cfg)
  }

  /** Everything the body says, and the key as the name where the body gives none. */
  ghost predicate IsEntry(entry: Json, name: string, body: Json) {
    && entry.Obj? && body.Obj? && entry.fields.Keys == body.fields.Keys + {"name"}
    && (forall k :: k in body.fields ==> entry.fields[k] == body.fields[k])
    && ("name" !in body.fields ==> entry.fields["name"] == Str(name))
  }

  /** None is the TypeError raised for a body that is not a dictionary. */
  function EntryList(entries: seq<(string, Json)>): (r: Option<seq<Json>>)
    ensures r.Some? ==> |r.value| == |entries|
    ensures r.Some? ==> forall i :: 0 <= i < |entries| ==>
              entries[i].1.Obj? && r.value[i] == Entry(entries[i].0, entries[i].1.fields)
    ensures r.Some? ==> forall i :: 0 <= i < |entries| ==> IsEntry(r.value[i], entries[i].0, entries[i].1)
    ensures r.Some? <==> forall i :: 0 <= i < |entries| ==> entries[i].1.Obj?
  {
    if entries == [] then Some([])
    else if !entries[0].1.Obj? then None
    else
      var rest := EntryList(entries[1..]);
      if rest.None? then None else Some([Entry(entries[0].0, entries[0].1.fields)] + rest.value)
  }

  function ListSection(s: Option<Named>): Option<Option<Named>> {
    match s
    case Some(ByName(entries)) =>
      var list := EntryList(entries);
      if list.None? then None else Some(Some(AsIs(Arr(list.value))))
    case _ => Some(s)
  }

  const SECTIONS := {"approvals", "audit", "permissions", "rate_limit", "policies", "policy_decisions",
    "policy_console", "policy_release", "runtime_policies", "policy_observability", "policy_simulation"}

  /** A governance section: a dictionary stays, any other value but None becomes its type; `show` is str(). */
  function SectionOf(show: Json -> string, v: Json): Json {
    if v.Obj? then v else Obj(map["type" := Str(show(v))])
  }

  function KeepSections(show: Json -> string, sections: set<string>, gov: Dict): Dict {
    map k | k in sections && k in gov && !gov[k].Null? :: SectionOf(show, gov[k])
  }

  function Governance(show: Json -> string, gov: Dict): Dict {
    KeepSections(show, SECTIONS, gov)
  }

  /** The governance loop over the known sections. */
  method NormalizeSections(show: Json -> string, sections: set<string>, gov: Dict) returns (r: Dict)
    ensures r == KeepSections(show, sections, gov)
  {
    r := map[];
    var todo := sections;
    while todo != {}
      invariant todo <= sections
      invariant r == KeepSections(show, sections - todo, gov)
      decreases |todo|
    {
      var k :| k in todo;
      todo := todo - {k};
      if k in gov {
        if gov[k].Obj? {
          r := r[k := gov[k]];
        } else if !gov[k].Null? {
          r := r[k := Obj(map["type" := Str(show(gov[k]))])];
        }
      }
    }
  }

  predicate IsSectionName(k: string) {
    k == "approvals" || k == "audit" || k == "permissions" || k == "rate_limit" || k == "policies"
    || k == "policy_decisions" || k == "policy_console" || k == "policy_release" || k == "runtime_policies"
    || k == "policy_observability" || k == "policy_simulation"
  }

  lemma SectionNames()
    ensures forall k :: k in SECTIONS <==> IsSectionName(k)
  {}

  method NormalizeGovernance(show: Json -> string, gov: Dict) returns (r: Dict)
    ensures r == Governance(show, gov)
    ensures forall k :: k in r ==> k in gov && !gov[k].Null?
    ensures forall k :: k in gov && gov[k].Obj? && k in r ==> r[k] == gov[k]
    ensures forall k :: k in gov && !gov[k].Obj? && k in r ==> r[k] == Obj(map["type" := Str(show(gov[k]))])
    ensures forall k :: k in gov && !gov[k].Null? ==> (k in r <==> IsSectionName(k))
  {
    SectionNames();
    r := NormalizeSections(show, SECTIONS, gov);
  }

  function NormalizeTop(show: Json -> string, t: Top): Option<Top> {
    var agents, tools := ListSection(t.agents), ListSection(t.tools);
    if agents.None? || tools.None? then None
    else Some(Top(agents.value, tools.value,
      if t.governance.Some? && t.governance.value.Obj? then Some(Obj(Governance(show, t.governance.value.fields)))
      else t.governance,
      t.others))
  }

  /** A section of agents or tools that was keyed by name is now the list of its entries; any other is as it
      was, and so is a missing one. */
  ghost predicate ListedFrom(before: Option<Named>, after: Option<Named>) {
    if before.Some? && before.value.ByName? then
      var entries := before.value.entries;
      && after.Some? && after.value.AsIs? && after.value.value.Arr?
      && |after.value.value.items| == |entries|
      && forall i :: 0 <= i < |entries| ==> IsEntry(after.value.value.items[i], entries[i].0, entries[i].1)
    else after == before
  }

  ghost predicate BodiesAreDicts(s: Option<Named>) {
    s.Some? && s.value.ByName? ==> forall i :: 0 <= i < |s.value.entries| ==> s.value.entries[i].1.Obj?
  }

  /** The whole normalisation: agents and tools each listed from their own section, failing exactly on a body
      that is no dictionary; a governance dictionary reduced to its sections; everything else as it was. */
  lemma TopMeaning(show: Json -> string, t: Top)
    ensures var r := NormalizeTop(show, t);
            && (r.Some? <==> BodiesAreDicts(t.agents) && BodiesAreDicts(t.tools))
            && (r.Some? ==>
                  && ListedFrom(t.agents, r.value.agents) && ListedFrom(t.tools, r.value.tools)
                  && r.value.others == t.others
                  && if t.governance.Some? && t.governance.value.Obj?
                     then r.value.governance == Some(Obj(Governance(show, t.governance.value.fields)))
                     else r.value.governance == t.governance)
  {}

  lemma SectionsKept(show: Json -> string, sections: set<string>, gov: Dict)
    ensures KeepSections(show, sections, KeepSections(show, sections, gov)) == KeepSections(show, sections, gov)
  {}

  /** Normalising leaves every other key alone, and normalising an already normalised configuration
      succeeds and changes nothing. */
  lemma TopIdempotent(show: Json -> string, t: Top)
    requires NormalizeTop(show, t).Some?
    ensures NormalizeTop(show, t).value.others == t.others
    ensures NormalizeTop(show, NormalizeTop(show, t).value) == NormalizeTop(show, t)
  {
    var once := NormalizeTop(show, t).value;
    if once.governance.Some? && once.governance.value.Obj? {
      SectionsKept(show, SECTIONS, t.governance.value.fields);
    }
  }

  // ---- _check_duplicate_agent_names ----

  function Count(names: seq<string>, n: string): nat {
    if names == [] then 0 else (if names[0] == n then 1 else 0) + Count(names[1..], n)
  }

  /** `{n for n in names if names.count(n) > 1}`. */
  function Dupes(names: seq<string>): set<string> {
    set n | n in names && Count(names, n) > 1
  }

  lemma {:induction false} CountAtLeast(names: seq<string>, n: string)
    ensures Count(names, n) >= 1 <==> n in names
    ensures Count(names, n) >= 2 <==> exists i, j :: 0 <= i < j < |names| && names[i] == names[j] == n
  {
    if names != [] {
      var rest := names[1..];
      CountAtLeast(rest, n);
      if i, j :| 0 <= i < j < |names| && names[i] == names[j] == n {
        assert rest[j - 1] == n;
        assert i > 0 ==> rest[i - 1] == n;
      }
      if names[0] == n && n in rest {
        var j :| 0 <= j < |rest| && rest[j] == n;
        assert names[0] == names[j + 1] == n;
      } else if i, j :| 0 <= i < j < |rest| && rest[i] == rest[j] == n {
        assert names[i + 1] == names[j + 1] == n;
      }
    }
  }

  /** The check raises exactly when two positions of the agent list hold the same name. */
  lemma DuplicateCheckIff(names: seq<string>)
    ensures Dupes(names) != {} <==> exists i, j :: 0 <= i < j < |names| && names[i] == names[j]
  {
    if Dupes(names) != {} {
      var n :| n in Dupes(names);
      CountAtLeast(names, n);
    }
    if i, j :| 0 <= i < j < |names| && names[i] == names[j] {
      CountAtLeast(names, names[i]);
      assert names[i] in Dupes(names);
    }
  }

  /** The name an agent entry ends up with: its body's own name if it has one, else its key. */
  function EffectiveName(entry: (string, Json)): Json
    requires entry.1.Obj?
  {
    if "name" in entry.1.fields then entry.1.fields["name"] else Str(entry.0)
  }

  ghost predicate NamesAre(list: seq<Json>, names: seq<string>) {
    |list| == |names| && forall i :: 0 <= i < |list| ==>
      list[i].Obj? && Get(list[i].fields, "name") == Some(Str(names[i]))
  }

  /** For agents keyed by name the check raises exactly when two entries have the same effective name;
      in particular never when the bodies leave the names alone. */
  lemma {:induction false} KeyedAgentsClashIff(entries: seq<(string, Json)>, names: seq<string>)
    requires forall i, j :: 0 <= i < j < |entries| ==> entries[i].0 != entries[j].0
    requires EntryList(entries).Some? && NamesAre(EntryList(entries).value, names)
    ensures Dupes(names) != {} <==>
            exists i, j :: 0 <= i < j < |entries| && EffectiveName(entries[i]) == EffectiveName(entries[j])
    ensures (forall i :: 0 <= i < |entries| ==> "name" !in entries[i].1.fields) ==> Dupes(names) == {}
  {
    DuplicateCheckIff(names);
    var list := EntryList(entries).value;
    forall i | 0 <= i < |entries| ensures EffectiveName(entries[i]) == Str(names[i]) {
      assert list[i] == Entry(entries[i].0, entries[i].1.fields);
    }
  }
}
