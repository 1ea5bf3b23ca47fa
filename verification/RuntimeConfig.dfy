/** The runtime block of the configuration: seven rewrites from nested sections to flat keys, run
    before validation in an order the validation library chooses. */
module RuntimeConfig {
  import opened PyValues

  datatype Normalizer = Session | RunState | WorkflowState | LeaseRenewal | DagSnapshot | DagCompensation | DagLease

  predicate IsStore(n: Normalizer) {
    n.Session? || n.RunState? || n.WorkflowState?
  }

  function SectionKey(n: Normalizer): string {
    match n
    case Session => "session"
    case RunState => "run_state"
    case WorkflowState => "workflow_state"
    case LeaseRenewal => "lease_renewal"
    case DagSnapshot => "dag_snapshot"
    case DagCompensation => "dag_compensation"
    case DagLease => "dag_lease"
  }

  function TypeKey(n: Normalizer): string
    requires IsStore(n)
  {
    match n case Session => "session_type" case RunState => "run_state_type" case WorkflowState => "workflow_state_type"
  }

  function PathKey(n: Normalizer): string
    requires IsStore(n)
  {
    match n case Session => "session_path" case RunState => "run_state_path" case WorkflowState => "workflow_state_path"
  }

  function ConfigKey(n: Normalizer): string
    requires !IsStore(n)
  {
    match n
    case LeaseRenewal => "lease_renewal_config"
    case DagSnapshot => "dag_snapshot_config"
    case DagCompensation => "dag_compensation_config"
    case DagLease => "dag_lease_config"
  }

  /** The keys a normaliser may read or write. */
  predicate Owns(n: Normalizer, k: string) {
    k == SectionKey(n) || if IsStore(n) then k == TypeKey(n) || k == PathKey(n) else k == ConfigKey(n)
  }

  /** `d.get(k, default)`. */
  function GetOr(d: Dict, k: string, default: Json): Json {
    if k in d then d[k] else default
  }

  /** A store's type and path: nested values first, then flat ones, then the defaults. */
  function TypeOf(n: Normalizer, d: Dict, nested: Dict): Json
    requires IsStore(n)
  {
    GetOr(nested, "type", GetOr(d, TypeKey(n), Str("memory")))
  }

  function PathOf(n: Normalizer, d: Dict, nested: Dict): Json
    requires IsStore(n)
  {
    GetOr(nested, "path", GetOr(d, PathKey(n), Null))
  }

  function Section(n: Normalizer, d: Dict): Option<Json> {
    Get(d, SectionKey(n))
  }

  function Applied(n: Normalizer, d: Dict): Dict {
    match Section(n, d)
    case Some(Obj(nested)) =>
      if IsStore(n)
      then d[TypeKey(n) := TypeOf(n, d, nested)][PathKey(n) := PathOf(n, d, nested)] - {SectionKey(n)}
      else d[ConfigKey(n) := Obj(nested)] - {SectionKey(n)}
    case Some(Str(s)) => if n.WorkflowState? then d[TypeKey(n) := Str(s)] - {SectionKey(n)} else d
    case _ => d
  }

  /** One normaliser as written: copy the dictionary, assign, pop. A value that is not a dictionary
      passes through. */
  method Normalize(n: Normalizer, data: Json) returns (r: Json)
    ensures r == if data.Obj? then Obj(Applied(n, data.fields)) else data
  {
    if !data.Obj? || SectionKey(n) !in data.fields {
      return data;
    }
    var section := data.fields[SectionKey(n)];
    var result := data.fields;
    if section.Obj? {
      if IsStore(n) {
        result := result[TypeKey(n) := GetOr(section.fields, "type", GetOr(result, TypeKey(n), Str("memory")))];
        result := result[PathKey(n) := GetOr(section.fields, "path", GetOr(result, PathKey(n), Null))];
      } else {
        result := result[ConfigKey(n) := section];
      }
      result := result - {SectionKey(n)};
    } else if section.Str? && n.WorkflowState? {
      result := result[TypeKey(n) := section];
      result := result - {SectionKey(n)};
    }
    r := Obj(result);
  }

  function AppliedAll(ns: seq<Normalizer>, d: Dict): Dict {
    if ns == [] then d else AppliedAll(ns[1..], Applied(ns[0], d))
  }

  // ---- Locality ----

  lemma OneOwner(n: Normalizer, m: Normalizer, k: string)
    requires Owns(n, k) && Owns(m, k)
    ensures n == m
  {}

  lemma AppliedIsLocal(n: Normalizer, d: Dict, k: string)
    requires !Owns(n, k)
    ensures Get(Applied(n, d), k) == Get(d, k)
  {}

  ghost predicate SameOwned(n: Normalizer, d: Dict, e: Dict) {
    forall k :: Owns(n, k) ==> Get(d, k) == Get(e, k)
  }

  lemma {:induction false} AppliedReadsOwned(n: Normalizer, d: Dict, e: Dict)
    requires SameOwned(n, d, e)
    ensures SameOwned(n, Applied(n, d), Applied(n, e))
  {
    assert Section(n, d) == Section(n, e);
    if IsStore(n) {
      assert Get(d, TypeKey(n)) == Get(e, TypeKey(n)) && Get(d, PathKey(n)) == Get(e, PathKey(n));
      forall k | Owns(n, k) ensures Get(Applied(n, d), k) == Get(Applied(n, e), k) {}
    } else {
      assert Get(d, ConfigKey(n)) == Get(e, ConfigKey(n));
      forall k | Owns(n, k) ensures Get(Applied(n, d), k) == Get(Applied(n, e), k) {}
    }
  }

  lemma AppliedTwice(n: Normalizer, d: Dict)
    ensures Applied(n, Applied(n, d)) == Applied(n, d)
  {}

  /** The value of a key after any list of normalisers, repeated or not, in any order: the one its
      owner alone would give it if the owner is on the list, and the original one otherwise. */
  lemma {:induction false} KeyByKey(ns: seq<Normalizer>, d: Dict, k: string)
    ensures forall n :: n in ns && Owns(n, k) ==> Get(AppliedAll(ns, d), k) == Get(Applied(n, d), k)
    ensures (forall n :: n in ns ==> !Owns(n, k)) ==> Get(AppliedAll(ns, d), k) == Get(d, k)
    decreases |ns|
  {
    if ns != [] {
      var first, rest := ns[0], ns[1..];
      KeyByKey(rest, Applied(first, d), k);
      if !Owns(first, k) {
        AppliedIsLocal(first, d, k);
      }
      forall n | n in ns && Owns(n, k) ensures Get(AppliedAll(ns, d), k) == Get(Applied(n, d), k) {
        if n in rest {
          if n == first {
            AppliedTwice(n, d);
          } else {
            forall j | Owns(n, j) ensures Get(Applied(first, d), j) == Get(d, j) {
              if Owns(first, j) {
                OneOwner(n, first, j);
              }
              AppliedIsLocal(first, d, j);
            }
            AppliedReadsOwned(n, Applied(first, d), d);
          }
        } else {
          assert n == first;
          forall m | m in rest ensures !Owns(m, k) {
            if Owns(m, k) {
              OneOwner(n, m, k);
            }
          }
        }
      }
    }
  }

  lemma SameMap(d: Dict, e: Dict)
    requires forall k :: Get(d, k) == Get(e, k)
    ensures d == e
  {
    forall k ensures k in d <==> k in e {
      assert Get(d, k) == Get(e, k);
    }
    forall k | k in d ensures d[k] == e[k] {
      assert Get(d, k) == Get(e, k);
    }
  }

  /** Order does not matter: two lists of the same normalisers, in any order and with any repetition,
      give the same dictionary. */
  lemma AnyOrder(ns: seq<Normalizer>, ms: seq<Normalizer>, d: Dict)
    requires forall n :: n in ns <==> n in ms
    ensures AppliedAll(ns, d) == AppliedAll(ms, d)
  {
    forall k ensures Get(AppliedAll(ns, d), k) == Get(AppliedAll(ms, d), k) {
      KeyByKey(ns, d, k);
      KeyByKey(ms, d, k);
      if n :| n in ns && Owns(n, k) {
        assert n in ms;
      }
    }
    SameMap(AppliedAll(ns, d), AppliedAll(ms, d));
  }

  lemma {:induction false} AppliedAllConcat(ns: seq<Normalizer>, ms: seq<Normalizer>, d: Dict)
    ensures AppliedAll(ns + ms, d) == AppliedAll(ms, AppliedAll(ns, d))
    decreases |ns|
  {
    if ns == [] {
      assert ns + ms == ms;
    } else {
      assert (ns + ms)[1..] == ns[1..] + ms;
      AppliedAllConcat(ns[1..], ms, Applied(ns[0], d));
    }
  }

  /** Normalising an already normalised block changes nothing, whatever the two orders. */
  lemma AllIdempotent(ns: seq<Normalizer>, ms: seq<Normalizer>, d: Dict)
    requires forall n :: n in ms ==> n in ns
    ensures AppliedAll(ms, AppliedAll(ns, d)) == AppliedAll(ns, d)
  {
    AppliedAllConcat(ns, ms, d);
    AnyOrder(ns + ms, ns, d);
  }

  /** Keys that belong to no section pass through any of the seven untouched. */
  lemma OtherKeysUntouched(ns: seq<Normalizer>, d: Dict, k: string)
    requires forall n :: !Owns(n, k)
    ensures Get(AppliedAll(ns, d), k) == Get(d, k)
  {
    KeyByKey(ns, d, k);
  }

  // ---- What the block means ----

  /** The validated field: its value, or the model's default. */
  function StoreType(n: Normalizer, d: Dict): Json requires IsStore(n) { GetOr(d, TypeKey(n), Str("memory")) }
  function StorePath(n: Normalizer, d: Dict): Json requires IsStore(n) { GetOr(d, PathKey(n), Null) }

  /** A store's type and path in r are the nested ones of d where given, else the flat ones where given,
      else the defaults, and a nested section is gone; a workflow state given as a bare string is its type and
      is gone too; any other section stays. */
  ghost predicate MeansStore(n: Normalizer, d: Dict, r: Dict)
    requires IsStore(n)
  {
    var section := Section(n, d);
    if section.Some? && section.value.Obj? then
      && StoreType(n, r) == TypeOf(n, d, section.value.fields)
      && StorePath(n, r) == PathOf(n, d, section.value.fields)
      && SectionKey(n) !in r
    else
      && StorePath(n, r) == StorePath(n, d)
      && if n.WorkflowState? && section.Some? && section.value.Str?
         then StoreType(n, r) == section.value && SectionKey(n) !in r
         else StoreType(n, r) == StoreType(n, d) && Section(n, r) == section
  }

  lemma OneMeansStore(n: Normalizer, d: Dict)
    requires IsStore(n)
    ensures MeansStore(n, d, Applied(n, d))
  {}

  /** All the normalisers together, in any order, give every store section its meaning. */
  lemma StoreMeaning(ns: seq<Normalizer>, n: Normalizer, d: Dict)
    requires IsStore(n) && n in ns
    ensures MeansStore(n, d, AppliedAll(ns, d))
  {
    OneMeansStore(n, d);
    var one, all := Applied(n, d), AppliedAll(ns, d);
    forall k | Owns(n, k) ensures Get(all, k) == Get(one, k) {
      KeyByKey(ns, d, k);
    }
    assert Get(all, SectionKey(n)) == Get(one, SectionKey(n));
    assert Get(all, TypeKey(n)) == Get(one, TypeKey(n));
    assert Get(all, PathKey(n)) == Get(one, PathKey(n));
  }

  /** All the normalisers together give every other section its meaning: a dictionary given as a section
      becomes the configuration of that name and the section is gone; otherwise both are as they were. */
  lemma ConfigMeaning(ns: seq<Normalizer>, n: Normalizer, d: Dict)
    requires !IsStore(n) && n in ns
    ensures var r, section := AppliedAll(ns, d), Section(n, d);
            if section.Some? && section.value.Obj? then Get(r, ConfigKey(n)) == section && SectionKey(n) !in r
            else Get(r, ConfigKey(n)) == Get(d, ConfigKey(n)) && Section(n, r) == section
  {
    KeyByKey(ns, d, SectionKey(n));
    KeyByKey(ns, d, ConfigKey(n));
    assert Section(n, AppliedAll(ns, d)) == Section(n, Applied(n, d));
  }

  /** A nested section and the flat spelling of the same settings normalise to the same dictionary,
      together with everything else in the block. */
  lemma NestedEqualsFlat(ns: seq<Normalizer>, n: Normalizer, d: Dict, nested: Dict)
    requires IsStore(n) && n in ns && SectionKey(n) !in d
    ensures AppliedAll(ns, d[SectionKey(n) := Obj(nested)]) ==
            AppliedAll(ns, d[TypeKey(n) := TypeOf(n, d, nested)][PathKey(n) := PathOf(n, d, nested)])
  {
    var a := d[SectionKey(n) := Obj(nested)];
    var b := d[TypeKey(n) := TypeOf(n, d, nested)][PathKey(n) := PathOf(n, d, nested)];
    assert Applied(n, a) == b && Applied(n, b) == b;
    AnyOrder(ns, [n] + ns, a);
    assert ([n] + ns)[1..] == ns;
  }

  /** A store section under its own names: a dictionary's type and path win over the flat ones, those over
      the default type "memory" and no path, and the section is gone; without one the flat keys stay. */
  ghost predicate StoreByName(section: string, kind: string, path: string, d: Dict, r: Dict) {
    if section in d && d[section].Obj? then
      var nested := d[section].fields;
      && section !in r
      && ("type" in nested ==> Get(r, kind) == Some(nested["type"]))
      && ("type" !in nested ==> Get(r, kind) == Some(if kind in d then d[kind] else Str("memory")))
      && ("path" in nested ==> Get(r, path) == Some(nested["path"]))
      && ("path" !in nested ==> Get(r, path) == Some(if path in d then d[path] else Null))
    else
      && Get(r, path) == Get(d, path)
      && ((section in d && d[section].Str?) || (Get(r, kind) == Get(d, kind) && Get(r, section) == Get(d, section)))
  }

  /** A configuration section under its own names: a dictionary moves, anything else stays. */
  ghost predicate ConfigByName(section: string, config: string, d: Dict, r: Dict) {
    if section in d && d[section].Obj? then section !in r && Get(r, config) == Some(d[section])
    else Get(r, section) == Get(d, section) && Get(r, config) == Get(d, config)
  }

  lemma OneStoreByName(ns: seq<Normalizer>, n: Normalizer, d: Dict)
    requires IsStore(n) && n in ns
    ensures StoreByName(SectionKey(n), TypeKey(n), PathKey(n), d, AppliedAll(ns, d))
  {
    KeyByKey(ns, d, SectionKey(n));
    KeyByKey(ns, d, TypeKey(n));
    KeyByKey(ns, d, PathKey(n));
    assert Owns(n, SectionKey(n)) && Owns(n, TypeKey(n)) && Owns(n, PathKey(n));
    assert Get(AppliedAll(ns, d), SectionKey(n)) == Get(Applied(n, d), SectionKey(n));
  }

  /** The seven sections by name, after all the normalisers in any order: the stores, */
  lemma StoresByName(ns: seq<Normalizer>, d: Dict)
    requires Session in ns && RunState in ns && WorkflowState in ns
    ensures var r := AppliedAll(ns, d);
            && StoreByName("session", "session_type", "session_path", d, r)
            && StoreByName("run_state", "run_state_type", "run_state_path", d, r)
            && StoreByName("workflow_state", "workflow_state_type", "workflow_state_path", d, r)
  {
    OneStoreByName(ns, Session, d);
    OneStoreByName(ns, RunState, d);
    OneStoreByName(ns, WorkflowState, d);
  }

  /** a workflow state given as a bare word, */
  lemma ShorthandByName(ns: seq<Normalizer>, d: Dict)
    requires WorkflowState in ns && "workflow_state" in d && d["workflow_state"].Str?
    ensures Get(AppliedAll(ns, d), "workflow_state_type") == Some(d["workflow_state"])
    ensures "workflow_state" !in AppliedAll(ns, d)
  {
    KeyByKey(ns, d, SectionKey(WorkflowState));
    KeyByKey(ns, d, TypeKey(WorkflowState));
    assert Owns(WorkflowState, SectionKey(WorkflowState)) && Owns(WorkflowState, TypeKey(WorkflowState));
    assert Get(AppliedAll(ns, d), SectionKey(WorkflowState)) == None;
  }

  /** and the configurations. */
  lemma ConfigsByName(ns: seq<Normalizer>, d: Dict)
    requires LeaseRenewal in ns && DagSnapshot in ns && DagCompensation in ns && DagLease in ns
    ensures var r := AppliedAll(ns, d);
            && ConfigByName("lease_renewal", "lease_renewal_config", d, r)
            && ConfigByName("dag_snapshot", "dag_snapshot_config", d, r)
            && ConfigByName("dag_compensation", "dag_compensation_config", d, r)
            && ConfigByName("dag_lease", "dag_lease_config", d, r)
  {
    OneConfigByName(ns, LeaseRenewal, d);
    OneConfigByName(ns, DagSnapshot, d);
    OneConfigByName(ns, DagCompensation, d);
    OneConfigByName(ns, DagLease, d);
  }

  lemma OneConfigByName(ns: seq<Normalizer>, n: Normalizer, d: Dict)
    requires !IsStore(n) && n in ns
    ensures ConfigByName(SectionKey(n), ConfigKey(n), d, AppliedAll(ns, d))
  {
    ConfigMeaning(ns, n, d);
  }
}
