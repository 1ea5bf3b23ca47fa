/** Python values that cross a dictionary boundary in the framework: JSON trees, optional values
    and the string a dictionary field turns into under `str(d.get(key, default))`. */
module PyValues {

  datatype Option<+T> = None | Some(value: T)

  /** A JSON tree. Dictionaries compare without regard to insertion order, as Python's `==` does. */
  datatype Json =
    | Null
    | Bool(b: bool)
    | Num(n: real)
    | Str(s: string)
    | Arr(items: seq<Json>)
    | Obj(fields: map<string, Json>)

  type Dict = map<string, Json>

  /** The representative of a value under Python's `==`, which identifies True with 1 and False with 0. */
  function Canon(v: Json): Json {
    match v
    case Bool(b) => Num(if b then 1.0 else 0.0)
    case Arr(items) => Arr(seq(|items|, i requires 0 <= i < |items| => Canon(items[i])))
    case Obj(fields) => Obj(map k | k in fields :: Canon(fields[k]))
    case _ => v
  }

  /** Python's `==` on decoded JSON: a truth value equals the number it counts as, lists are equal item by
      item, dictionaries key by key. */
  predicate PyEq(v: Json, w: Json) {
    match (v, w)
    case (Bool(b), Num(n)) => n == if b then 1.0 else 0.0
    case (Num(n), Bool(b)) => n == if b then 1.0 else 0.0
    case (Arr(xs), Arr(ys)) => |xs| == |ys| && forall i :: 0 <= i < |xs| ==> PyEq(xs[i], ys[i])
    case (Obj(f), Obj(g)) => f.Keys == g.Keys && forall k :: k in f ==> PyEq(f[k], g[k])
    case _ => v == w
  }

  /** Equal values, and no others, have the same representative. */
  lemma {:induction false} CanonIffPyEq(v: Json, w: Json)
    ensures Canon(v) == Canon(w) <==> PyEq(v, w)
  {
    match (v, w)
    case (Arr(xs), Arr(ys)) =>
      var cs, ds := Canon(v).items, Canon(w).items;
      assert |cs| == |xs| && |ds| == |ys|;
      if |xs| == |ys| {
        forall i | 0 <= i < |xs| ensures Canon(xs[i]) == Canon(ys[i]) <==> PyEq(xs[i], ys[i]) {
          CanonIffPyEq(xs[i], ys[i]);
        }
        assert forall i :: 0 <= i < |xs| ==> cs[i] == Canon(xs[i]) && ds[i] == Canon(ys[i]);
        assert cs == ds <==> forall i :: 0 <= i < |xs| ==> cs[i] == ds[i];
      }
    case (Obj(f), Obj(g)) =>
      var cs, ds := Canon(v).fields, Canon(w).fields;
      assert cs.Keys == f.Keys && ds.Keys == g.Keys;
      if f.Keys == g.Keys {
        forall k | k in f ensures Canon(f[k]) == Canon(g[k]) <==> PyEq(f[k], g[k]) {
          CanonIffPyEq(f[k], g[k]);
        }
        assert forall k :: k in f ==> cs[k] == Canon(f[k]) && ds[k] == Canon(g[k]);
        assert cs == ds <==> forall k :: k in f ==> cs[k] == ds[k];
      }
    case _ =>
  }

  /** No truth value anywhere inside. */
  predicate BoolFree(v: Json) {
    match v
    case Bool(_) => false
    case Arr(items) => forall i :: 0 <= i < |items| ==> BoolFree(items[i])
    case Obj(fields) => forall k :: k in fields ==> BoolFree(fields[k])
    case _ => true
  }

  /** Between values without truth values, equality is exact. */
  lemma {:induction false} PyEqExact(v: Json, w: Json)
    requires BoolFree(v) && BoolFree(w)
    ensures PyEq(v, w) <==> v == w
  {
    match (v, w)
    case (Arr(xs), Arr(ys)) =>
      if |xs| == |ys| {
        forall i | 0 <= i < |xs| ensures PyEq(xs[i], ys[i]) <==> xs[i] == ys[i] {
          PyEqExact(xs[i], ys[i]);
        }
        assert xs == ys <==> forall i :: 0 <= i < |xs| ==> xs[i] == ys[i];
      }
    case (Obj(f), Obj(g)) =>
      if f.Keys == g.Keys {
        forall k | k in f ensures PyEq(f[k], g[k]) <==> f[k] == g[k] {
          PyEqExact(f[k], g[k]);
        }
        assert f == g <==> forall k :: k in f ==> f[k] == g[k];
      }
    case _ =>
  }

  /** A truth value equals one number and one truth value. */
  lemma BoolsAreNumbers(n: real, b: bool, a: bool)
    ensures PyEq(Num(n), Bool(b)) <==> n == (if b then 1.0 else 0.0)
    ensures PyEq(Bool(b), Num(n)) <==> n == (if b then 1.0 else 0.0)
    ensures PyEq(Bool(a), Bool(b)) <==> a == b
  {}

  /** Equality is an equivalence. */
  lemma PyEqIsEquivalence(u: Json, v: Json, w: Json)
    ensures PyEq(v, v)
    ensures PyEq(v, w) <==> PyEq(w, v)
    ensures PyEq(u, v) && PyEq(v, w) ==> PyEq(u, w)
  {
    CanonIffPyEq(v, v);
    CanonIffPyEq(v, w);
    CanonIffPyEq(w, v);
    CanonIffPyEq(u, v);
    CanonIffPyEq(u, w);
  }

  /** Every value equals one without truth values, so the three laws above leave no choice. */
  lemma {:induction false} CanonIsBoolFree(v: Json)
    ensures BoolFree(Canon(v)) && PyEq(v, Canon(v))
  {
    match v
    case Arr(items) =>
      forall i | 0 <= i < |items| ensures BoolFree(Canon(v).items[i]) && PyEq(items[i], Canon(v).items[i]) {
        CanonIsBoolFree(items[i]);
      }
    case Obj(fields) =>
      assert Canon(v).fields.Keys == fields.Keys;
      forall k | k in fields ensures BoolFree(Canon(v).fields[k]) && PyEq(fields[k], Canon(v).fields[k]) {
        CanonIsBoolFree(fields[k]);
      }
    case _ =>
  }

  /** A dictionary field that may be missing, None, or a string. */
  datatype Field = Absent | PyNone | Text(text: string)

  /** `str(d.get(key, default))`: a present None becomes the four letters of its name. */
  function StrOf(f: Field, default: string): string {
    match f
    case Absent => default
    case PyNone => "None"
    case Text(t) => t
  }

  /** `d.get(key)` on a map. */
  function Get<K, V>(m: map<K, V>, k: K): Option<V> {
    if k in m then Some(m[k]) else None
  }

  function Min(a: nat, b: nat): nat {
    if a < b then a else b
  }
}
