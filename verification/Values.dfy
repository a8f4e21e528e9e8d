/**
 The value tree of the resolver (the Val types of internal/resolver/resolver.go).
 A tree is either unresolved, and may hold placeholders and saved priors, or
 concrete.  A Go pointer to a substPlaceholder is an id: the resolver compares
 such nodes by identity.
 */
module Values {
  import opened Paths

  datatype ScalarType = StringT | NumberT | BooleanT | NullT

  datatype Val =
    | Scalar(raw: string, typ: ScalarType, separator: bool)
    | Arr(elems: seq<Val>)
    | Obj(keys: seq<string>, vals: map<string, Val>, priors: map<string, Val>)
    | Subst(id: nat, segs: seq<string>, optional: bool, knownAbsent: bool)
    | Concat(parts: seq<Val>)

  const EMPTY_OBJ: Val := Obj([], map[], map[])

  function Text(s: string): Val {
    Scalar(s, StringT, false)
  }

  // ---------- objects ----------

  /** ObjectVal.set: a new key goes to the end, a known key keeps its place. */
  function Set(o: Val, k: string, v: Val): (r: Val)
    requires o.Obj?
  {
    Obj(if k in o.vals then o.keys else o.keys + [k], o.vals[k := v], o.priors)
  }

  predicate Distinct<T(==)>(s: seq<T>) {
    forall i, j | 0 <= i < j < |s| :: s[i] != s[j]
  }

  /** The keys slice lists the keys of the value map, each of them once. */
  predicate KeysMatch(o: Val)
    requires o.Obj?
  {
    && Distinct(o.keys)
    && (forall k | k in o.keys :: k in o.vals)
    && (forall k | k in o.vals :: k in o.keys)
  }

  predicate WellFormed(v: Val) {
    match v
    case Scalar(_, _, _) => true
    case Subst(_, _, _, _) => true
    case Arr(es) => forall i | 0 <= i < |es| :: WellFormed(es[i])
    case Concat(ps) => forall i | 0 <= i < |ps| :: WellFormed(ps[i])
    case Obj(_, vals, priors) =>
      && KeysMatch(v)
      && (forall k | k in vals :: WellFormed(vals[k]))
      && (forall k | k in priors :: WellFormed(priors[k]))
  }

  /** A resolved tree: no placeholder and no prior anywhere. */
  predicate Concrete(v: Val) {
    match v
    case Scalar(_, _, _) => true
    case Subst(_, _, _, _) => false
    case Concat(_) => false
    case Arr(es) => forall i | 0 <= i < |es| :: Concrete(es[i])
    case Obj(_, vals, priors) => priors == map[] && KeysMatch(v) && forall k | k in vals :: Concrete(vals[k])
  }

  /** A value without placeholders; saved priors do not matter here. */
  predicate NoPlaceholders(v: Val) {
    match v
    case Scalar(_, _, _) => true
    case Subst(_, _, _, _) => false
    case Concat(_) => false
    case Arr(es) => forall i | 0 <= i < |es| :: NoPlaceholders(es[i])
    case Obj(_, vals, _) => forall k | k in vals :: NoPlaceholders(vals[k])
  }

  /** The same value once bookkeeping is ignored: every prior removed. */
  function Visible(v: Val): (r: Val) {
    match v
    case Arr(es) => Arr(seq(|es|, i requires 0 <= i < |es| => Visible(es[i])))
    case Concat(ps) => Concat(seq(|ps|, i requires 0 <= i < |ps| => Visible(ps[i])))
    case Obj(keys, vals, _) => Obj(keys, map k | k in vals :: Visible(vals[k]), map[])
    case _ => v
  }

  lemma {:induction false} ConcreteIsVisible(v: Val)
    requires Concrete(v)
    ensures Visible(v) == v
  {
    match v
    case Arr(es) =>
      forall i | 0 <= i < |es| ensures Visible(es[i]) == es[i] { ConcreteIsVisible(es[i]); }
    case Obj(_, vals, _) =>
      forall k | k in vals ensures Visible(vals[k]) == vals[k] { ConcreteIsVisible(vals[k]); }
      assert Visible(v).vals == vals;
    case _ =>
  }

  /** The same tree up to the order of the fields of its objects. */
  ghost predicate Reordered(a: Val, b: Val) {
    match a
    case Arr(es) => b.Arr? && |es| == |b.elems| && forall i | 0 <= i < |es| :: Reordered(es[i], b.elems[i])
    case Concat(ps) => b.Concat? && |ps| == |b.parts| && forall i | 0 <= i < |ps| :: Reordered(ps[i], b.parts[i])
    case Obj(_, vals, priors) =>
      && b.Obj? && vals.Keys == b.vals.Keys && priors.Keys == b.priors.Keys
      && (forall k | k in vals :: Reordered(vals[k], b.vals[k]))
      && (forall k | k in priors :: Reordered(priors[k], b.priors[k]))
    case _ => a == b
  }

  lemma {:induction false} ReorderedItself(a: Val)
    ensures Reordered(a, a)
  {
    match a
    case Arr(es) => forall i | 0 <= i < |es| { ReorderedItself(es[i]); }
    case Concat(ps) => forall i | 0 <= i < |ps| { ReorderedItself(ps[i]); }
    case Obj(_, vals, priors) =>
      forall k | k in vals { ReorderedItself(vals[k]); }
      forall k | k in priors { ReorderedItself(priors[k]); }
    case _ =>
  }

  // ---------- paths into a tree ----------

  /** lookupPath: only objects are entered, and no placeholder is seen through. */
  function Lookup(o: Val, segs: seq<string>): (r: Option<Val>)
    decreases |segs|
  {
    if !o.Obj? || segs == [] || segs[0] !in o.vals then None
    else if |segs| == 1 then Some(o.vals[segs[0]])
    else Lookup(o.vals[segs[0]], segs[1..])
  }

  /** The prior saved next to the last segment of a path. */
  function PriorAt(root: Val, segs: seq<string>): (r: Option<Val>) {
    if segs == [] then None
    else
      var parent := if |segs| == 1 then Some(root) else Lookup(root, segs[..|segs| - 1]);
      if parent.Some? && parent.value.Obj? && segs[|segs| - 1] in parent.value.priors
      then Some(parent.value.priors[segs[|segs| - 1]])
      else None
  }

  /** Neither undefined nor an object: a prior beside such a value is not looked at. */
  predicate Firm(v: Val) {
    v.Scalar? || v.Arr?
  }

  /** containsSubstByIdentity: is the live placeholder with this id inside v? */
  predicate ContainsId(v: Val, id: nat) {
    match v
    case Scalar(_, _, _) => false
    case Subst(i, _, _, absent) => !absent && i == id
    case Arr(es) => exists i | 0 <= i < |es| :: ContainsId(es[i], id)
    case Concat(ps) => exists i | 0 <= i < |ps| :: ContainsId(ps[i], id)
    case Obj(_, vals, _) => exists k | k in vals :: ContainsId(vals[k], id)
  }

  /** Every live placeholder of v, those of saved priors included. */
  ghost function Refs(v: Val): set<Val> {
    match v
    case Scalar(_, _, _) => {}
    case Subst(_, _, _, absent) => if absent then {} else {v}
    case Arr(es) => set i, s | 0 <= i < |es| && s in Refs(es[i]) :: s
    case Concat(ps) => set i, s | 0 <= i < |ps| && s in Refs(ps[i]) :: s
    case Obj(_, vals, priors) =>
      (set k, s | k in vals && s in Refs(vals[k]) :: s) + (set k, s | k in priors && s in Refs(priors[k]) :: s)
  }

  /** Below a value that is not an object there is nothing to find. */
  lemma {:induction false} NothingBelow(o: Val, p: seq<string>, q: seq<string>)
    requires p != [] && p < q
    requires !(Lookup(o, p).Some? && Lookup(o, p).value.Obj?)
    ensures Lookup(o, q).None?
    decreases |p|
  {
    if o.Obj? && p[0] in o.vals && |p| > 1 {
      assert p[1..] < q[1..];
      NothingBelow(o.vals[p[0]], p[1..], q[1..]);
    }
  }
}
