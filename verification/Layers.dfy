/**
 Layer-by-layer evaluation of the assignments to one key, the meaning that phase 1
 and phase 2 together are measured against: every assignment is evaluated over the
 value of those before it, and laid over that value where both are objects.
 */
module Layers {
  import opened Paths
  import opened Values
  import opened Fold
  import opened Merge
  import opened MergeLaws
  import opened Concats
  import opened Resolve
  import opened ResolveLaws

  // ---------- what is shown already ----------

  /** r has every key of b, at every depth where both have objects. */
  predicate Covers(r: Val, b: Val)
    requires r.Obj? && b.Obj?
    decreases b
  {
    forall k | k in b.vals :: k in r.vals && (r.vals[k].Obj? && b.vals[k].Obj? ==> Covers(r.vals[k], b.vals[k]))
  }

  lemma {:induction false} CoversItself(a: Val)
    requires a.Obj?
    ensures Covers(a, a)
  {
    forall k | k in a.vals && a.vals[k].Obj? { CoversItself(a.vals[k]); }
  }

  lemma {:induction false} NothingNew(o: Val, keys: seq<string>)
    requires o.Obj?
    ensures NewKeys(o, keys) == [] <==> forall k | k in keys :: k in o.vals
  {
    if keys != [] {
      NothingNew(o, keys[1..]);
      assert forall k :: k in keys <==> k == keys[0] || k in keys[1..];
    }
  }

  /** Merging r over b leaves r as it is exactly when r covers b. */
  lemma {:induction false} CoversExactly(lt: LetterTest, r: Val, b: Val, path: seq<string>)
    requires r.Obj? && b.Obj? && Concrete(r) && Concrete(b)
    ensures DeepMergeAt(lt, r, b, path, false) == r <==> Covers(r, b)
  {
    var m := DeepMergeAt(lt, r, b, path, false);
    DeepMergeIsConcat(lt, r, b, path);
    NothingNew(r, b.keys);
    forall k ensures k in b.keys <==> k in b.vals { }
    if Covers(r, b) {
      forall k ensures Get(m.vals, k) == Get(r.vals, k) {
        CoversAt(lt, r, b, path, k);
      }
      SameMaps(m.vals, r.vals);
      assert r.keys + [] == r.keys;
    }
    if m == r {
      forall k | k in b.vals
        ensures k in r.vals && (r.vals[k].Obj? && b.vals[k].Obj? ==> Covers(r.vals[k], b.vals[k])) {
        CoversAt(lt, r, b, path, k);
      }
    }
  }

  lemma {:induction false} CoversAt(lt: LetterTest, r: Val, b: Val, path: seq<string>, k: string)
    requires r.Obj? && b.Obj? && Concrete(r) && Concrete(b)
    ensures Get(DeepMergeAt(lt, r, b, path, false).vals, k) == Get(r.vals, k) <==>
            (k in b.vals ==> k in r.vals && (r.vals[k].Obj? && b.vals[k].Obj? ==> Covers(r.vals[k], b.vals[k])))
  {
    DeepValue(lt, r, b, path, false, k);
    if k in r.vals && k in b.vals {
      ConcreteHasNoSentinel(r.vals[k]);
      if r.vals[k].Obj? && b.vals[k].Obj? {
        CoversExactly(lt, r.vals[k], b.vals[k], path + [k]);
      }
    }
  }

  lemma {:induction false} CoversMerged(lt: LetterTest, a: Val, b: Val, path: seq<string>)
    requires a.Obj? && b.Obj? && Concrete(a) && Concrete(b)
    ensures Covers(DeepMergeAt(lt, a, b, path, false), b)
  {
    var m := DeepMergeAt(lt, a, b, path, false);
    forall k | k in b.vals ensures k in m.vals && (m.vals[k].Obj? && b.vals[k].Obj? ==> Covers(m.vals[k], b.vals[k])) {
      DeepValue(lt, a, b, path, false, k);
      if k !in a.vals {
        if b.vals[k].Obj? { CoversItself(b.vals[k]); }
      } else if BothObjects(a, b, k) {
        CoversMerged(lt, a.vals[k], b.vals[k], path + [k]);
      } else {
        ConcreteHasNoSentinel(a.vals[k]);
      }
    }
  }

  // ---------- one value over the layer below it ----------

  /** The later value where it is defined; two objects are merged. */
  function LaidOver(lt: LetterTest, r: Res, below: Option<Res>): Res {
    if below.Some? && WantsPrior(r) then Settle(lt, r, below.value) else r
  }

  /** The value shows all of the layer below it, or hides it. */
  predicate Shows(r: Res, below: Option<Res>) {
    below.None? ||
    match r
    case Ok(v) =>
      v.Obj? ==> match below.value {
        case Ok(b) => b.Obj? ==> Covers(v, b)
        case Absent => true
        case _ => false
      }
    case Absent => below.value == Absent
    case _ => true
  }

  ghost predicate ConcreteLayer(b: Option<Res>) {
    b.Some? ==> ConcreteRes(b.value) && !b.value.Diverge?
  }

  /** Laying such a value over the layer below changes nothing, and only then. */
  lemma {:induction false} ShowsExactly(lt: LetterTest, r: Res, below: Option<Res>)
    requires ConcreteRes(r) && ConcreteLayer(below)
    ensures LaidOver(lt, r, below) == r <==> Shows(r, below)
  {
    if below.Some? && r.Ok? && r.v.Obj? && below.value.Ok? && below.value.v.Obj? {
      CoversExactly(lt, r.v, below.value.v, []);
    }
  }

  lemma {:induction false} ShowsItself(r: Res)
    requires !r.Diverge?
    ensures Shows(r, Some(r))
  {
    if r.Ok? && r.v.Obj? { CoversItself(r.v); }
  }

  /** Merging over the same layer again changes nothing. */
  lemma {:induction false} MergeStays(lt: LetterTest, v: Val, b: Val)
    requires v.Obj? && b.Obj? && Concrete(v) && Concrete(b)
    ensures DeepMerge(lt, DeepMerge(lt, v, b), b) == DeepMerge(lt, v, b)
  {
    CoversMerged(lt, v, b, []);
    DeepMergeIsConcat(lt, v, b, []);
    CoversExactly(lt, DeepMerge(lt, v, b), b, []);
  }

  lemma {:induction false} ObjectsLaidOver(lt: LetterTest, v: Val, b: Val)
    requires v.Obj? && b.Obj?
    ensures LaidOver(lt, Ok(v), Some(Ok(b))) == Ok(DeepMerge(lt, v, b))
  {
  }

  lemma {:induction false} MergedLaidOver(lt: LetterTest, v: Val, b: Val)
    requires v.Obj? && b.Obj? && Concrete(v) && Concrete(b)
    ensures var r, below := Ok(DeepMerge(lt, v, b)), Some(Ok(b));
            r == LaidOver(lt, Ok(v), below) && LaidOver(lt, r, below) == r
  {
    ObjectsLaidOver(lt, v, b);
    ObjectsLaidOver(lt, DeepMerge(lt, v, b), b);
    MergeStays(lt, v, b);
  }

  // ---------- layers ----------

  /** The other keys that values may refer to: plain data, or not assigned at all. */
  type Env = map<string, Option<Val>>

  ghost predicate DataEnv(env: Env) {
    forall j | j in env :: env[j].Some? ==> Concrete(env[j].value)
  }

  predicate Foreign(env: Env, segs: seq<string>) {
    |segs| == 1 && segs[0] in env
  }

  /** What a value may be built from: data, objects, arrays, concatenations,
      references to the key k, folded to absent ones included, and to keys of the
      environment.  The priors that merging leaves in objects do not refer to k,
      unless they are never looked at. */
  predicate Piece(env: Env, v: Val, k: string) {
    match v
    case Scalar(_, _, _) => true
    case Obj(_, vals, priors) =>
      && KeysMatch(v) && (forall j | j in vals :: Piece(env, vals[j], k))
      && (forall j | j in priors :: j in vals && (Firm(vals[j]) || (Piece(env, priors[j], k) && Dead(priors[j], k))))
    case Subst(_, segs, optional, absent) => if absent then optional && segs == [k]
      else segs == [k] || Foreign(env, segs)
    case Arr(es) => forall i | 0 <= i < |es| :: Piece(env, es[i], k)
    case Concat(ps) => ps != [] && forall i | 0 <= i < |ps| :: Piece(env, ps[i], k)
  }

  /** Nothing folded or merged yet. */
  predicate Fresh(v: Val) {
    match v
    case Scalar(_, _, _) => true
    case Obj(_, vals, priors) => priors == map[] && forall j | j in vals :: Fresh(vals[j])
    case Subst(_, _, _, absent) => !absent
    case Arr(es) => forall i | 0 <= i < |es| :: Fresh(es[i])
    case Concat(ps) => forall i | 0 <= i < |ps| :: Fresh(ps[i])
  }

  /** A value as it stands in a document. */
  predicate Raw(env: Env, v: Val, k: string) {
    Piece(env, v, k) && Fresh(v)
  }

  /** Every reference to another key finds data there. */
  predicate Defines(env: Env, v: Val) {
    match v
    case Scalar(_, _, _) => true
    case Obj(_, vals, _) => forall j | j in vals :: Defines(env, vals[j])
    case Subst(_, segs, _, _) => Foreign(env, segs) ==> env[segs[0]].Some?
    case Arr(es) => forall i | 0 <= i < |es| :: Defines(env, es[i])
    case Concat(ps) => forall i | 0 <= i < |ps| :: Defines(env, ps[i])
  }

  /** No live reference to the key. */
  predicate Dead(v: Val, k: string) {
    match v
    case Scalar(_, _, _) => true
    case Obj(_, vals, _) => forall j | j in vals :: Dead(vals[j], k)
    case Subst(_, segs, _, absent) => absent || segs != [k]
    case Arr(es) => forall i | 0 <= i < |es| :: Dead(es[i], k)
    case Concat(ps) => forall i | 0 <= i < |ps| :: Dead(ps[i], k)
  }

  /** A live reference to the key and nothing else. */
  predicate Bare(v: Val, k: string) {
    v.Subst? && !v.knownAbsent && v.segs == [k]
  }

  /** A required reference to the key. */
  predicate Demands(v: Val, k: string) {
    match v
    case Scalar(_, _, _) => false
    case Obj(_, vals, _) => exists j | j in vals :: Demands(vals[j], k)
    case Subst(_, segs, optional, absent) => !absent && !optional && segs == [k]
    case Arr(es) => exists i | 0 <= i < |es| :: Demands(es[i], k)
    case Concat(ps) => exists i | 0 <= i < |ps| :: Demands(ps[i], k)
  }

  function RefValue(env: Env, s: Val, below: Option<Res>): Res
    requires s.Subst?
  {
    if s.knownAbsent then Undefined(s)
    else if Foreign(env, s.segs) then (if env[s.segs[0]].Some? then Ok(env[s.segs[0]].value) else Undefined(s))
    else if below.Some? then below.value
    else Undefined(s)
  }

  /** The value of one assignment over what lies below it: each reference to the
      key takes the value of the layer below, required or not, and is undefined
      when there is none. */
  function LayerValue(lt: LetterTest, env: Env, v: Val, below: Option<Res>): Res
    decreases v, 2
  {
    match v
    case Scalar(_, _, _) => Ok(v)
    case Obj(keys, _, _) => LayerFields(lt, env, v, keys, below, EMPTY_OBJ)
    case Subst(_, _, _, _) => RefValue(env, v, below)
    case Concat(ps) =>
      (match LayerValues(lt, env, ps, below)
       case Vals(vs) => JoinConcat(vs)
       case SeqFail => Fail
       case SeqDiverge => Diverge)
    case Arr(es) =>
      (match LayerValues(lt, env, es, below)
       case Vals(vs) => Ok(Arr(Defined(vs)))
       case SeqFail => Fail
       case SeqDiverge => Diverge)
  }

  function LayerValues(lt: LetterTest, env: Env, vs: seq<Val>, below: Option<Res>): (r: SeqRes)
    ensures r.Vals? ==> |r.vs| == |vs|
    decreases vs, 0
  {
    if vs == [] then Vals([])
    else
      var first := LayerValue(lt, env, vs[0], below);
      if first.Fail? then SeqFail
      else if first.Diverge? then SeqDiverge
      else
        var rest := LayerValues(lt, env, vs[1..], below);
        if rest.Vals? then Vals([OptionOf(first)] + rest.vs) else rest
  }

  /** A field of an object, over the prior that merging left beside it. */
  function LayerField(lt: LetterTest, env: Env, o: Val, j: string, below: Option<Res>): Res
    requires o.Obj?
    decreases o, 0
  {
    var r := if j in o.vals then LayerValue(lt, env, o.vals[j], below) else Absent;
    if WantsPrior(r) && j in o.priors then Settle(lt, r, LayerValue(lt, env, o.priors[j], below)) else r
  }

  function LayerFields(lt: LetterTest, env: Env, o: Val, keys: seq<string>, below: Option<Res>, acc: Val): Res
    requires o.Obj? && acc.Obj?
    decreases o, 1, |keys|
  {
    if keys == [] then Ok(acc)
    else
      match LayerField(lt, env, o, keys[0], below)
      case Fail => Fail
      case Diverge => Diverge
      case Absent => LayerFields(lt, env, o, keys[1..], below, acc)
      case Ok(v) => LayerFields(lt, env, o, keys[1..], below, Set(acc, keys[0], v))
  }

  /** What a stack of assignments leaves for the next one to look back at.
      Nothing, as long as each demands a value that is not there. */
  function Stacked(lt: LetterTest, env: Env, k: string, vs: seq<Val>): Option<Res> {
    if vs == [] then None
    else
      var below, v := Stacked(lt, env, k, vs[..|vs| - 1]), vs[|vs| - 1];
      if below.None? && Demands(v, k) then None else Some(LaidOver(lt, LayerValue(lt, env, v, below), below))
  }

  /** Layer-by-layer evaluation of all assignments to one key. */
  function Layered(lt: LetterTest, env: Env, k: string, vs: seq<Val>): Res
    requires vs != []
  {
    var below := Stacked(lt, env, k, vs[..|vs| - 1]);
    LaidOver(lt, LayerValue(lt, env, vs[|vs| - 1], below), below)
  }

  // ---------- the fields of a layer ----------

  /** The keys whose fields come to a value, in order. */
  function OkKeys(keys: seq<string>, want: map<string, Res>): seq<string> {
    if keys == [] then []
    else (if keys[0] in want && want[keys[0]].Ok? then [keys[0]] else []) + OkKeys(keys[1..], want)
  }

  ghost predicate AllSettle(keys: seq<string>, want: map<string, Res>) {
    forall i | 0 <= i < |keys| :: keys[i] in want && Settles(want[keys[i]])
  }

  lemma {:induction false} SettleOneMore(keys: seq<string>, want: map<string, Res>)
    requires keys != [] && keys[0] in want
    ensures AllSettle(keys, want) <==> Settles(want[keys[0]]) && AllSettle(keys[1..], want)
    ensures forall i | 0 <= i < |keys[1..]| :: keys[1..][i] == keys[i + 1]
  {
    assert forall i | 0 < i < |keys| :: keys[i] == keys[1..][i - 1];
  }

  function Wanted(want: map<string, Res>, k: string): Option<Val> {
    if k in want then OptionOf(want[k]) else None
  }

  /** The object has acc's fields and those of the keys that come to a value. */
  ghost predicate Extends(r: Val, keys: seq<string>, want: map<string, Res>, acc: Val)
    requires r.Obj? && acc.Obj?
  {
    && r.priors == acc.priors && r.keys == acc.keys + OkKeys(keys, want)
    && forall k :: Get(r.vals, k) == if k in keys && Wanted(want, k).Some? then Wanted(want, k) else Get(acc.vals, k)
  }

  lemma {:induction false} ExtendsOneMore(r: Val, keys: seq<string>, want: map<string, Res>, acc: Val)
    requires r.Obj? && acc.Obj? && keys != [] && keys[0] !in keys[1..] && keys[0] !in acc.vals && keys[0] in want
    requires Extends(r, keys[1..], want, if want[keys[0]].Ok? then Set(acc, keys[0], want[keys[0]].v) else acc)
    ensures Extends(r, keys, want, acc)
  {
    assert forall k :: k in keys <==> k == keys[0] || k in keys[1..];
    var rest := OkKeys(keys[1..], want);
    if want[keys[0]].Ok? {
      Assoc(acc.keys, [keys[0]], rest);
    } else {
      assert [] + rest == rest;
    }
  }

  /** An object fails if one of its fields does, and otherwise has the fields that
      come to a value, in the order of the keys. */
  ghost predicate Gives(r: Res, keys: seq<string>, want: map<string, Res>) {
    if AllSettle(keys, want)
    then r.Ok? && r.v.Obj? && r.v.priors == map[] && r.v.keys == OkKeys(keys, want)
         && forall k :: Get(r.v.vals, k) == if k in keys then Wanted(want, k) else None
    else r == Fail
  }

  lemma {:induction false} ExtendsNothing(r: Val, keys: seq<string>, want: map<string, Res>)
    requires r.Obj? && Extends(r, keys, want, EMPTY_OBJ) && AllSettle(keys, want)
    ensures Gives(Ok(r), keys, want)
  {
    assert EMPTY_OBJ.keys + OkKeys(keys, want) == OkKeys(keys, want);
  }

  lemma {:induction false} SameLayerFields(lt: LetterTest, env: Env, o: Val, p: Val, keys: seq<string>,
                                           below: Option<Res>, below': Option<Res>, acc: Val)
    requires o.Obj? && p.Obj? && acc.Obj?
    requires forall i | 0 <= i < |keys| ::
             LayerField(lt, env, o, keys[i], below) == LayerField(lt, env, p, keys[i], below')
    ensures LayerFields(lt, env, o, keys, below, acc) == LayerFields(lt, env, p, keys, below', acc)
    decreases |keys|
  {
    if keys != [] {
      var r := LayerField(lt, env, o, keys[0], below);
      assert forall i | 0 <= i < |keys[1..]| :: keys[1..][i] == keys[i + 1];
      if Settles(r) {
        SameLayerFields(lt, env, o, p, keys[1..], below, below', if r.Ok? then Set(acc, keys[0], r.v) else acc);
      }
    }
  }

  /** What the fields come to. */
  function FieldMap(lt: LetterTest, env: Env, o: Val, below: Option<Res>): (m: map<string, Res>)
    requires o.Obj?
    ensures m.Keys == o.vals.Keys
  {
    map j | j in o.vals :: LayerField(lt, env, o, j, below)
  }

  ghost predicate FieldsGive(lt: LetterTest, env: Env, o: Val, keys: seq<string>, below: Option<Res>, acc: Val)
    requires o.Obj? && acc.Obj?
  {
    var r := LayerFields(lt, env, o, keys, below, acc);
    if AllSettle(keys, FieldMap(lt, env, o, below))
    then r.Ok? && r.v.Obj? && Extends(r.v, keys, FieldMap(lt, env, o, below), acc) else r == Fail
  }

  lemma {:induction false} FieldsAre(lt: LetterTest, env: Env, o: Val, keys: seq<string>, below: Option<Res>, acc: Val)
    requires o.Obj? && acc.Obj? && Distinct(keys)
    requires forall i | 0 <= i < |keys| ::
             keys[i] in o.vals && keys[i] !in acc.vals && !LayerField(lt, env, o, keys[i], below).Diverge?
    ensures FieldsGive(lt, env, o, keys, below, acc)
    decreases |keys|
  {
    if keys == [] {
      assert acc.keys + [] == acc.keys;
    } else {
      var want, r := FieldMap(lt, env, o, below), LayerField(lt, env, o, keys[0], below);
      SettleOneMore(keys, want);
      assert keys[0] !in keys[1..];
      if Settles(r) {
        FieldsAre(lt, env, o, keys[1..], below, if r.Ok? then Set(acc, keys[0], r.v) else acc);
        if AllSettle(keys, want) {
          ExtendsOneMore(LayerFields(lt, env, o, keys, below, acc).v, keys, want, acc);
        }
      }
    }
  }

  lemma {:induction false} ObjectGives(lt: LetterTest, env: Env, o: Val, below: Option<Res>)
    requires o.Obj? && KeysMatch(o) && forall j | j in o.vals :: !LayerField(lt, env, o, j, below).Diverge?
    ensures Gives(LayerValue(lt, env, o, below), o.keys, FieldMap(lt, env, o, below))
  {
    forall i | 0 <= i < |o.keys| ensures o.keys[i] in o.vals { assert o.keys[i] in o.keys; }
    FieldsAre(lt, env, o, o.keys, below, EMPTY_OBJ);
    if AllSettle(o.keys, FieldMap(lt, env, o, below)) {
      ExtendsNothing(LayerValue(lt, env, o, below).v, o.keys, FieldMap(lt, env, o, below));
    }
  }

  lemma {:induction false} AllOk(keys: seq<string>, want: map<string, Res>)
    requires forall i | 0 <= i < |keys| :: keys[i] in want && want[keys[i]].Ok?
    ensures OkKeys(keys, want) == keys
  {
    if keys != [] {
      assert forall i | 0 <= i < |keys[1..]| :: keys[1..][i] == keys[i + 1];
      AllOk(keys[1..], want);
    }
  }

  /** Data is its own layer, whatever lies below. */
  lemma {:induction false} ConcreteLayerValue(lt: LetterTest, env: Env, v: Val, below: Option<Res>)
    requires Concrete(v)
    ensures LayerValue(lt, env, v, below) == Ok(v)
    decreases v, 1
  {
    match v
    case Scalar(_, _, _) =>
    case Arr(es) =>
      ConcreteLayers(lt, env, es, below);
      DefinedOfConcrete(es);
    case Obj(_, vals, _) =>
      ConcreteObject(lt, env, v, below);
  }

  lemma {:induction false} ConcreteObject(lt: LetterTest, env: Env, v: Val, below: Option<Res>)
    requires v.Obj? && Concrete(v)
    ensures LayerValue(lt, env, v, below) == Ok(v)
    decreases v, 0
  {
    forall j | j in v.vals ensures LayerField(lt, env, v, j, below) == Ok(v.vals[j]) {
      ConcreteLayerValue(lt, env, v.vals[j], below);
    }
    ObjectGives(lt, env, v, below);
    forall i | 0 <= i < |v.keys| ensures v.keys[i] in v.vals { assert v.keys[i] in v.keys; }
    AllOk(v.keys, FieldMap(lt, env, v, below));
    var r := LayerValue(lt, env, v, below);
    assert AllSettle(v.keys, FieldMap(lt, env, v, below));
    forall j ensures Get(r.v.vals, j) == Get(v.vals, j) { assert j in v.keys <==> j in v.vals; }
    SameMaps(r.v.vals, v.vals);
  }

  lemma {:induction false} ConcreteLayers(lt: LetterTest, env: Env, es: seq<Val>, below: Option<Res>)
    requires forall i | 0 <= i < |es| :: Concrete(es[i])
    ensures LayerValues(lt, env, es, below) == Vals(Somes(es))
    decreases es, 0
  {
    if es == [] {
      assert Somes(es) == [];
    } else {
      ConcreteLayerValue(lt, env, es[0], below);
      ConcreteLayers(lt, env, es[1..], below);
      assert Somes(es) == [Some(es[0])] + Somes(es[1..]);
    }
  }

  lemma {:induction false} ConcreteIsRaw(env: Env, v: Val, k: string)
    requires Concrete(v)
    ensures Raw(env, v, k) && Dead(v, k) && !Demands(v, k)
  {
    match v
    case Scalar(_, _, _) =>
    case Arr(es) => forall i | 0 <= i < |es| { ConcreteIsRaw(env, es[i], k); }
    case Obj(_, vals, _) => forall j | j in vals { ConcreteIsRaw(env, vals[j], k); }
  }

  lemma {:induction false} DeadDemandsNothing(v: Val, k: string)
    requires Dead(v, k)
    ensures !Demands(v, k)
  {
    match v
    case Arr(es) => forall i | 0 <= i < |es| { DeadDemandsNothing(es[i], k); }
    case Concat(ps) => forall i | 0 <= i < |ps| { DeadDemandsNothing(ps[i], k); }
    case Obj(_, vals, _) => forall j | j in vals { DeadDemandsNothing(vals[j], k); }
    case _ =>
  }

  // ---------- what does not refer to the key ----------

  lemma {:induction false} SameLayerValues(lt: LetterTest, env: Env, vs: seq<Val>, us: seq<Val>, below: Option<Res>,
                                           below': Option<Res>)
    requires |vs| == |us| && forall i | 0 <= i < |vs| ::
             LayerValue(lt, env, vs[i], below) == LayerValue(lt, env, us[i], below')
    ensures LayerValues(lt, env, vs, below) == LayerValues(lt, env, us, below')
  {
    if vs != [] {
      assert forall i | 0 <= i < |vs[1..]| :: vs[1..][i] == vs[i + 1] && us[1..][i] == us[i + 1];
      SameLayerValues(lt, env, vs[1..], us[1..], below, below');
    }
  }

  lemma {:induction false} FirmValue(lt: LetterTest, env: Env, v: Val, below: Option<Res>)
    ensures Firm(v) ==> !WantsPrior(LayerValue(lt, env, v, below))
  {
  }

  lemma {:induction false} SameFieldLayers(lt: LetterTest, env: Env, v: Val, f: Val, below: Option<Res>,
                                           below': Option<Res>)
    requires v.Obj? && f.Obj? && f.keys == v.keys && f.priors == v.priors && f.vals.Keys == v.vals.Keys
    requires forall j | j in v.vals :: LayerValue(lt, env, f.vals[j], below') == LayerValue(lt, env, v.vals[j], below)
    requires forall j | j in v.priors ::
             j in v.vals && (Firm(v.vals[j]) ||
                             LayerValue(lt, env, v.priors[j], below') == LayerValue(lt, env, v.priors[j], below))
    ensures LayerValue(lt, env, f, below') == LayerValue(lt, env, v, below)
  {
    forall i | 0 <= i < |v.keys|
      ensures LayerField(lt, env, v, v.keys[i], below) == LayerField(lt, env, f, v.keys[i], below') {
      if v.keys[i] in v.vals { FirmValue(lt, env, v.vals[v.keys[i]], below); }
    }
    SameLayerFields(lt, env, v, f, v.keys, below, below', EMPTY_OBJ);
  }

  lemma {:induction false} DeadIgnoresBelow(lt: LetterTest, env: Env, v: Val, k: string, below: Option<Res>,
                                            below': Option<Res>)
    requires Piece(env, v, k) && Dead(v, k)
    ensures LayerValue(lt, env, v, below) == LayerValue(lt, env, v, below')
  {
    match v
    case Concat(ps) =>
      forall i | 0 <= i < |ps| { DeadIgnoresBelow(lt, env, ps[i], k, below, below'); }
      SameLayerValues(lt, env, ps, ps, below, below');
    case Arr(es) =>
      forall i | 0 <= i < |es| { DeadIgnoresBelow(lt, env, es[i], k, below, below'); }
      SameLayerValues(lt, env, es, es, below, below');
    case Obj(_, vals, priors) =>
      forall j | j in vals { DeadIgnoresBelow(lt, env, vals[j], k, below, below'); }
      forall j | j in priors && !Firm(vals[j]) { DeadIgnoresBelow(lt, env, priors[j], k, below, below'); }
      SameFieldLayers(lt, env, v, v, below, below');
    case _ =>
  }

  // ---------- layers are concrete ----------

  lemma {:induction false} LayerIsConcrete(lt: LetterTest, env: Env, v: Val, k: string, below: Option<Res>)
    requires DataEnv(env) && Piece(env, v, k) && ConcreteLayer(below)
    ensures ConcreteRes(LayerValue(lt, env, v, below)) && !LayerValue(lt, env, v, below).Diverge?
    decreases v, 2
  {
    match v
    case Scalar(_, _, _) =>
    case Subst(_, _, _, _) =>
    case Obj(keys, _, _) => FieldsAreConcrete(lt, env, v, k, keys, below, EMPTY_OBJ);
    case Concat(ps) =>
      LayersAreConcrete(lt, env, ps, k, below);
      if LayerValues(lt, env, ps, below).Vals? {
        JoinIsConcrete(LayerValues(lt, env, ps, below).vs);
        JoinEnds(LayerValues(lt, env, ps, below).vs);
      }
    case Arr(es) =>
      LayersAreConcrete(lt, env, es, k, below);
      if LayerValues(lt, env, es, below).Vals? { DefinedIsConcrete(LayerValues(lt, env, es, below).vs); }
  }

  lemma {:induction false} LayersAreConcrete(lt: LetterTest, env: Env, vs: seq<Val>, k: string, below: Option<Res>)
    requires DataEnv(env) && ConcreteLayer(below) && forall i | 0 <= i < |vs| :: Piece(env, vs[i], k)
    ensures LayerValues(lt, env, vs, below).Vals? ==> ConcreteOptions(LayerValues(lt, env, vs, below).vs)
    ensures !LayerValues(lt, env, vs, below).SeqDiverge?
    decreases vs, 0
  {
    if vs != [] {
      LayerIsConcrete(lt, env, vs[0], k, below);
      LayersAreConcrete(lt, env, vs[1..], k, below);
    }
  }

  lemma {:induction false} FieldIsConcrete(lt: LetterTest, env: Env, o: Val, k: string, j: string, below: Option<Res>)
    requires DataEnv(env) && o.Obj? && Piece(env, o, k) && ConcreteLayer(below)
    ensures ConcreteRes(LayerField(lt, env, o, j, below)) && !LayerField(lt, env, o, j, below).Diverge?
    decreases o, 0
  {
    if j in o.vals { LayerIsConcrete(lt, env, o.vals[j], k, below); }
    var r := if j in o.vals then LayerValue(lt, env, o.vals[j], below) else Absent;
    if WantsPrior(r) && j in o.priors {
      LayerIsConcrete(lt, env, o.priors[j], k, below);
      SettleIsConcrete(lt, r, LayerValue(lt, env, o.priors[j], below));
    }
  }

  lemma {:induction false} FieldsAreConcrete(lt: LetterTest, env: Env, o: Val, k: string, keys: seq<string>,
                                             below: Option<Res>, acc: Val)
    requires DataEnv(env) && o.Obj? && Piece(env, o, k) && ConcreteLayer(below) && acc.Obj? && Concrete(acc)
    ensures var r := LayerFields(lt, env, o, keys, below, acc); ConcreteRes(r) && !r.Diverge? && !r.Absent?
    decreases o, 1, |keys|
  {
    if keys != [] {
      FieldIsConcrete(lt, env, o, k, keys[0], below);
      var r := LayerField(lt, env, o, keys[0], below);
      if r.Ok? { SetIsConcrete(acc, keys[0], r.v); }
      if Settles(r) {
        FieldsAreConcrete(lt, env, o, k, keys[1..], below, if r.Ok? then Set(acc, keys[0], r.v) else acc);
      }
    }
  }

  lemma {:induction false} LaidOverIsConcrete(lt: LetterTest, r: Res, below: Option<Res>)
    requires ConcreteRes(r) && !r.Diverge? && ConcreteLayer(below)
    ensures ConcreteRes(LaidOver(lt, r, below)) && !LaidOver(lt, r, below).Diverge?
  {
    if below.Some? && WantsPrior(r) {
      SettleIsConcrete(lt, r, below.value);
    }
  }
}
