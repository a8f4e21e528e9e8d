/**
 Values that are equal, or equal but for the order of the fields in their objects.
 What lies below a value may be exchanged for such another one.
 */
module Likeness {
  import opened Paths
  import opened Values
  import opened Merge
  import opened Concats
  import opened Resolve
  import opened ResolveLaws
  import opened Reordering
  import opened Layers

  ghost predicate LikeVal(strict: bool, a: Val, b: Val) {
    if strict then a == b else Reordered(a, b)
  }

  ghost predicate LikeOption(strict: bool, a: Option<Val>, b: Option<Val>) {
    (a.Some? <==> b.Some?) && (a.Some? ==> LikeVal(strict, a.value, b.value))
  }

  ghost predicate LikeRes(strict: bool, a: Res, b: Res) {
    if a.Ok? then b.Ok? && LikeVal(strict, a.v, b.v) else a == b
  }

  ghost predicate LikeLayer(strict: bool, a: Option<Res>, b: Option<Res>) {
    (a.Some? <==> b.Some?) && (a.Some? ==> LikeRes(strict, a.value, b.value))
  }

  lemma {:induction false} LikeItself(strict: bool, a: Val)
    ensures LikeVal(strict, a, a)
  {
    ReorderedItself(a);
  }

  lemma {:induction false} LikeBoth(strict: bool, a: Val, b: Val, c: Val)
    requires LikeVal(strict, a, b) && LikeVal(strict, b, c)
    ensures LikeVal(strict, a, c)
  {
    if !strict { ReorderedTransitive(a, b, c); }
  }

  lemma {:induction false} LikeObject(strict: bool, a: Val, b: Val)
    requires a.Obj? && b.Obj? && a.priors == map[] && b.priors == map[] && (strict ==> a.keys == b.keys)
    requires forall j :: LikeOption(strict, Get(a.vals, j), Get(b.vals, j))
    ensures LikeVal(strict, a, b)
  {
    if strict {
      forall j ensures Get(a.vals, j) == Get(b.vals, j) { assert LikeOption(strict, Get(a.vals, j), Get(b.vals, j)); }
      SameMaps(a.vals, b.vals);
    } else {
      forall j ensures j in a.vals <==> j in b.vals { assert LikeOption(strict, Get(a.vals, j), Get(b.vals, j)); }
      forall j | j in a.vals ensures Reordered(a.vals[j], b.vals[j]) {
        assert LikeOption(strict, Get(a.vals, j), Get(b.vals, j));
      }
    }
  }

  lemma {:induction false} LikeMerge(lt: LetterTest, strict: bool, a: Val, b: Val, c: Val, d: Val)
    requires a.Obj? && c.Obj? && b.Obj? && d.Obj? && LikeVal(strict, a, b) && LikeVal(strict, c, d)
    requires Concrete(a) && Concrete(b) && Concrete(c) && Concrete(d)
    ensures LikeVal(strict, DeepMerge(lt, a, c), DeepMerge(lt, b, d))
  {
    if !strict { DeepReordered(lt, a, b, c, d); }
  }

  // ---------- what lies below ----------

  ghost predicate LikeLayers(a: Option<Res>, b: Option<Res>) {
    LikeLayer(false, a, b) && ConcreteLayer(a) && ConcreteLayer(b)
  }

  lemma {:induction false} ValueLike(lt: LetterTest, env: Env, v: Val, k: string, a: Option<Res>, b: Option<Res>)
    requires DataEnv(env) && Piece(env, v, k) && LikeLayers(a, b)
    ensures SameRes(LayerValue(lt, env, v, a), LayerValue(lt, env, v, b))
    decreases v, 2
  {
    match v
    case Scalar(_, _, _) => ReorderedItself(v);
    case Subst(_, segs, _, _) => if Foreign(env, segs) && env[segs[0]].Some? { ReorderedItself(env[segs[0]].value); }
    case Obj(_, _, _) => ObjectLike(lt, env, v, k, a, b);
    case Concat(ps) =>
      ValuesLike(lt, env, ps, k, a, b);
      if LayerValues(lt, env, ps, a).Vals? {
        JoinReordered(LayerValues(lt, env, ps, a).vs, LayerValues(lt, env, ps, b).vs);
      }
    case Arr(es) =>
      ValuesLike(lt, env, es, k, a, b);
      if LayerValues(lt, env, es, a).Vals? {
        ArraysLike(LayerValues(lt, env, es, a).vs, LayerValues(lt, env, es, b).vs);
      }
  }

  lemma {:induction false} ArraysLike(vs: seq<Option<Val>>, us: seq<Option<Val>>)
    requires SameOptions(vs, us)
    ensures SameRes(Ok(Arr(Defined(vs))), Ok(Arr(Defined(us))))
  {
    DefinedReordered(vs, us);
  }

  ghost predicate SameSeq(a: SeqRes, b: SeqRes) {
    if a.Vals? then b.Vals? && SameOptions(a.vs, b.vs) else a == b && !a.SeqDiverge?
  }

  lemma {:induction false} SameOneMore(x: Res, y: Res, a: seq<Option<Val>>, b: seq<Option<Val>>)
    requires SameRes(x, y) && SameOptions(a, b)
    ensures SameOptions([OptionOf(x)] + a, [OptionOf(y)] + b)
  {
  }

  lemma {:induction false} ValuesLike(lt: LetterTest, env: Env, vs: seq<Val>, k: string, a: Option<Res>, b: Option<Res>)
    requires DataEnv(env) && LikeLayers(a, b) && forall i | 0 <= i < |vs| :: Piece(env, vs[i], k)
    ensures SameSeq(LayerValues(lt, env, vs, a), LayerValues(lt, env, vs, b))
    decreases vs, 0
  {
    if vs != [] {
      ValueLike(lt, env, vs[0], k, a, b);
      ValuesLike(lt, env, vs[1..], k, a, b);
      var x, y := LayerValues(lt, env, vs[1..], a), LayerValues(lt, env, vs[1..], b);
      if x.Vals? { SameOneMore(LayerValue(lt, env, vs[0], a), LayerValue(lt, env, vs[0], b), x.vs, y.vs); }
    }
  }

  lemma {:induction false} FieldLike(lt: LetterTest, env: Env, o: Val, k: string, j: string, a: Option<Res>,
                                     b: Option<Res>)
    requires DataEnv(env) && o.Obj? && Piece(env, o, k) && LikeLayers(a, b) && j in o.vals
    ensures SameRes(LayerField(lt, env, o, j, a), LayerField(lt, env, o, j, b))
    decreases o, 0
  {
    ValueLike(lt, env, o.vals[j], k, a, b);
    FirmValue(lt, env, o.vals[j], a);
    if j in o.priors && !Firm(o.vals[j]) {
      ValueLike(lt, env, o.priors[j], k, a, b);
      var x, y := LayerValue(lt, env, o.vals[j], a), LayerValue(lt, env, o.vals[j], b);
      if WantsPrior(x) {
        SettleReordered(lt, x, y, LayerValue(lt, env, o.priors[j], a), LayerValue(lt, env, o.priors[j], b));
      }
    } else {
      FirmValue(lt, env, o.vals[j], b);
    }
  }

  lemma {:induction false} ObjectLike(lt: LetterTest, env: Env, o: Val, k: string, a: Option<Res>, b: Option<Res>)
    requires DataEnv(env) && o.Obj? && Piece(env, o, k) && LikeLayers(a, b)
    ensures SameRes(LayerValue(lt, env, o, a), LayerValue(lt, env, o, b))
    decreases o, 1
  {
    forall j | j in o.vals ensures SameRes(LayerField(lt, env, o, j, a), LayerField(lt, env, o, j, b)) {
      FieldLike(lt, env, o, k, j, a, b);
    }
    ObjectGives(lt, env, o, a);
    ObjectGives(lt, env, o, b);
    LayerIsConcrete(lt, env, o, k, a);
    LayerIsConcrete(lt, env, o, k, b);
    SameGiven(o.keys, FieldMap(lt, env, o, a), FieldMap(lt, env, o, b), LayerValue(lt, env, o, a),
              LayerValue(lt, env, o, b));
  }

  lemma {:induction false} SameGiven(keys: seq<string>, want: map<string, Res>, other: map<string, Res>, r: Res, s: Res)
    requires Gives(r, keys, want) && Gives(s, keys, other) && ConcreteRes(r) && ConcreteRes(s)
    requires want.Keys == other.Keys && forall j | j in want :: SameRes(want[j], other[j])
    ensures SameRes(r, s)
  {
    assert AllSettle(keys, want) <==> AllSettle(keys, other);
    if AllSettle(keys, want) {
      forall j ensures LikeOption(false, Get(r.v.vals, j), Get(s.v.vals, j)) { }
      LikeObject(false, r.v, s.v);
    }
  }

  /** A value over layers that are alike. */
  lemma {:induction false} LayerLike(lt: LetterTest, env: Env, v: Val, k: string, strict: bool, a: Option<Res>,
                                     b: Option<Res>)
    requires DataEnv(env) && Piece(env, v, k) && LikeLayer(strict, a, b) && ConcreteLayer(a) && ConcreteLayer(b)
    ensures LikeRes(strict, LayerValue(lt, env, v, a), LayerValue(lt, env, v, b))
  {
    if !strict { ValueLike(lt, env, v, k, a, b); }
  }

  lemma {:induction false} LaidOverLike(lt: LetterTest, strict: bool, r: Res, s: Res, a: Option<Res>, b: Option<Res>)
    requires LikeRes(strict, r, s) && LikeLayer(strict, a, b) && ConcreteLayer(a) && ConcreteLayer(b)
    requires ConcreteRes(r) && ConcreteRes(s) && !r.Diverge?
    ensures LikeRes(strict, LaidOver(lt, r, a), LaidOver(lt, s, b))
  {
    if !strict && a.Some? && WantsPrior(r) { SettleReordered(lt, r, s, a.value, b.value); }
  }
}
