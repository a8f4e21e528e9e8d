/**
 How large a value is.  Folding a value against a prior puts the prior inside it, so
 the two are the same only when the value is the reference itself.
 */
module Weights {
  import opened Paths
  import opened Values
  import opened Fold
  import opened Layers
  import opened Chains

  // ---------- sums ----------

  ghost function Weight(v: Val): (n: nat)
    ensures n > 0
    decreases v, 1
  {
    match v
    case Scalar(_, _, _) => 1
    case Subst(_, _, _, _) => 1
    case Arr(es) => 1 + Weights(es)
    case Concat(ps) => 1 + Weights(ps)
    case Obj(keys, _, _) => 1 + FieldWeights(v, keys)
  }

  ghost function Weights(vs: seq<Val>): nat
    decreases vs, 0
  {
    if vs == [] then 0 else Weight(vs[0]) + Weights(vs[1..])
  }

  ghost function FieldWeights(o: Val, keys: seq<string>): nat
    requires o.Obj?
    decreases o, 0, |keys|
  {
    if keys == [] then 0 else (if keys[0] in o.vals then Weight(o.vals[keys[0]]) else 0) + FieldWeights(o, keys[1..])
  }

  lemma {:induction false} OneOfThem(vs: seq<Val>, i: nat)
    requires i < |vs|
    ensures Weight(vs[i]) <= Weights(vs)
  {
    if i > 0 { OneOfThem(vs[1..], i - 1); }
  }

  lemma {:induction false} OneField(o: Val, keys: seq<string>, j: string)
    requires o.Obj? && j in keys && j in o.vals
    ensures Weight(o.vals[j]) <= FieldWeights(o, keys)
    decreases |keys|
  {
    if keys[0] != j { OneField(o, keys[1..], j); }
  }

  lemma {:induction false} NoLighter(vs: seq<Val>, us: seq<Val>)
    requires |vs| == |us| && forall i | 0 <= i < |vs| :: Weight(vs[i]) <= Weight(us[i])
    ensures Weights(vs) <= Weights(us)
  {
    if vs != [] {
      assert forall i | 0 <= i < |vs[1..]| :: vs[1..][i] == vs[i + 1] && us[1..][i] == us[i + 1];
      NoLighter(vs[1..], us[1..]);
    }
  }

  lemma {:induction false} NoLighterFields(o: Val, p: Val, keys: seq<string>)
    requires o.Obj? && p.Obj? && o.vals.Keys == p.vals.Keys && forall j | j in o.vals ::
             Weight(o.vals[j]) <= Weight(p.vals[j])
    ensures FieldWeights(o, keys) <= FieldWeights(p, keys)
    decreases |keys|
  {
    if keys != [] { NoLighterFields(o, p, keys[1..]); }
  }

  // ---------- folding ----------

  /** f is v with p in place of its references to k. */
  ghost predicate Heavier(f: Val, v: Val, k: string, p: Val) {
    && Weight(v) <= Weight(f) && (!Dead(v, k) ==> Weight(p) <= Weight(f))
    && (!Dead(v, k) && !Bare(v, k) ==> Weight(p) < Weight(f))
  }

  lemma {:induction false} FoldWeighs(lt: LetterTest, env: Env, v: Val, k: string, p: Val, stack: bool)
    requires Unfolded(env, v, k)
    ensures Heavier(FoldSelfRef(lt, v, KeyOf(lt, [k]), Some(p), stack).v, v, k, p)
  {
    var key := KeyOf(lt, [k]);
    match v
    case Scalar(_, _, _) =>
    case Subst(_, segs, _, _) => NoRemainder(lt, segs, k);
    case Concat(ps) =>
      forall i | 0 <= i < |ps| { FoldWeighs(lt, env, ps[i], k, p, stack); }
      PartsWeigh(lt, v, ps, k, p, stack);
    case Arr(es) =>
      forall i | 0 <= i < |es| { FoldWeighs(lt, env, es[i], k, p, stack); }
      PartsWeigh(lt, v, es, k, p, stack);
    case Obj(_, vals, _) =>
      forall j | j in vals { FoldWeighs(lt, env, vals[j], k, p, false); }
      ObjectWeighs(lt, v, k, p, stack);
  }

  lemma {:induction false} PartsWeigh(lt: LetterTest, v: Val, vs: seq<Val>, k: string, p: Val, stack: bool)
    requires v == Concat(vs) || v == Arr(vs)
    requires forall i | 0 <= i < |vs| :: Heavier(FoldSelfRef(lt, vs[i], KeyOf(lt, [k]), Some(p), stack).v, vs[i], k, p)
    ensures Heavier(FoldSelfRef(lt, v, KeyOf(lt, [k]), Some(p), stack).v, v, k, p)
  {
    var key := KeyOf(lt, [k]);
    var us := seq(|vs|, i requires 0 <= i < |vs| => FoldSelfRef(lt, vs[i], key, Some(p), stack).v);
    FoldedParts(lt, v, vs, key, p, stack);
    NoLighter(vs, us);
    if !Dead(v, k) {
      var i :| 0 <= i < |vs| && !Dead(vs[i], k);
      assert Heavier(us[i], vs[i], k, p);
      OneOfThem(us, i);
    }
  }

  lemma {:induction false} ObjectWeighs(lt: LetterTest, v: Val, k: string, p: Val, stack: bool)
    requires v.Obj? && KeysMatch(v) && forall j | j in v.vals ::
             Heavier(FoldSelfRef(lt, v.vals[j], KeyOf(lt, [k]), Some(p), false).v, v.vals[j], k, p)
    ensures Heavier(FoldSelfRef(lt, v, KeyOf(lt, [k]), Some(p), stack).v, v, k, p)
  {
    var key := KeyOf(lt, [k]);
    var f := FoldSelfRef(lt, v, key, Some(p), stack).v;
    FoldedObj(lt, v, key, p, stack);
    NoLighterFields(v, f, v.keys);
    if !Dead(v, k) {
      var j :| j in v.vals && !Dead(v.vals[j], k);
      assert Heavier(f.vals[j], v.vals[j], k, p) && j in v.keys;
      OneField(f, f.keys, j);
    }
  }

  /** Folding to absent changes no weight. */
  lemma {:induction false} AbsentWeighs(lt: LetterTest, v: Val, key: string, stack: bool)
    requires FoldAbsent(lt, v, key, stack).Some?
    ensures Weight(FoldAbsent(lt, v, key, stack).value) == Weight(v)
  {
    var f := FoldAbsent(lt, v, key, stack).value;
    match v
    case Concat(ps) =>
      forall i | 0 <= i < |ps| { AbsentWeighs(lt, ps[i], key, stack); }
      NoLighter(f.parts, ps);
      NoLighter(ps, f.parts);
    case Arr(es) =>
      forall i | 0 <= i < |es| { AbsentWeighs(lt, es[i], key, stack); }
      NoLighter(f.elems, es);
      NoLighter(es, f.elems);
    case Obj(_, vals, _) =>
      forall j | j in vals { AbsentWeighs(lt, vals[j], key, false); }
      NoLighterFields(f, v, v.keys);
      NoLighterFields(v, f, v.keys);
    case _ =>
  }

  /** A folded value that refers to the key is its prior only if it is the reference. */
  lemma {:induction false} FoldIsPrior(lt: LetterTest, env: Env, v: Val, k: string, p: Val)
    requires Unfolded(env, v, k) && !Dead(v, k)
    ensures FoldSelfRef(lt, v, KeyOf(lt, [k]), Some(p), true).v == p <==> Bare(v, k)
  {
    FoldWeighs(lt, env, v, k, p, true);
  }
}
