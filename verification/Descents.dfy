/**
 References below the key they are assigned to, `k = ${k.x}`: what they come to
 over an earlier value of the key, and that saving them for the next assignment
 does not change it (foldOrSkipPrior and foldPrefixSelfRef in phase 1, the lookback
 below the field being resolved and finishField in phase 2).
 */
module Descents {
  import opened Paths
  import opened Values
  import opened Fold
  import opened Merge
  import opened MergeLaws
  import opened Concats
  import opened Resolve
  import opened Reaching
  import ResolveLaws

  // ---------- laying a value over an earlier one ----------

  /** Data over data: objects are merged, the later one winning, anything else
      hides what lies below. */
  function Over(top: Val, base: Val): Val {
    if top.Obj? && base.Obj? then MergeObjectConcat(base, top) else top
  }

  lemma {:induction false} OverIsConcrete(top: Val, base: Val)
    requires Concrete(top) && Concrete(base)
    ensures Concrete(Over(top, base))
  {
    if top.Obj? && base.Obj? { ConcatIsConcrete(base, top); }
  }

  lemma {:induction false} SettlesOver(lt: LetterTest, top: Val, base: Val)
    requires Concrete(top) && Concrete(base) && top.Obj?
    ensures var r := Settle(lt, Ok(top), Ok(base)); r.Ok? && Reordered(r.v, Over(top, base))
  {
    if base.Obj? {
      DeepMergeIsConcat(lt, top, base, []);
    } else {
      ReorderedItself(top);
    }
  }

  lemma {:induction false} SettlesAbsent(lt: LetterTest, r: Res, top: Val)
    ensures Settle(lt, Absent, r) == r
    ensures top.Obj? ==> Settle(lt, Ok(top), Absent) == Ok(top) && Settle(lt, Ok(top), Fail) == Fail
  {
  }

  /** A field of data over a prior of data. */
  lemma {:induction false} DataOverPrior(c: Ctx, fuel: nat, o: Val, k: string)
    requires o.Obj? && k in o.vals && k in o.priors && Concrete(o.vals[k]) && Concrete(o.priors[k])
    ensures var r := ResolveField(c, fuel, o, k); r.Ok? && Reordered(r.v, Over(o.vals[k], o.priors[k]))
  {
    var c' := c.(field := c.field + [k]);
    ResolveLaws.ConcreteResolvesToItself(c', fuel, o.vals[k]);
    ResolveLaws.ConcreteResolvesToItself(c', fuel, o.priors[k]);
    if o.vals[k].Obj? {
      SettlesOver(c.lt, o.vals[k], o.priors[k]);
    } else {
      ReorderedItself(o.vals[k]);
    }
  }

  // ---------- what a descent comes to ----------

  /** A live reference below a path. */
  predicate Below(s: Val, path: seq<string>) {
    s.Subst? && !s.knownAbsent && path < s.segs
  }

  function Remainder(s: Val, path: seq<string>): seq<string>
    requires Below(s, path)
  {
    s.segs[|path|..]
  }

  /** Over an earlier value p of the field: what p has at the remaining path, laid
      over p; where p has nothing, p itself, or an error when it is required. */
  ghost predicate ComesTo(s: Val, path: seq<string>, p: Val, r: Res)
    requires Below(s, path)
  {
    && (forall vs | Trail(Remainder(s, path), vs) && vs[0] == p ::
          r.Ok? && Reordered(r.v, Over(vs[|vs| - 1], p)))
    && (forall vs, i | DeadEnd(Remainder(s, path), vs, i) && vs[0] == p :: r == if s.optional then Ok(p) else Fail)
  }

  // ---------- phase 2 ----------

  /** The field at the path is being resolved for the first time, and its prior is p. */
  predicate At(c: Ctx, path: seq<string>, p: Val) {
    c.field == path && path != [] && KeyOf(c.lt, path) !in c.guards && FindPrior(c, path, KeyOf(c.lt, path)) == Some(p)
  }

  lemma {:induction false} DescentLooksBelow(c: Ctx, s: Val, path: seq<string>, p: Val)
    requires Below(s, path) && At(c, path, p)
    ensures LooksBelow(c, s)
  {
    assert s.segs[..|path|] == path;
  }

  lemma {:induction false} DescentFinds(c: Ctx, fuel: nat, s: Val, path: seq<string>, p: Val, vs: seq<Val>)
    requires Below(s, path) && At(c, path, p) && Concrete(p) && fuel > 0
    requires Trail(Remainder(s, path), vs) && vs[0] == p
    ensures ResolveVal(c, fuel, s) == Ok(vs[|vs| - 1])
  {
    DescentLooksBelow(c, s, path, p);
    ResolveLaws.ConcreteResolvesToItself(c.(guards := c.guards + {KeyOf(c.lt, path)}), fuel - 1, p);
    NavigateFinds(Remainder(s, path), vs);
    assert ResolveSubst(c, fuel, s) == ResolveBelow(c, fuel, s);
  }

  lemma {:induction false} DescentMisses(c: Ctx, fuel: nat, s: Val, path: seq<string>, p: Val, vs: seq<Val>, i: nat)
    requires Below(s, path) && At(c, path, p) && Concrete(p) && fuel > 0
    requires DeadEnd(Remainder(s, path), vs, i) && vs[0] == p
    ensures ResolveVal(c, fuel, s) == if s.optional then Absent else Fail
  {
    DescentLooksBelow(c, s, path, p);
    ResolveLaws.ConcreteResolvesToItself(c.(guards := c.guards + {KeyOf(c.lt, path)}), fuel - 1, p);
    NavigateStops(Remainder(s, path), vs, i);
    assert ResolveSubst(c, fuel, s) == ResolveBelow(c, fuel, s);
  }

  /** The context in which a field is resolved. */
  function Inside(c: Ctx, k: string): Ctx {
    c.(field := c.field + [k])
  }

  lemma {:induction false} FieldFinds(c: Ctx, fuel: nat, o: Val, k: string, vs: seq<Val>)
    requires o.Obj? && k in o.vals && k in o.priors && Concrete(o.priors[k]) && fuel > 0
    requires Below(o.vals[k], Inside(c, k).field) && At(Inside(c, k), Inside(c, k).field, o.priors[k])
    requires Trail(Remainder(o.vals[k], Inside(c, k).field), vs) && vs[0] == o.priors[k]
    ensures var r := ResolveField(c, fuel, o, k); r.Ok? && Reordered(r.v, Over(vs[|vs| - 1], o.priors[k]))
  {
    var c', p, w := Inside(c, k), o.priors[k], vs[|vs| - 1];
    DescentFinds(c', fuel, o.vals[k], c'.field, p, vs);
    TrailIsConcrete(Remainder(o.vals[k], c'.field), vs, |vs| - 1);
    ResolveLaws.ConcreteResolvesToItself(c', fuel, p);
    if w.Obj? {
      SettlesOver(c.lt, w, p);
    } else {
      ReorderedItself(w);
    }
  }

  /** Phase 2: a field that refers below itself, its earlier value saved beside it. */
  lemma {:induction false} DescentResolves(c: Ctx, fuel: nat, o: Val, k: string)
    requires o.Obj? && k in o.vals && k in o.priors && Concrete(o.priors[k]) && fuel > 0
    requires Below(o.vals[k], Inside(c, k).field) && At(Inside(c, k), Inside(c, k).field, o.priors[k])
    ensures ComesTo(o.vals[k], Inside(c, k).field, o.priors[k], ResolveField(c, fuel, o, k))
  {
    var c', s, p := Inside(c, k), o.vals[k], o.priors[k];
    forall vs | Trail(Remainder(s, c'.field), vs) && vs[0] == p
      ensures var r := ResolveField(c, fuel, o, k); r.Ok? && Reordered(r.v, Over(vs[|vs| - 1], p)) {
      FieldFinds(c, fuel, o, k, vs);
    }
    forall vs, i | DeadEnd(Remainder(s, c'.field), vs, i) && vs[0] == p
      ensures ResolveField(c, fuel, o, k) == if s.optional then Ok(p) else Fail {
      DescentMisses(c', fuel, s, c'.field, p, vs, i);
      ResolveLaws.ConcreteResolvesToItself(c', fuel, p);
    }
  }

  // ---------- phase 1 ----------

  lemma {:induction false} RemainderOf(lt: LetterTest, s: Val, path: seq<string>)
    requires path != [] && Below(s, path)
    ensures PrefixRemainder(lt, s.segs, KeyOf(lt, path)) == Some(Remainder(s, path))
    ensures KeyOf(lt, s.segs) != KeyOf(lt, path)
  {
    RemainderIsExact(lt, s.segs, path);
    KeysNeverCollide(lt, s.segs, path);
  }

  lemma {:induction false} SavesFound(lt: LetterTest, s: Val, path: seq<string>, p: Val, vs: seq<Val>)
    requires path != [] && Below(s, path) && Concrete(p) && Trail(Remainder(s, path), vs) && vs[0] == p
    ensures FoldOrSkip(lt, s, KeyOf(lt, path), Some(p)) == Some(Over(vs[|vs| - 1], p))
  {
    var rem := Remainder(s, path);
    RemainderOf(lt, s, path);
    NavigateFinds(rem, vs);
    TrailIsConcrete(rem, vs, |rem|);
    assert FieldIs(vs[0], rem[0], vs[1]);
    if vs[|rem|].Obj? { PriorLayersIsConcat(p, vs[|rem|]); }
  }

  /** An optional reference to nothing leaves the earlier value, a required one is
      marked. */
  lemma {:induction false} SavesMissing(lt: LetterTest, s: Val, path: seq<string>, p: Val, vs: seq<Val>, i: nat)
    requires path != [] && Below(s, path) && Concrete(p) && DeadEnd(Remainder(s, path), vs, i) && vs[0] == p
    ensures FoldOrSkip(lt, s, KeyOf(lt, path), Some(p)) == Some(if s.optional then p else s.(knownAbsent := true))
  {
    var rem := Remainder(s, path);
    RemainderOf(lt, s, path);
    NavigateStops(rem, vs, i);
    TrailIsConcrete(rem[..i], vs, i);
  }

  lemma {:induction false} SavesOverNothing(lt: LetterTest, s: Val, path: seq<string>)
    requires path != [] && Below(s, path)
    ensures FoldOrSkip(lt, s, KeyOf(lt, path), None) == if s.optional then Some(s.(knownAbsent := true)) else None
  {
    RemainderOf(lt, s, path);
  }

  /** Phase 1: the prior saved for such a field comes to what the field would. */
  lemma {:induction false} SavedDescent(c: Ctx, fuel: nat, s: Val, path: seq<string>, p: Val)
    requires path != [] && Below(s, path) && Concrete(p)
    ensures var saved := FoldOrSkip(c.lt, s, KeyOf(c.lt, path), Some(p));
            saved.Some? && ComesTo(s, path, p, ResolveVal(c, fuel, saved.value))
  {
    var rem := Remainder(s, path);
    var saved := FoldOrSkip(c.lt, s, KeyOf(c.lt, path), Some(p));
    forall vs | Trail(rem, vs) && vs[0] == p
      ensures saved.Some?
      ensures var r := ResolveVal(c, fuel, saved.value); r.Ok? && Reordered(r.v, Over(vs[|vs| - 1], p)) {
      SavesFound(c.lt, s, path, p, vs);
      TrailIsConcrete(rem, vs, |rem|);
      OverIsConcrete(vs[|rem|], p);
      ResolveLaws.ConcreteResolvesToItself(c, fuel, Over(vs[|rem|], p));
      ReorderedItself(Over(vs[|rem|], p));
    }
    forall vs, i | DeadEnd(rem, vs, i) && vs[0] == p
      ensures saved.Some? && ResolveVal(c, fuel, saved.value) == if s.optional then Ok(p) else Fail {
      SavesMissing(c.lt, s, path, p, vs, i);
      ResolveLaws.ConcreteResolvesToItself(c, fuel, p);
    }
    var vs := Leads(p, rem);
  }

  /** The merged layers keep the priors of both, the upper one's where both have one. */
  lemma {:induction false} LayersKeepPriors(base: Val, top: Val, k: string)
    requires base.Obj? && top.Obj?
    ensures Get(MergePriorLayers(base, top).priors, k) ==
            if Get(top.priors, k).Some? then Get(top.priors, k) else Get(base.priors, k)
  {
  }

  // ---------- descents among other pieces ----------

  /** Scalars and references below the path, in arrays and concatenations. */
  predicate Descending(v: Val, path: seq<string>) {
    match v
    case Scalar(_, _, _) => true
    case Subst(_, _, _, _) => Below(v, path)
    case Arr(es) => forall i | 0 <= i < |es| :: Descending(es[i], path)
    case Concat(ps) => forall i | 0 <= i < |ps| :: Descending(ps[i], path)
    case Obj(_, _, _) => false
  }

  lemma {:induction false} SameAll(c: Ctx, fuel: nat, vs: seq<Val>, ws: seq<Val>)
    requires |vs| == |ws| && forall i | 0 <= i < |vs| :: ResolveVal(c, fuel, vs[i]) == ResolveVal(c, fuel, ws[i])
    ensures ResolveAll(c, fuel, vs) == ResolveAll(c, fuel, ws)
  {
    if vs != [] {
      assert vs[0] == vs[0] && ResolveVal(c, fuel, vs[0]) == ResolveVal(c, fuel, ws[0]);
      forall i | 0 <= i < |vs[1..]| ensures ResolveVal(c, fuel, vs[1..][i]) == ResolveVal(c, fuel, ws[1..][i]) {
        assert vs[1..][i] == vs[i + 1] && ws[1..][i] == ws[i + 1];
      }
      SameAll(c, fuel, vs[1..], ws[1..]);
    }
  }

  function FoldedVal(lt: LetterTest, v: Val, path: seq<string>, p: Val): Val {
    FoldSelfRef(lt, v, KeyOf(lt, path), Some(p), true).v
  }

  lemma {:induction false} FoldsFound(lt: LetterTest, s: Val, path: seq<string>, p: Val, vs: seq<Val>)
    requires path != [] && Below(s, path) && Trail(Remainder(s, path), vs) && vs[0] == p
    ensures FoldedVal(lt, s, path, p) == vs[|vs| - 1]
  {
    RemainderOf(lt, s, path);
    NavigateFinds(Remainder(s, path), vs);
  }

  lemma {:induction false} FoldsMissing(lt: LetterTest, s: Val, path: seq<string>, p: Val, vs: seq<Val>, i: nat)
    requires path != [] && Below(s, path) && Concrete(p) && DeadEnd(Remainder(s, path), vs, i) && vs[0] == p
    ensures FoldedVal(lt, s, path, p) == s.(knownAbsent := true)
  {
    RemainderOf(lt, s, path);
    NavigateStops(Remainder(s, path), vs, i);
    TrailIsConcrete(Remainder(s, path)[..i], vs, i);
  }

  lemma {:induction false} FoldedDescent(c: Ctx, fuel: nat, s: Val, path: seq<string>, p: Val)
    requires Below(s, path) && At(c, path, p) && Concrete(p) && fuel > 0
    ensures ResolveVal(c, fuel, FoldedVal(c.lt, s, path, p)) == ResolveVal(c, fuel, s)
  {
    var rem := Remainder(s, path);
    var vs := Leads(p, rem);
    if Trail(rem, vs) {
      FoldsFound(c.lt, s, path, p, vs);
      DescentFinds(c, fuel, s, path, p, vs);
      TrailIsConcrete(rem, vs, |rem|);
      ResolveLaws.ConcreteResolvesToItself(c, fuel, vs[|rem|]);
    } else {
      FoldsMissing(c.lt, s, path, p, vs, |vs| - 1);
      DescentMisses(c, fuel, s, path, p, vs, |vs| - 1);
    }
  }

  lemma {:induction false} FoldedParts(c: Ctx, fuel: nat, ps: seq<Val>, path: seq<string>, p: Val)
    requires At(c, path, p) && Concrete(p) && fuel > 0 && forall i | 0 <= i < |ps| :: Descending(ps[i], path)
    ensures var qs := seq(|ps|, i requires 0 <= i < |ps| => FoldedVal(c.lt, ps[i], path, p));
            ResolveAll(c, fuel, qs) == ResolveAll(c, fuel, ps)
    decreases ps, 0
  {
    var qs := seq(|ps|, i requires 0 <= i < |ps| => FoldedVal(c.lt, ps[i], path, p));
    forall i | 0 <= i < |ps| ensures ResolveVal(c, fuel, qs[i]) == ResolveVal(c, fuel, ps[i]) {
      FoldedMeans(c, fuel, ps[i], path, p);
    }
    SameAll(c, fuel, qs, ps);
  }

  /** Folding such a value against p does not change what it comes to over p. */
  lemma {:induction false} FoldedMeans(c: Ctx, fuel: nat, v: Val, path: seq<string>, p: Val)
    requires Descending(v, path) && At(c, path, p) && Concrete(p) && fuel > 0
    ensures ResolveVal(c, fuel, FoldedVal(c.lt, v, path, p)) == ResolveVal(c, fuel, v)
    decreases v, 1
  {
    var f := FoldSelfRef(c.lt, v, KeyOf(c.lt, path), Some(p), true);
    match v
    case Scalar(_, _, _) =>
    case Subst(_, _, _, _) => FoldedDescent(c, fuel, v, path, p);
    case Arr(es) =>
      FoldedParts(c, fuel, es, path, p);
      if f.hit { assert f.v == Arr(seq(|es|, i requires 0 <= i < |es| => FoldedVal(c.lt, es[i], path, p))); }
    case Concat(ps) =>
      FoldedParts(c, fuel, ps, path, p);
      if f.hit { assert f.v == Concat(seq(|ps|, i requires 0 <= i < |ps| => FoldedVal(c.lt, ps[i], path, p))); }
  }

  /** Inside an object a reference below the key is no self-reference. */
  lemma {:induction false} InsideObjectsStays(lt: LetterTest, s: Val, path: seq<string>, r: Option<Val>)
    requires path != [] && Below(s, path)
    ensures FoldSelfRef(lt, s, KeyOf(lt, path), r, false) == Folded(s, false)
  {
    RemainderOf(lt, s, path);
  }
}
