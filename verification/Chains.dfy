/**
 Phase 1 followed by phase 2 on top-level keys of one segment, any number of
 assignments to each: what the code computes, and when that is the layer-by-layer
 evaluation of the assignments.
 */
module Chains {
  import opened Paths
  import opened Values
  import opened Fold
  import opened Merge
  import opened MergeLaws
  import opened Concats
  import opened Resolve
  import opened Assignments
  import opened Layers
  import opened Likeness
  import opened Joins
  import opened Walks

  // ---------- what the code computes on one chain ----------

  /** The value phase 1 stores: object literals in a row are merged at once. */
  function Stored(lt: LetterTest, k: string, vs: seq<Val>): Val
    requires vs != []
    decreases |vs|
  {
    var v := vs[|vs| - 1];
    if |vs| == 1 then v
    else
      var e := Stored(lt, k, vs[..|vs| - 1]);
      if e.Obj? && v.Obj? then DeepMergeAt(lt, v, e, [k], true) else v
  }

  /** The last assignment is merged with the value before it at once. */
  predicate Merged(vs: seq<Val>) {
    |vs| >= 2 && vs[|vs| - 2].Obj? && vs[|vs| - 1].Obj?
  }

  /** What the prior stands for once these assignments are overwritten: the stored
      value over the prior before it. */
  function Saved(lt: LetterTest, env: Env, k: string, vs: seq<Val>): Option<Res> {
    if vs == [] then None
    else
      var below, e := Saved(lt, env, k, vs[..|vs| - 1]), Stored(lt, k, vs);
      if below.None? && Demands(e, k) then None else Some(LayerValue(lt, env, e, below))
  }

  /** What the key is resolved to. */
  function Coded(lt: LetterTest, env: Env, k: string, vs: seq<Val>): Res
    requires vs != []
  {
    var below := Saved(lt, env, k, vs[..|vs| - 1]);
    LaidOver(lt, LayerValue(lt, env, Stored(lt, k, vs), below), below)
  }

  // ---------- chains ----------

  /** Made of pieces, nothing in it folded to absent. */
  ghost predicate Unfolded(env: Env, v: Val, k: string) {
    Piece(env, v, k) && !ContainsSentinel(v)
  }

  /** All that phase 1 stores for the key on the way is made of pieces: no reference
      to the key has become a prior inside a merged object. */
  ghost predicate Buildable(lt: LetterTest, env: Env, k: string, vs: seq<Val>) {
    vs == [] || (Buildable(lt, env, k, vs[..|vs| - 1]) && Unfolded(env, Stored(lt, k, vs), k))
  }

  /** Something lies below, and it comes to a value. */
  predicate ComesToValue(below: Option<Res>) {
    below.Some? && below.value.Ok?
  }

  /** The values as they stand in a document.  Where object literals follow each
      other, they may be merged at once without anything being lost. */
  ghost predicate AllRaw(lt: LetterTest, env: Env, k: string, vs: seq<Val>) {
    vs == [] ||
    (&& AllRaw(lt, env, k, vs[..|vs| - 1]) && Raw(env, vs[|vs| - 1], k)
     && (Merged(vs) ==>
           && Joinable(lt, env, k, vs[|vs| - 1], Stored(lt, k, vs[..|vs| - 1]))
           && ComesToValue(Stacked(lt, env, k, vs[..|vs| - 1]))))
  }

  /** No literal hides a field by one of its own that is undefined. */
  predicate AllFit(lt: LetterTest, env: Env, k: string, vs: seq<Val>) {
    vs == [] ||
    (&& AllFit(lt, env, k, vs[..|vs| - 1])
     && (Merged(vs) ==>
           var e := Stored(lt, k, vs[..|vs| - 1]); e.Obj? ==> Fits(env, vs[|vs| - 1], e)))
  }

  lemma {:induction false} StoredObject(lt: LetterTest, k: string, vs: seq<Val>)
    requires vs != []
    ensures Stored(lt, k, vs).Obj? <==> vs[|vs| - 1].Obj?
    ensures !Merged(vs) ==> Stored(lt, k, vs) == vs[|vs| - 1]
    decreases |vs|
  {
    if |vs| > 1 { StoredObject(lt, k, vs[..|vs| - 1]); }
  }

  lemma {:induction false} StoredIsPiece(lt: LetterTest, env: Env, k: string, vs: seq<Val>)
    requires AllRaw(lt, env, k, vs) && vs != []
    ensures Unfolded(env, Stored(lt, k, vs), k)
  {
    var v, us := vs[|vs| - 1], vs[..|vs| - 1];
    StoredObject(lt, k, vs);
    FreshHasNoSentinel(v);
    if Merged(vs) {
      StoredObject(lt, k, us);
      JoinedPiece(lt, env, k, v, Stored(lt, k, us), [k]);
    }
  }

  lemma {:induction false} RawIsBuildable(lt: LetterTest, env: Env, k: string, vs: seq<Val>)
    requires AllRaw(lt, env, k, vs)
    ensures Buildable(lt, env, k, vs)
  {
    if vs != [] {
      RawIsBuildable(lt, env, k, vs[..|vs| - 1]);
      StoredIsPiece(lt, env, k, vs);
    }
  }

  lemma {:induction false} StackIsConcrete(lt: LetterTest, env: Env, k: string, vs: seq<Val>)
    requires DataEnv(env) && AllRaw(lt, env, k, vs)
    ensures ConcreteLayer(Stacked(lt, env, k, vs))
  {
    if vs != [] {
      var v, us := vs[|vs| - 1], vs[..|vs| - 1];
      StackIsConcrete(lt, env, k, us);
      LayerIsConcrete(lt, env, v, k, Stacked(lt, env, k, us));
      LaidOverIsConcrete(lt, LayerValue(lt, env, v, Stacked(lt, env, k, us)), Stacked(lt, env, k, us));
    }
  }

  /** Data as phase 1 leaves it: the priors of its objects are data too, and none of
      them would be merged with the value it stands beside. */
  predicate Data(v: Val) {
    match v
    case Scalar(_, _, _) => true
    case Subst(_, _, _, _) => false
    case Concat(_) => false
    case Arr(es) => forall i | 0 <= i < |es| :: Data(es[i])
    case Obj(_, vals, priors) =>
      && KeysMatch(v) && (forall j | j in vals :: Data(vals[j]))
      && (forall j | j in priors :: j in vals && Data(priors[j]) && (vals[j].Obj? ==> !priors[j].Obj?))
  }

  lemma {:induction false} ConcreteIsData(v: Val)
    requires Concrete(v)
    ensures Data(v)
  {
    match v
    case Arr(es) => forall i | 0 <= i < |es| { ConcreteIsData(es[i]); }
    case Obj(_, vals, _) => forall j | j in vals { ConcreteIsData(vals[j]); }
    case _ =>
  }

  lemma {:induction false} DataIsDead(env: Env, v: Val, k: string)
    requires Data(v)
    ensures Piece(env, v, k) && Dead(v, k) && !ContainsSentinel(v) && NoPlaceholders(v)
  {
    match v
    case Scalar(_, _, _) =>
    case Arr(es) => forall i | 0 <= i < |es| { DataIsDead(env, es[i], k); }
    case Obj(_, vals, priors) =>
      forall j | j in vals { DataIsDead(env, vals[j], k); }
      forall j | j in priors { DataIsDead(env, priors[j], k); }
  }

  /** Data comes to a value, and to an object only if it is one. */
  lemma {:induction false} DataSeen(lt: LetterTest, env: Env, v: Val)
    requires Data(v) && DataEnv(env)
    ensures Seen(lt, env, v).Ok? && (Seen(lt, env, v).v.Obj? <==> v.Obj?)
    decreases v, 1
  {
    match v
    case Scalar(_, _, _) =>
    case Arr(es) => AllDataSeen(lt, env, es);
    case Obj(keys, vals, priors) =>
      forall j | j in vals ensures LayerField(lt, env, v, j, None).Ok? {
        DataSeen(lt, env, vals[j]);
        if j in priors { DataSeen(lt, env, priors[j]); }
      }
      ObjectGives(lt, env, v, None);
      forall i | 0 <= i < |keys| ensures keys[i] in vals { assert keys[i] in v.keys; }
      assert AllSettle(keys, FieldMap(lt, env, v, None));
  }

  lemma {:induction false} AllDataSeen(lt: LetterTest, env: Env, es: seq<Val>)
    requires DataEnv(env) && forall i | 0 <= i < |es| :: Data(es[i])
    ensures LayerValues(lt, env, es, None).Vals?
    decreases es, 0
  {
    if es != [] {
      DataSeen(lt, env, es[0]);
      AllDataSeen(lt, env, es[1..]);
    }
  }

  lemma {:induction false} DataJoins(lt: LetterTest, env: Env, k: string, v: Val, e: Val)
    requires DataEnv(env) && v.Obj? && e.Obj? && Concrete(v) && Data(e)
    ensures Joinable(lt, env, k, v, e) && Fits(env, v, e)
    decreases v
  {
    DataIsDead(env, e, k);
    forall j | j in e.vals && j in v.vals
      ensures v.vals[j].Obj? && e.vals[j].Obj? ==>
                && Joinable(lt, env, k, v.vals[j], e.vals[j]) && Fits(env, v.vals[j], e.vals[j])
                && (j in e.priors ==> NoObject(Seen(lt, env, e.priors[j])))
      ensures !(v.vals[j].Obj? && e.vals[j].Obj?) ==> (Firm(v.vals[j]) || Loose(lt, env, k, e, j))
      ensures Defines(env, v.vals[j]) {
      ConcreteDefines(env, v.vals[j]);
      DataIsDead(env, e.vals[j], k);
      DataIsDead(env, e.vals[j], j);
      if v.vals[j].Obj? && e.vals[j].Obj? {
        DataJoins(lt, env, k, v.vals[j], e.vals[j]);
        if j in e.priors { DataSeen(lt, env, e.priors[j]); }
      }
    }
  }

  lemma {:induction false} ConcreteDefines(env: Env, v: Val)
    requires Concrete(v)
    ensures Defines(env, v)
  {
    match v
    case Scalar(_, _, _) =>
    case Arr(es) => forall i | 0 <= i < |es| { ConcreteDefines(env, es[i]); }
    case Obj(_, vals, _) => forall j | j in vals { ConcreteDefines(env, vals[j]); }
  }

  lemma {:induction false} DataMerged(lt: LetterTest, env: Env, k: string, v: Val, e: Val, path: seq<string>)
    requires DataEnv(env) && v.Obj? && e.Obj? && Concrete(v) && Data(e) && path != []
    ensures Data(DeepMergeAt(lt, v, e, path, true))
    decreases v, 1
  {
    var s := DeepMergeAt(lt, v, e, path, true);
    JoinedKeys(lt, v, e, path);
    forall j | j in s.vals ensures Data(s.vals[j]) { DataMergedAt(lt, env, k, v, e, path, j); }
    forall j | j in s.priors ensures j in s.vals && Data(s.priors[j]) && (s.vals[j].Obj? ==> !s.priors[j].Obj?) {
      DataPrior(lt, env, k, v, e, path, j);
    }
  }

  lemma {:induction false} DataMergedAt(lt: LetterTest, env: Env, k: string, v: Val, e: Val, path: seq<string>,
                                        j: string)
    requires DataEnv(env) && v.Obj? && e.Obj? && Concrete(v) && Data(e) && path != [] &&
             j in DeepMergeAt(lt, v, e, path, true).vals
    ensures Data(DeepMergeAt(lt, v, e, path, true).vals[j])
    decreases v, 0
  {
    DeepValue(lt, v, e, path, true, j);
    if j in v.vals {
      ConcreteIsData(v.vals[j]);
      ConcreteHasNoSentinel(v.vals[j]);
      if j in e.vals && BothObjects(v, e, j) { DataMerged(lt, env, k, v.vals[j], e.vals[j], path + [j]); }
    }
  }

  lemma {:induction false} DataPrior(lt: LetterTest, env: Env, k: string, v: Val, e: Val, path: seq<string>, j: string)
    requires DataEnv(env) && v.Obj? && e.Obj? && Concrete(v) && Data(e) && path != [] &&
             j in DeepMergeAt(lt, v, e, path, true).priors
    ensures var s := DeepMergeAt(lt, v, e, path, true);
            j in s.vals && Data(s.priors[j]) && (s.vals[j].Obj? ==> !s.priors[j].Obj?)
  {
    var s := DeepMergeAt(lt, v, e, path, true);
    DeepValue(lt, v, e, path, true, j);
    assert Get(s.priors, j) == DeepPrior(lt, v, e, path, true, j);
    if j in v.vals && j in e.vals && !BothObjects(v, e, j) {
      DataIsDead(env, e.vals[j], k);
      SavedAsIs(lt, e.vals[j], KeyOf(lt, path + [j]), true);
      ConcreteHasNoSelfRef(lt, v.vals[j], j);
      ConcreteHasNoSentinel(v.vals[j]);
      assert CollisionPrior(lt, v, e, path, true, j) == Some(e.vals[j]);
    }
  }

  /** Object literals of data in a row may always be merged at once. */
  lemma {:induction false} DataStaysCalm(lt: LetterTest, env: Env, k: string, vs: seq<Val>)
    requires DataEnv(env) && vs != [] && forall i | 0 <= i < |vs| :: vs[i].Obj? && Concrete(vs[i])
    ensures AllRaw(lt, env, k, vs) && AllFit(lt, env, k, vs)
    ensures Stored(lt, k, vs).Obj? && Data(Stored(lt, k, vs)) && ComesToValue(Stacked(lt, env, k, vs)) &&
            Stacked(lt, env, k, vs).value.v.Obj?
  {
    var v, us := vs[|vs| - 1], vs[..|vs| - 1];
    ConcreteIsRaw(env, v, k);
    ConcreteIsData(v);
    ConcreteLayerValue(lt, env, v, Stacked(lt, env, k, us));
    if us == [] {
      assert AllRaw(lt, env, k, us) && AllFit(lt, env, k, us) && !Merged(vs);
    } else {
      DataStaysCalm(lt, env, k, us);
      DataJoins(lt, env, k, v, Stored(lt, k, us));
      DataMerged(lt, env, k, v, Stored(lt, k, us), [k]);
    }
  }

  // ---------- folding is taking the value of the layer below ----------

  lemma {:induction false} NoRemainder(lt: LetterTest, segs: seq<string>, k: string)
    requires |segs| == 1
    ensures PrefixRemainder(lt, segs, KeyOf(lt, [k])) == None
    ensures KeyOf(lt, segs) == KeyOf(lt, [k]) <==> segs == [k]
  {
    RemainderIsExact(lt, segs, [k]);
    KeysNeverCollide(lt, segs, [k]);
  }

  /** The folded value f stands for v over the layer that p stands for. */
  ghost predicate FoldedTo(lt: LetterTest, env: Env, f: Val, v: Val, k: string, p: Val, any: Option<Res>) {
    Piece(env, f, k) && Dead(f, k) &&
      LayerValue(lt, env, f, any) == LayerValue(lt, env, v, Some(LayerValue(lt, env, p, None)))
  }

  lemma {:induction false} FoldIsLayer(lt: LetterTest, env: Env, v: Val, k: string, p: Val, any: Option<Res>,
                                       stack: bool)
    requires k !in env && Piece(env, v, k) && Piece(env, p, k) && Dead(p, k)
    ensures FoldedTo(lt, env, FoldSelfRef(lt, v, KeyOf(lt, [k]), Some(p), stack).v, v, k, p, any)
    decreases v, 1
  {
    match v
    case Scalar(_, _, _) =>
    case Obj(_, _, _) => FoldIsObject(lt, env, v, k, p, any, stack);
    case Subst(_, segs, _, _) =>
      NoRemainder(lt, segs, k);
      DeadIgnoresBelow(lt, env, p, k, any, None);
    case Concat(ps) => FoldIsLayers(lt, env, v, ps, k, p, any, stack);
    case Arr(es) => FoldIsLayers(lt, env, v, es, k, p, any, stack);
  }

  lemma {:induction false} FoldIsLayers(lt: LetterTest, env: Env, v: Val, vs: seq<Val>, k: string, p: Val,
                                        any: Option<Res>, stack: bool)
    requires k !in env && Piece(env, v, k) && Piece(env, p, k) && Dead(p, k) && (v == Concat(vs) || v == Arr(vs))
    ensures FoldedTo(lt, env, FoldSelfRef(lt, v, KeyOf(lt, [k]), Some(p), stack).v, v, k, p, any)
    decreases v, 0
  {
    var key, below := KeyOf(lt, [k]), Some(LayerValue(lt, env, p, None));
    var us := seq(|vs|, i requires 0 <= i < |vs| => FoldSelfRef(lt, vs[i], key, Some(p), stack).v);
    forall i | 0 <= i < |vs| ensures FoldedTo(lt, env, us[i], vs[i], k, p, any) {
      FoldIsLayer(lt, env, vs[i], k, p, any, stack);
    }
    SameLayerValues(lt, env, vs, us, below, any);
    FoldedParts(lt, v, vs, key, p, stack);
  }

  lemma {:induction false} FoldIsObject(lt: LetterTest, env: Env, v: Val, k: string, p: Val, any: Option<Res>,
                                        stack: bool)
    requires k !in env && v.Obj? && Piece(env, v, k) && Piece(env, p, k) && Dead(p, k)
    ensures FoldedTo(lt, env, FoldSelfRef(lt, v, KeyOf(lt, [k]), Some(p), stack).v, v, k, p, any)
    decreases v, 0
  {
    var key, below := KeyOf(lt, [k]), Some(LayerValue(lt, env, p, None));
    var f := FoldSelfRef(lt, v, key, Some(p), stack).v;
    FoldedObj(lt, v, key, p, stack);
    forall j | j in v.vals ensures FoldedTo(lt, env, f.vals[j], v.vals[j], k, p, any) {
      FoldIsLayer(lt, env, v.vals[j], k, p, any, false);
    }
    forall j | j in v.priors && !Firm(v.vals[j]) { DeadIgnoresBelow(lt, env, v.priors[j], k, below, any); }
    SameFieldLayers(lt, env, v, f, below, any);
    ObjectPiece(env, v, f, k);
  }

  ghost predicate AbsentLayer(lt: LetterTest, env: Env, v: Val, k: string, any: Option<Res>, stack: bool) {
    var f := FoldAbsent(lt, v, KeyOf(lt, [k]), stack);
    && (f.None? <==> Demands(v, k))
    && (f.Some? ==>
          Piece(env, f.value, k) && Dead(f.value, k) &&
          LayerValue(lt, env, f.value, any) == LayerValue(lt, env, v, None))
  }

  /** A value folded to absent stands for a first layer; there is none exactly
      when the value demands one below it. */
  lemma {:induction false} AbsentIsLayer(lt: LetterTest, env: Env, v: Val, k: string, any: Option<Res>, stack: bool)
    requires k !in env && Piece(env, v, k)
    ensures AbsentLayer(lt, env, v, k, any, stack)
    decreases v, 1
  {
    match v
    case Scalar(_, _, _) =>
    case Obj(_, _, _) => AbsentIsObject(lt, env, v, k, any, stack);
    case Subst(_, segs, _, _) => NoRemainder(lt, segs, k);
    case Concat(ps) => AbsentIsLayers(lt, env, v, ps, k, any, stack);
    case Arr(es) => AbsentIsLayers(lt, env, v, es, k, any, stack);
  }

  lemma {:induction false} AbsentParts(lt: LetterTest, v: Val, vs: seq<Val>, key: string, stack: bool)
    requires v == Concat(vs) || v == Arr(vs)
    ensures var f := FoldAbsent(lt, v, key, stack);
            && (f.Some? <==> forall i | 0 <= i < |vs| :: FoldAbsent(lt, vs[i], key, stack).Some?)
            && (f.Some? ==> var us := if v.Concat? then f.value.parts else f.value.elems;
                            f.value == (if v.Concat? then Concat(us) else Arr(us)) && |us| == |vs|
                            && forall i | 0 <= i < |vs| :: Some(us[i]) == FoldAbsent(lt, vs[i], key, stack))
  {
  }

  lemma {:induction false} AbsentIsLayers(lt: LetterTest, env: Env, v: Val, vs: seq<Val>, k: string, any: Option<Res>,
                                          stack: bool)
    requires k !in env && Piece(env, v, k) && (v == Concat(vs) || v == Arr(vs))
    ensures AbsentLayer(lt, env, v, k, any, stack)
    decreases v, 0
  {
    var key := KeyOf(lt, [k]);
    forall i | 0 <= i < |vs| ensures AbsentLayer(lt, env, vs[i], k, any, stack) {
      AbsentIsLayer(lt, env, vs[i], k, any, stack);
    }
    AbsentParts(lt, v, vs, key, stack);
    var f := FoldAbsent(lt, v, key, stack);
    if f.Some? {
      var us := if v.Concat? then f.value.parts else f.value.elems;
      forall i | 0 <= i < |vs|
        ensures Piece(env, us[i], k) && Dead(us[i], k) &&
                LayerValue(lt, env, vs[i], None) == LayerValue(lt, env, us[i], any) {
        assert AbsentLayer(lt, env, vs[i], k, any, stack);
      }
      SameLayerValues(lt, env, vs, us, None, any);
    }
  }

  lemma {:induction false} AbsentObject(lt: LetterTest, v: Val, key: string, stack: bool)
    requires v.Obj?
    ensures var f := FoldAbsent(lt, v, key, stack);
            && (f.Some? <==> forall j | j in v.vals :: FoldAbsent(lt, v.vals[j], key, false).Some?)
            && (f.Some? ==>
                  && f.value.Obj? && f.value.keys == v.keys && f.value.priors == v.priors
                  && f.value.vals.Keys == v.vals.Keys
                  && forall j | j in v.vals :: Some(f.value.vals[j]) == FoldAbsent(lt, v.vals[j], key, false))
  {
  }

  lemma {:induction false} ObjectPiece(env: Env, v: Val, f: Val, k: string)
    requires v.Obj? && Piece(env, v, k) && f.Obj? && f.keys == v.keys && f.priors == v.priors &&
             f.vals.Keys == v.vals.Keys
    requires forall j | j in v.vals :: Piece(env, f.vals[j], k) && (Firm(v.vals[j]) ==> Firm(f.vals[j]))
    ensures Piece(env, f, k)
  {
    assert KeysMatch(f);
  }

  lemma {:induction false} AbsentIsObject(lt: LetterTest, env: Env, v: Val, k: string, any: Option<Res>, stack: bool)
    requires k !in env && v.Obj? && Piece(env, v, k)
    ensures AbsentLayer(lt, env, v, k, any, stack)
    decreases v, 0
  {
    var key := KeyOf(lt, [k]);
    forall j | j in v.vals ensures AbsentLayer(lt, env, v.vals[j], k, any, false) {
      AbsentIsLayer(lt, env, v.vals[j], k, any, false);
    }
    AbsentObject(lt, v, key, stack);
    if FoldAbsent(lt, v, key, stack).Some? {
      var f := FoldAbsent(lt, v, key, stack).value;
      forall j | j in v.vals
        ensures Piece(env, f.vals[j], k) && Dead(f.vals[j], k) &&
                LayerValue(lt, env, f.vals[j], any) == LayerValue(lt, env, v.vals[j], None) {
        assert AbsentLayer(lt, env, v.vals[j], k, any, false);
      }
      forall j | j in v.priors && !Firm(v.vals[j]) { DeadIgnoresBelow(lt, env, v.priors[j], k, None, any); }
      SameFieldLayers(lt, env, v, f, None, any);
      ObjectPiece(env, v, f, k);
    }
  }

  // ---------- the run of phase 1 ----------

  /** One save: the new prior stands for one layer more. */
  lemma {:induction false} SaveStacks(lt: LetterTest, env: Env, v: Val, k: string, prior: Option<Val>,
                                      below: Option<Res>)
    requires k !in env && Piece(env, v, k) && StandsFor(lt, env, prior, below, k)
    ensures var saved := FoldOrSkip(lt, v, KeyOf(lt, [k]), prior);
            StandsFor(lt, env, if saved.Some? then saved else prior,
                      if below.None? && Demands(v, k) then None else Some(LayerValue(lt, env, v, below)), k)
  {
    var key := KeyOf(lt, [k]);
    if v.Subst? { NoRemainder(lt, v.segs, k); }
    HitIgnoresReplacement(lt, v, key, prior, true);
    if prior.Some? {
      FoldIsLayer(lt, env, v, k, prior.value, None, true);
      FoldedOrSame(lt, v, key, prior.value, true);
    } else {
      AbsentIsLayer(lt, env, v, k, None, true);
      if !FoldSelfRef(lt, v, key, None, true).hit {
        FoldedIsFree(lt, v, key, None, true);
        NotMentionedIsAbsent(lt, env, v, k, true);
      }
    }
  }

  lemma {:induction false} NotMentionedIsAbsent(lt: LetterTest, env: Env, v: Val, k: string, stack: bool)
    requires Piece(env, v, k) && !Mentions(lt, v, KeyOf(lt, [k]))
    ensures FoldAbsent(lt, v, KeyOf(lt, [k]), stack) == Some(v)
  {
    var key := KeyOf(lt, [k]);
    match v
    case Scalar(_, _, _) =>
    case Obj(_, vals, _) =>
      forall j | j in vals { NotMentionedIsAbsent(lt, env, vals[j], k, false); }
      assert FoldAbsent(lt, v, key, stack).value.vals == vals;
    case Subst(_, segs, _, _) => NoRemainder(lt, segs, k);
    case Concat(ps) =>
      forall i | 0 <= i < |ps| { NotMentionedIsAbsent(lt, env, ps[i], k, stack); }
      assert FoldAbsent(lt, v, key, stack).value.parts == ps;
    case Arr(es) =>
      forall i | 0 <= i < |es| { NotMentionedIsAbsent(lt, env, es[i], k, stack); }
      assert FoldAbsent(lt, v, key, stack).value.elems == es;
  }

  ghost predicate ChainAt(lt: LetterTest, env: Env, d: Doc, k: string, vs: seq<Val>)
    requires d.obj.Obj?
  {
    && (k in d.obj.vals <==> vs != []) && Buildable(lt, env, k, vs)
    && (vs != [] ==> d.obj.vals[k] == Stored(lt, k, vs)
                     && StandsFor(lt, env, Get(d.obj.priors, k), Saved(lt, env, k, vs[..|vs| - 1]), k))
    && (vs == [] ==> k !in d.obj.priors)
  }

  lemma {:induction false} AssignStacks(lt: LetterTest, env: Env, d: Doc, k: string, vs: seq<Val>, v: Val)
    requires k !in env && d.obj.Obj? && ChainAt(lt, env, d, k, vs) && Buildable(lt, env, k, vs + [v]) &&
             PriorFreeOfKey(lt, d, k)
    ensures ChainAt(lt, env, Assign(lt, d, k, v), k, vs + [v])
  {
    var us := vs + [v];
    assert us[..|us| - 1] == vs && us[|us| - 1] == v;
    if vs != [] {
      SaveStacks(lt, env, d.obj.vals[k], k, Get(d.obj.priors, k), Saved(lt, env, k, vs[..|vs| - 1]));
    }
  }

  lemma {:induction false} AssignElsewhere(lt: LetterTest, env: Env, d: Doc, j: string, v: Val, k: string, vs: seq<Val>)
    requires d.obj.Obj? && ChainAt(lt, env, d, k, vs) && j != k
    ensures ChainAt(lt, env, Assign(lt, d, j, v), k, vs)
  {
  }

  function AssignedTo(fields: seq<Field>, k: string): seq<Val> {
    if fields == [] then []
    else
      var f := fields[|fields| - 1];
      AssignedTo(fields[..|fields| - 1], k) + if f.key == k then [Desugared(f)] else []
  }

  /** What the document stores on the way for each key outside the environment. */
  ghost predicate Builds(lt: LetterTest, env: Env, fields: seq<Field>) {
    forall k :: k in env || Buildable(lt, env, k, AssignedTo(fields, k))
  }

  lemma {:induction false} BuildableBefore(lt: LetterTest, env: Env, fields: seq<Field>, k: string)
    requires fields != [] && (k in env || Buildable(lt, env, k, AssignedTo(fields, k)))
    ensures k in env || Buildable(lt, env, k, AssignedTo(fields[..|fields| - 1], k))
  {
    var vs := AssignedTo(fields, k);
    if k !in env {
      if fields[|fields| - 1].key == k {
        assert vs[..|vs| - 1] == AssignedTo(fields[..|fields| - 1], k);
      } else {
        assert AssignedTo(fields[..|fields| - 1], k) + [] == AssignedTo(fields[..|fields| - 1], k);
      }
    }
  }

  lemma {:induction false} RunStacks(lt: LetterTest, env: Env, fields: seq<Field>, k: string)
    requires Buildable(lt, env, k, AssignedTo(fields, k)) && k !in env
    ensures ChainAt(lt, env, AssignAll(lt, fields), k, AssignedTo(fields, k))
  {
    if fields != [] {
      var f, before := fields[|fields| - 1], fields[..|fields| - 1];
      BuildableBefore(lt, env, fields, k);
      RunStacks(lt, env, before, k);
      var d, vs := AssignAll(lt, before), AssignedTo(before, k);
      if f.key == k {
        PriorNeverMentionsItsKey(lt, before, k);
        AssignStacks(lt, env, d, k, vs, Desugared(f));
      } else {
        assert vs + [] == vs;
        AssignElsewhere(lt, env, d, f.key, Desugared(f), k, vs);
      }
    }
  }

  /** A key assigned at most once has its value and no prior. */
  lemma {:induction false} AssignedOnce(lt: LetterTest, fields: seq<Field>, j: string)
    requires |AssignedTo(fields, j)| <= 1
    ensures var o := AssignAll(lt, fields).obj;
            && j !in o.priors
            && Get(o.vals, j) == if AssignedTo(fields, j) == [] then None else Some(AssignedTo(fields, j)[0])
  {
    if fields != [] {
      var f, before := fields[|fields| - 1], fields[..|fields| - 1];
      AssignedOnce(lt, before, j);
    }
  }

  /** The environment is what the document assigns to its keys: each of them plain
      data, once, or nothing. */
  ghost predicate EnvOf(env: Env, fields: seq<Field>) {
    DataEnv(env) && forall j | j in env :: AssignedTo(fields, j) == if env[j].Some? then [env[j].value] else []
  }

  /** The keys of the root, in the order of their first assignment. */
  function KeysOf(fields: seq<Field>): seq<string> {
    if fields == [] then []
    else
      var before, k := KeysOf(fields[..|fields| - 1]), fields[|fields| - 1].key;
      if k in before then before else before + [k]
  }

  lemma {:induction false} RootKeys(lt: LetterTest, fields: seq<Field>)
    ensures var o := AssignAll(lt, fields).obj; KeysMatch(o) && o.keys == KeysOf(fields)
  {
    if fields != [] {
      RootKeys(lt, fields[..|fields| - 1]);
      var o, k := AssignAll(lt, fields[..|fields| - 1]).obj, fields[|fields| - 1].key;
      if k !in o.vals {
        assert forall j :: j in o.keys + [k] <==> j in o.keys || j == k;
      }
    }
  }

  lemma {:induction false} KeysAreAssigned(fields: seq<Field>, k: string)
    ensures k in KeysOf(fields) <==> AssignedTo(fields, k) != []
  {
    if fields != [] {
      KeysAreAssigned(fields[..|fields| - 1], k);
    }
  }

  // ---------- the built root ----------

  /** What the code gives the field: its chain's outcome, or its data. */
  ghost function CodedField(lt: LetterTest, env: Env, fields: seq<Field>, k: string): Res {
    var vs := AssignedTo(fields, k);
    if vs == [] then Absent else if k in env then Ok(vs[0]) else Coded(lt, env, k, vs)
  }

  ghost function CodedAll(lt: LetterTest, env: Env, fields: seq<Field>): map<string, Res> {
    map k | k in KeysOf(fields) :: CodedField(lt, env, fields, k)
  }

  lemma {:induction false} SavedIsConcrete(lt: LetterTest, env: Env, k: string, vs: seq<Val>)
    requires DataEnv(env) && Buildable(lt, env, k, vs)
    ensures ConcreteLayer(Saved(lt, env, k, vs))
  {
    if vs != [] {
      SavedIsConcrete(lt, env, k, vs[..|vs| - 1]);
      LayerIsConcrete(lt, env, Stored(lt, k, vs), k, Saved(lt, env, k, vs[..|vs| - 1]));
    }
  }

  lemma {:induction false} BuiltKey(lt: LetterTest, env: Env, fields: seq<Field>, k: string)
    requires k !in env && Buildable(lt, env, k, AssignedTo(fields, k))
    ensures var root, vs := AssignAll(lt, fields).obj, AssignedTo(fields, k);
            && (k in root.vals <==> vs != []) && (k in root.priors ==> k in root.vals)
            && (k in root.vals ==> root.vals[k] == Stored(lt, k, vs) && Piece(env, root.vals[k], k)
                                   && Below(lt, env, root, k) == Saved(lt, env, k, vs[..|vs| - 1]))
            && (k in root.priors ==> Piece(env, root.priors[k], k) && Dead(root.priors[k], k))
  {
    RunStacks(lt, env, fields, k);
  }

  lemma {:induction false} BuiltField(lt: LetterTest, env: Env, fields: seq<Field>, k: string)
    requires EnvOf(env, fields) && Builds(lt, env, fields) && k in AssignAll(lt, fields).obj.vals
    ensures FieldOver(lt, env, AssignAll(lt, fields).obj, k) == CodedField(lt, env, fields, k)
  {
    if k in env { AssignedOnce(lt, fields, k); } else { BuiltKey(lt, env, fields, k); }
  }

  lemma {:induction false} BuiltRoot(lt: LetterTest, env: Env, fields: seq<Field>)
    requires EnvOf(env, fields) && Builds(lt, env, fields) && NoMistakenKey(lt, AssignAll(lt, fields).obj)
    ensures Readable(lt, env, AssignAll(lt, fields).obj)
  {
    RootKeys(lt, fields);
    forall j | j in env { AssignedOnce(lt, fields, j); }
    forall k | k !in env { BuiltKey(lt, env, fields, k); }
  }

  lemma {:induction false} BuiltFields(lt: LetterTest, env: Env, fields: seq<Field>)
    requires EnvOf(env, fields) && Builds(lt, env, fields)
    ensures FieldsOver(lt, env, AssignAll(lt, fields).obj) == CodedAll(lt, env, fields)
  {
    var root := AssignAll(lt, fields).obj;
    RootKeys(lt, fields);
    forall k ensures k in root.vals <==> k in KeysOf(fields) { assert k in root.keys <==> k in root.vals; }
    forall k | k in root.vals { BuiltField(lt, env, fields, k); }
  }

  /** Building and resolving any run of assignments, in closed form. */
  lemma {:induction false} BuiltAndResolved(lt: LetterTest, env: Env, fields: seq<Field>, fuel: nat)
    requires EnvOf(env, fields) && Builds(lt, env, fields) && NoMistakenKey(lt, AssignAll(lt, fields).obj) && fuel > 1
    ensures Gives(ResolveTree(lt, AssignAll(lt, fields).obj, fuel), KeysOf(fields), CodedAll(lt, env, fields))
  {
    RootKeys(lt, fields);
    BuiltRoot(lt, env, fields);
    BuiltFields(lt, env, fields);
    RootResolves(lt, env, AssignAll(lt, fields).obj, fuel);
  }

  // ---------- when the code means the layers ----------

  /** The assignments to each key outside the environment are a chain. */
  ghost predicate Links(lt: LetterTest, env: Env, fields: seq<Field>) {
    forall k :: k in env || AllRaw(lt, env, k, AssignedTo(fields, k))
  }

  lemma {:induction false} LinksBuild(lt: LetterTest, env: Env, fields: seq<Field>)
    requires Links(lt, env, fields)
    ensures Builds(lt, env, fields)
  {
    forall k ensures k in env || Buildable(lt, env, k, AssignedTo(fields, k)) {
      if k !in env { RawIsBuildable(lt, env, k, AssignedTo(fields, k)); }
    }
  }

  /** Saving the last assignment keeps all that lies below it: it was merged at once
      with what was kept, or it shows, or hides, the layer below by itself. */
  predicate KeepsLayer(lt: LetterTest, env: Env, k: string, vs: seq<Val>)
    requires vs != []
  {
    var below := Stacked(lt, env, k, vs[..|vs| - 1]);
    Merged(vs) || Shows(LayerValue(lt, env, vs[|vs| - 1], below), below)
  }

  /** Every save of the run does. */
  predicate Kept(lt: LetterTest, env: Env, k: string, vs: seq<Val>) {
    vs == [] || (Kept(lt, env, k, vs[..|vs| - 1]) && KeepsLayer(lt, env, k, vs))
  }

  lemma {:induction false} StackedObject(lt: LetterTest, env: Env, k: string, vs: seq<Val>)
    requires vs != [] && vs[|vs| - 1].Obj? && ComesToValue(Stacked(lt, env, k, vs))
    ensures Stacked(lt, env, k, vs).value.v.Obj?
  {
    var v, below := vs[|vs| - 1], Stacked(lt, env, k, vs[..|vs| - 1]);
    NeverAbsent(lt, env, v, v.keys, below, EMPTY_OBJ);
  }

  /** Two object literals in a row, all before them kept: what is stored stands for
      the upper one laid over the layers, and once more laid over them still does. */
  lemma {:induction false} MergedIsLayer(lt: LetterTest, env: Env, k: string, vs: seq<Val>, strict: bool)
    requires DataEnv(env) && AllRaw(lt, env, k, vs) && Merged(vs) && (strict ==> AllFit(lt, env, k, vs))
    requires var us := vs[..|vs| - 1]; LikeLayer(strict, Saved(lt, env, k, us), Stacked(lt, env, k, us))
    ensures var us := vs[..|vs| - 1];
            var r := LayerValue(lt, env, Stored(lt, k, vs), Saved(lt, env, k, us));
            var want := LaidOver(lt, LayerValue(lt, env, vs[|vs| - 1], Stacked(lt, env, k, us)),
                                 Stacked(lt, env, k, us));
            LikeRes(strict, r, want) && LikeRes(strict, LaidOver(lt, r, Saved(lt, env, k, us)), want)
  {
    var us, v := vs[..|vs| - 1], vs[|vs| - 1];
    var e, below, under := Stored(lt, k, us), Saved(lt, env, k, us), Saved(lt, env, k, us[..|us| - 1]);
    RawIsBuildable(lt, env, k, us);
    SavedIsConcrete(lt, env, k, us);
    SavedIsConcrete(lt, env, k, us[..|us| - 1]);
    StackIsConcrete(lt, env, k, us);
    StackedObject(lt, env, k, us);
    JoinedLayer(lt, env, k, v, e, below, under, below.value.v, [k]);
    LayerLike(lt, env, v, k, strict, below, Stacked(lt, env, k, us));
    var x, y := LayerValue(lt, env, v, below), LayerValue(lt, env, v, Stacked(lt, env, k, us));
    if x.Ok? {
      var r := LayerValue(lt, env, Stored(lt, k, vs), below);
      if !strict { ReorderedItself(r.v); }
      LayerIsConcrete(lt, env, v, k, Stacked(lt, env, k, us));
      StoredIsPiece(lt, env, k, vs);
      LayerIsConcrete(lt, env, Stored(lt, k, vs), k, below);
      MergedTwice(lt, strict, r.v, x.v, below.value.v, y.v, Stacked(lt, env, k, us).value.v);
    }
  }

  /** r like x merged over b, which are like y and c. */
  lemma {:induction false} MergedTwice(lt: LetterTest, strict: bool, r: Val, x: Val, b: Val, y: Val, c: Val)
    requires r.Obj? && x.Obj? && b.Obj? && y.Obj? && c.Obj? && Concrete(r) && Concrete(x) && Concrete(b) &&
             Concrete(y) && Concrete(c)
    requires LikeVal(strict, r, DeepMerge(lt, x, b)) && LikeVal(strict, x, y) && LikeVal(strict, b, c)
    ensures LikeVal(strict, r, DeepMerge(lt, y, c)) && LikeVal(strict, DeepMerge(lt, r, b), DeepMerge(lt, y, c))
    ensures LaidOver(lt, Ok(r), Some(Ok(b))) == Ok(DeepMerge(lt, r, b)) &&
            LaidOver(lt, Ok(y), Some(Ok(c))) == Ok(DeepMerge(lt, y, c))
  {
    var t := DeepMerge(lt, x, b);
    ObjectsLaidOver(lt, r, b);
    ObjectsLaidOver(lt, y, c);
    DeepMergeIsConcat(lt, x, b, []);
    LikeMerge(lt, strict, x, y, b, c);
    LikeBoth(strict, r, t, DeepMerge(lt, y, c));
    LikeItself(strict, b);
    LikeMerge(lt, strict, r, t, b, b);
    MergeStays(lt, x, b);
    LikeBoth(strict, DeepMerge(lt, r, b), t, DeepMerge(lt, y, c));
  }

  /** A value that is not merged at once, over layers that were kept. */
  lemma {:induction false} AloneIsLayer(lt: LetterTest, env: Env, k: string, vs: seq<Val>, strict: bool)
    requires DataEnv(env) && AllRaw(lt, env, k, vs) && vs != [] && !Merged(vs)
    requires var us := vs[..|vs| - 1]; LikeLayer(strict, Saved(lt, env, k, us), Stacked(lt, env, k, us))
    ensures var us, v := vs[..|vs| - 1], vs[|vs| - 1];
            && Stored(lt, k, vs) == v
            && LikeRes(strict, LayerValue(lt, env, v, Saved(lt, env, k, us)),
                       LayerValue(lt, env, v, Stacked(lt, env, k, us)))
            && LikeRes(strict, Coded(lt, env, k, vs), Layered(lt, env, k, vs))
  {
    var us, v := vs[..|vs| - 1], vs[|vs| - 1];
    StoredObject(lt, k, vs);
    RawIsBuildable(lt, env, k, us);
    SavedIsConcrete(lt, env, k, us);
    StackIsConcrete(lt, env, k, us);
    LayerLike(lt, env, v, k, strict, Saved(lt, env, k, us), Stacked(lt, env, k, us));
    LayerIsConcrete(lt, env, v, k, Saved(lt, env, k, us));
    LayerIsConcrete(lt, env, v, k, Stacked(lt, env, k, us));
    LaidOverLike(lt, strict, LayerValue(lt, env, v, Saved(lt, env, k, us)),
                 LayerValue(lt, env, v, Stacked(lt, env, k, us)),
                 Saved(lt, env, k, us), Stacked(lt, env, k, us));
  }

  /** One more save over kept layers, of a value that is merged at once or keeps
      what lies below. */
  lemma {:induction false} SavedNext(lt: LetterTest, env: Env, k: string, vs: seq<Val>, strict: bool)
    requires DataEnv(env) && AllRaw(lt, env, k, vs) && vs != [] && KeepsLayer(lt, env, k, vs) &&
             (strict ==> AllFit(lt, env, k, vs))
    requires var us := vs[..|vs| - 1]; LikeLayer(strict, Saved(lt, env, k, us), Stacked(lt, env, k, us))
    ensures LikeLayer(strict, Saved(lt, env, k, vs), Stacked(lt, env, k, vs))
  {
    var us, v := vs[..|vs| - 1], vs[|vs| - 1];
    if Merged(vs) {
      MergedIsLayer(lt, env, k, vs, strict);
    } else {
      AloneIsLayer(lt, env, k, vs, strict);
      StackIsConcrete(lt, env, k, us);
      LayerIsConcrete(lt, env, v, k, Stacked(lt, env, k, us));
      ShowsExactly(lt, LayerValue(lt, env, v, Stacked(lt, env, k, us)), Stacked(lt, env, k, us));
    }
  }

  lemma {:induction false} KeptIsSaved(lt: LetterTest, env: Env, k: string, vs: seq<Val>, strict: bool)
    requires DataEnv(env) && AllRaw(lt, env, k, vs) && Kept(lt, env, k, vs) && (strict ==> AllFit(lt, env, k, vs))
    ensures LikeLayer(strict, Saved(lt, env, k, vs), Stacked(lt, env, k, vs))
  {
    if vs != [] {
      KeptIsSaved(lt, env, k, vs[..|vs| - 1], strict);
      SavedNext(lt, env, k, vs, strict);
    }
  }

  /** One more save: it stands for the layers exactly when it keeps what is below. */
  lemma {:induction false} SavedExactly(lt: LetterTest, env: Env, k: string, vs: seq<Val>)
    requires DataEnv(env) && AllRaw(lt, env, k, vs) && AllFit(lt, env, k, vs) && vs != [] &&
             Kept(lt, env, k, vs[..|vs| - 1])
    ensures Saved(lt, env, k, vs) == Stacked(lt, env, k, vs) <==> KeepsLayer(lt, env, k, vs)
    ensures Saved(lt, env, k, vs).None? <==> Stacked(lt, env, k, vs).None?
  {
    var us, v := vs[..|vs| - 1], vs[|vs| - 1];
    KeptIsSaved(lt, env, k, us, true);
    if Merged(vs) {
      SavedNext(lt, env, k, vs, true);
    } else {
      StoredObject(lt, k, vs);
      StackIsConcrete(lt, env, k, us);
      LayerIsConcrete(lt, env, v, k, Stacked(lt, env, k, us));
      ShowsExactly(lt, LayerValue(lt, env, v, Stacked(lt, env, k, us)), Stacked(lt, env, k, us));
    }
  }

  /** When every save kept what lies below it, the key comes to its layers. */
  lemma {:induction false} CodedIsLayered(lt: LetterTest, env: Env, k: string, vs: seq<Val>, strict: bool)
    requires DataEnv(env) && AllRaw(lt, env, k, vs) && vs != [] && Kept(lt, env, k, vs[..|vs| - 1]) &&
             (strict ==> AllFit(lt, env, k, vs))
    ensures LikeRes(strict, Coded(lt, env, k, vs), Layered(lt, env, k, vs))
  {
    KeptIsSaved(lt, env, k, vs[..|vs| - 1], strict);
    if Merged(vs) { MergedIsLayer(lt, env, k, vs, strict); } else { AloneIsLayer(lt, env, k, vs, strict); }
  }

  ghost function LayeredField(lt: LetterTest, env: Env, fields: seq<Field>, k: string): Res {
    var vs := AssignedTo(fields, k);
    if vs == [] then Absent else if k in env then Ok(vs[0]) else Layered(lt, env, k, vs)
  }

  ghost function LayeredAll(lt: LetterTest, env: Env, fields: seq<Field>): map<string, Res> {
    map k | k in KeysOf(fields) :: LayeredField(lt, env, fields, k)
  }

  /** Every overwritten assignment to the key kept what lay below it. */
  ghost predicate ChainKept(lt: LetterTest, env: Env, fields: seq<Field>, k: string) {
    var vs := AssignedTo(fields, k);
    k in env || vs == [] || Kept(lt, env, k, vs[..|vs| - 1])
  }

  /** No literal hides a field by one of its own that is undefined, at any key. */
  ghost predicate ChainFits(lt: LetterTest, env: Env, fields: seq<Field>, k: string) {
    k in env || AllFit(lt, env, k, AssignedTo(fields, k))
  }

  lemma {:induction false} KeptField(lt: LetterTest, env: Env, fields: seq<Field>, k: string, strict: bool)
    requires EnvOf(env, fields) && Links(lt, env, fields) && ChainKept(lt, env, fields, k) &&
             (strict ==> ChainFits(lt, env, fields, k))
    ensures LikeRes(strict, CodedField(lt, env, fields, k), LayeredField(lt, env, fields, k))
  {
    var vs := AssignedTo(fields, k);
    if vs != [] {
      if k in env { LikeItself(strict, vs[0]); } else { CodedIsLayered(lt, env, k, vs, strict); }
    }
  }

  lemma {:induction false} KeptFields(lt: LetterTest, env: Env, fields: seq<Field>)
    requires EnvOf(env, fields) && Links(lt, env, fields)
    requires forall k :: ChainKept(lt, env, fields, k) && ChainFits(lt, env, fields, k)
    ensures CodedAll(lt, env, fields) == LayeredAll(lt, env, fields)
  {
    forall k | k in KeysOf(fields) ensures CodedField(lt, env, fields, k) == LayeredField(lt, env, fields, k) {
      assert ChainKept(lt, env, fields, k) && ChainFits(lt, env, fields, k);
      KeptField(lt, env, fields, k, true);
    }
  }

  /** For any number of assignments to any top-level keys, each value built from
      data, objects, arrays, concatenations, references to its own key and to keys
      that hold plain data: when every save keeps what lies below it, building the
      tree and resolving it is the layer-by-layer evaluation of every key. */
  lemma {:induction false} ChainsAreLayers(lt: LetterTest, env: Env, fields: seq<Field>, fuel: nat)
    requires EnvOf(env, fields) && Links(lt, env, fields) && NoMistakenKey(lt, AssignAll(lt, fields).obj) && fuel > 1
    requires forall k :: ChainKept(lt, env, fields, k) && ChainFits(lt, env, fields, k)
    ensures Gives(ResolveTree(lt, AssignAll(lt, fields).obj, fuel), KeysOf(fields), LayeredAll(lt, env, fields))
  {
    LinksBuild(lt, env, fields);
    BuiltAndResolved(lt, env, fields, fuel);
    KeptFields(lt, env, fields);
  }

  /** The same, whatever the order of fields inside the values. */
  ghost predicate GivesLike(r: Res, keys: seq<string>, want: map<string, Res>) {
    if AllSettle(keys, want)
    then r.Ok? && r.v.Obj? && r.v.priors == map[] && r.v.keys == OkKeys(keys, want)
         && forall k :: LikeOption(false, Get(r.v.vals, k), if k in keys then Wanted(want, k) else None)
    else r == Fail
  }

  lemma {:induction false} OkKeysAlike(keys: seq<string>, want: map<string, Res>, other: map<string, Res>)
    requires want.Keys == other.Keys && forall k | k in want :: LikeRes(false, want[k], other[k])
    ensures OkKeys(keys, want) == OkKeys(keys, other) && (AllSettle(keys, want) <==> AllSettle(keys, other))
  {
    if keys != [] { OkKeysAlike(keys[1..], want, other); }
  }

  /** A literal may hide an earlier field by an optional reference that is undefined:
      the earlier field is kept, at the later one's place. */
  lemma {:induction false} ChainsAreLayersInAnyOrder(lt: LetterTest, env: Env, fields: seq<Field>, fuel: nat)
    requires EnvOf(env, fields) && Links(lt, env, fields) && NoMistakenKey(lt, AssignAll(lt, fields).obj) && fuel > 1
    requires forall k :: ChainKept(lt, env, fields, k)
    ensures GivesLike(ResolveTree(lt, AssignAll(lt, fields).obj, fuel), KeysOf(fields), LayeredAll(lt, env, fields))
  {
    var keys, want, other := KeysOf(fields), CodedAll(lt, env, fields), LayeredAll(lt, env, fields);
    LinksBuild(lt, env, fields);
    BuiltAndResolved(lt, env, fields, fuel);
    forall k | k in want ensures LikeRes(false, want[k], other[k]) {
      assert ChainKept(lt, env, fields, k);
      KeptField(lt, env, fields, k, false);
    }
    OkKeysAlike(keys, want, other);
  }
}
