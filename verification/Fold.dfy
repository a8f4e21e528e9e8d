/**
 Self-reference folding (internal/resolver/foldselfref.go).  When a key is
 assigned again its below value is saved as a prior, rewritten so that it no
 longer mentions the key.
*/
module Fold {
  import opened Paths
  import opened Values

  /** A walked value, and whether a self-reference was met. */
  datatype Folded = Folded(v: Val, hit: bool)

  datatype Nav = Found(v: Val) | Missing | Blocked

  /** navigateVal: a live placeholder on the way blocks the walk. */
  function Navigate(v: Val, rem: seq<string>): (r: Nav)
    decreases |rem|
  {
    if rem == [] then Found(v)
    else if v.Subst? || v.Concat? then Blocked
    else if v.Obj? && rem[0] in v.vals then Navigate(v.vals[rem[0]], rem[1..])
    else Missing
  }

  /** foldPrefixSelfRef */
  function FoldPrefix(s: Val, replacement: Val, rem: seq<string>): Val
    requires s.Subst?
  {
    match Navigate(replacement, rem)
    case Blocked => s
    case Missing => s.(knownAbsent := true)
    case Found(n) => n
  }

  /** foldSelfRefInner.  Prefix references count only on the value stack of the
      field, that is outside object interiors. */
  function FoldSelfRef(lt: LetterTest, v: Val, key: string, replacement: Option<Val>, stack: bool): Folded {
    match v
    case Scalar(_, _, _) => Folded(v, false)
    case Subst(_, segs, _, absent) =>
      if absent then Folded(v, false)
      else if KeyOf(lt, segs) == key then
        Folded(if replacement.Some? then replacement.value else v, true)
      else if stack && PrefixRemainder(lt, segs, key).Some? then
        Folded(if replacement.Some? then FoldPrefix(v, replacement.value, PrefixRemainder(lt, segs, key).value) else v,
               true)
      else Folded(v, false)
    case Concat(ps) =>
      var hit := exists i | 0 <= i < |ps| :: FoldSelfRef(lt, ps[i], key, replacement, stack).hit;
      if hit && replacement.Some? then
        Folded(Concat(seq(|ps|, i requires 0 <= i < |ps| => FoldSelfRef(lt, ps[i], key, replacement, stack).v)), true)
      else Folded(v, hit)
    case Arr(es) =>
      var hit := exists i | 0 <= i < |es| :: FoldSelfRef(lt, es[i], key, replacement, stack).hit;
      if hit && replacement.Some? then
        Folded(Arr(seq(|es|, i requires 0 <= i < |es| => FoldSelfRef(lt, es[i], key, replacement, stack).v)), true)
      else Folded(v, hit)
    case Obj(keys, vals, priors) =>
      var hit := exists k | k in vals :: FoldSelfRef(lt, vals[k], key, replacement, false).hit;
      if hit && replacement.Some? then
        Folded(Obj(keys, map k | k in vals :: FoldSelfRef(lt, vals[k], key, replacement, false).v, priors), true)
      else Folded(v, hit)
  }

  /** foldOptionalSelfRefAbsentInner: None when a required self-reference has
      nothing to look back at. */
  function FoldAbsent(lt: LetterTest, v: Val, key: string, stack: bool): Option<Val> {
    match v
    case Scalar(_, _, _) => Some(v)
    case Subst(_, segs, optional, absent) =>
      if absent || (KeyOf(lt, segs) != key && !(stack && PrefixRemainder(lt, segs, key).Some?)) then Some(v)
      else if !optional then None
      else Some(v.(knownAbsent := true))
    case Concat(ps) =>
      if forall i | 0 <= i < |ps| :: FoldAbsent(lt, ps[i], key, stack).Some? then
        Some(Concat(seq(|ps|, i requires 0 <= i < |ps| => FoldAbsent(lt, ps[i], key, stack).value)))
      else None
    case Arr(es) =>
      if forall i | 0 <= i < |es| :: FoldAbsent(lt, es[i], key, stack).Some? then
        Some(Arr(seq(|es|, i requires 0 <= i < |es| => FoldAbsent(lt, es[i], key, stack).value)))
      else None
    case Obj(keys, vals, priors) =>
      if forall k | k in vals :: FoldAbsent(lt, vals[k], key, false).Some? then
        Some(Obj(keys, map k | k in vals :: FoldAbsent(lt, vals[k], key, false).value, priors))
      else None
  }

  predicate ContainsSentinel(v: Val) {
    match v
    case Scalar(_, _, _) => false
    case Subst(_, _, _, absent) => absent
    case Concat(ps) => exists i | 0 <= i < |ps| :: ContainsSentinel(ps[i])
    case Arr(es) => exists i | 0 <= i < |es| :: ContainsSentinel(es[i])
    case Obj(_, vals, _) => exists k | k in vals :: ContainsSentinel(vals[k])
  }

  /** rehydrateSentinel */
  function Rehydrate(v: Val, replacement: Val): Val {
    match v
    case Scalar(_, _, _) => v
    case Subst(_, _, _, absent) => if absent then replacement else v
    case Concat(ps) => Concat(seq(|ps|, i requires 0 <= i < |ps| => Rehydrate(ps[i], replacement)))
    case Arr(es) => Arr(seq(|es|, i requires 0 <= i < |es| => Rehydrate(es[i], replacement)))
    case Obj(keys, vals, priors) => Obj(keys, map k | k in vals :: Rehydrate(vals[k], replacement), priors)
  }

  /** mergePriorLayers: top over base, both layers' priors carried along. */
  function MergePriorLayers(base: Val, top: Val): (r: Val)
    requires base.Obj? && top.Obj?
    ensures r.Obj?
    decreases base, 1
  {
    Obj(base.keys + NewKeys(base, top.keys),
        map k | k in base.vals.Keys + top.vals.Keys :: PriorLayersAt(base, top, k),
        base.priors + top.priors)
  }

  function PriorLayersAt(base: Val, top: Val, k: string): Val
    requires base.Obj? && top.Obj? && (k in base.vals || k in top.vals)
    decreases base, 0
  {
    if k !in top.vals then base.vals[k]
    else if k in base.vals && base.vals[k].Obj? && top.vals[k].Obj?
    then MergePriorLayers(base.vals[k], top.vals[k])
    else top.vals[k]
  }

  /** The keys that are not yet in an object, in their order. */
  function NewKeys(o: Val, keys: seq<string>): (r: seq<string>)
    requires o.Obj?
  {
    if keys == [] then []
    else (if keys[0] in o.vals then [] else [keys[0]]) + NewKeys(o, keys[1..])
  }

  /** foldOrSkipPrior: the prior to save, or None when the save is skipped. */
  function FoldOrSkip(lt: LetterTest, prior: Val, key: string, below: Option<Val>): Option<Val> {
    var rem := if prior.Subst? && !prior.knownAbsent && below.Some? then PrefixRemainder(lt, prior.segs, key) else None;
    var nav := if rem.Some? then Navigate(below.value, rem.value) else Blocked;
    if nav.Missing? && prior.optional then below
    else if nav.Found? && nav.v.Obj? && below.value.Obj? then Some(MergePriorLayers(below.value, nav.v))
    else
      var f := FoldSelfRef(lt, prior, key, below, true);
      if !f.hit then Some(prior)
      else if below.None? then FoldAbsent(lt, prior, key, true)
      else Some(f.v)
  }

  /** selfRefFullKey: the path of a self-reference whose last segment is key. */
  function SelfRefFullKey(lt: LetterTest, v: Val, key: string): Option<string> {
    match v
    case Subst(_, segs, _, _) =>
      if segs != [] && segs[|segs| - 1] == key then Some(KeyOf(lt, segs)) else None
    case Concat(ps) => FirstSelfRef(lt, ps, key)
    case _ => None
  }

  function FirstSelfRef(lt: LetterTest, ps: seq<Val>, key: string): Option<string> {
    if ps == [] then None
    else if SelfRefFullKey(lt, ps[0], key).Some? then SelfRefFullKey(lt, ps[0], key)
    else FirstSelfRef(lt, ps[1..], key)
  }

  // ---------- what folding keeps ----------

  /** A live placeholder for the key stands somewhere in the value. */
  predicate Mentions(lt: LetterTest, v: Val, key: string) {
    match v
    case Scalar(_, _, _) => false
    case Subst(_, segs, _, absent) => !absent && KeyOf(lt, segs) == key
    case Concat(ps) => exists i | 0 <= i < |ps| :: Mentions(lt, ps[i], key)
    case Arr(es) => exists i | 0 <= i < |es| :: Mentions(lt, es[i], key)
    case Obj(_, vals, _) => exists k | k in vals :: Mentions(lt, vals[k], key)
  }

  lemma {:induction false} NavigateKeepsFree(lt: LetterTest, v: Val, rem: seq<string>, key: string)
    requires !Mentions(lt, v, key)
    ensures Navigate(v, rem).Found? ==> !Mentions(lt, Navigate(v, rem).v, key)
    decreases |rem|
  {
    if rem != [] && v.Obj? && rem[0] in v.vals {
      NavigateKeepsFree(lt, v.vals[rem[0]], rem[1..], key);
    }
  }

  /** The detection pass and the rewriting pass agree on whether there is a hit. */
  lemma {:induction false} HitIgnoresReplacement(lt: LetterTest, v: Val, key: string, r: Option<Val>, stack: bool)
    ensures FoldSelfRef(lt, v, key, r, stack).hit == FoldSelfRef(lt, v, key, None, stack).hit
  {
    match v
    case Concat(ps) => forall i | 0 <= i < |ps| { HitIgnoresReplacement(lt, ps[i], key, r, stack); }
    case Arr(es) => forall i | 0 <= i < |es| { HitIgnoresReplacement(lt, es[i], key, r, stack); }
    case Obj(_, vals, _) => forall k | k in vals { HitIgnoresReplacement(lt, vals[k], key, r, false); }
    case _ =>
  }

  /** Folding against a value that is free of the key leaves the key nowhere. */
  lemma {:induction false} FoldedIsFree(lt: LetterTest, v: Val, key: string, r: Option<Val>, stack: bool)
    requires r.Some? ==> !Mentions(lt, r.value, key)
    ensures var f := FoldSelfRef(lt, v, key, r, stack);
            f.hit ==> r.None? || !Mentions(lt, f.v, key)
    ensures var f := FoldSelfRef(lt, v, key, r, stack);
            !f.hit ==> f.v == v && !Mentions(lt, v, key)
  {
    match v
    case Subst(_, segs, _, absent) =>
      if r.Some? && !absent && PrefixRemainder(lt, segs, key).Some? {
        NavigateKeepsFree(lt, r.value, PrefixRemainder(lt, segs, key).value, key);
      }
    case Concat(ps) => forall i | 0 <= i < |ps| { FoldedIsFree(lt, ps[i], key, r, stack); }
    case Arr(es) => forall i | 0 <= i < |es| { FoldedIsFree(lt, es[i], key, r, stack); }
    case Obj(_, vals, _) => forall k | k in vals { FoldedIsFree(lt, vals[k], key, r, false); }
    case _ =>
  }

  lemma {:induction false} AbsentIsFree(lt: LetterTest, v: Val, key: string, stack: bool)
    requires FoldAbsent(lt, v, key, stack).Some?
    ensures !Mentions(lt, FoldAbsent(lt, v, key, stack).value, key)
  {
    match v
    case Concat(ps) => forall i | 0 <= i < |ps| { AbsentIsFree(lt, ps[i], key, stack); }
    case Arr(es) => forall i | 0 <= i < |es| { AbsentIsFree(lt, es[i], key, stack); }
    case Obj(_, vals, _) => forall k | k in vals { AbsentIsFree(lt, vals[k], key, false); }
    case _ =>
  }

  lemma {:induction false} MergedLayersAreFree(lt: LetterTest, base: Val, top: Val, key: string)
    requires base.Obj? && top.Obj? && !Mentions(lt, base, key) && !Mentions(lt, top, key)
    ensures !Mentions(lt, MergePriorLayers(base, top), key)
  {
    var r := MergePriorLayers(base, top);
    forall k | k in r.vals ensures !Mentions(lt, r.vals[k], key) {
      assert k in base.vals || k in top.vals;
      assert r.vals[k] == PriorLayersAt(base, top, k);
      if k in top.vals && k in base.vals && base.vals[k].Obj? && top.vals[k].Obj? {
        MergedLayersAreFree(lt, base.vals[k], top.vals[k], key);
      }
    }
  }

  /** The prior invariant, one save: from a prior that does not mention the key
      only such priors are saved, whatever value is overwritten. */
  lemma {:induction false} SavedPriorIsFree(lt: LetterTest, prior: Val, key: string, below: Option<Val>)
    requires below.Some? ==> !Mentions(lt, below.value, key)
    ensures var saved := FoldOrSkip(lt, prior, key, below);
            saved.Some? ==> !Mentions(lt, saved.value, key)
  {
    FoldedIsFree(lt, prior, key, below, true);
    if prior.Subst? && !prior.knownAbsent && below.Some? && PrefixRemainder(lt, prior.segs, key).Some? {
      var rem := PrefixRemainder(lt, prior.segs, key).value;
      NavigateKeepsFree(lt, below.value, rem, key);
      var nav := Navigate(below.value, rem);
      if nav.Found? && nav.v.Obj? && below.value.Obj? {
        MergedLayersAreFree(lt, below.value, nav.v, key);
      }
    }
    if FoldAbsent(lt, prior, key, true).Some? {
      AbsentIsFree(lt, prior, key, true);
    }
  }

  // ---------- fold to absent, then refill ----------

  /** Every reference that folding to absent would blank out is an exact one,
      and an optional one. */
  predicate OnlyExactOptional(lt: LetterTest, v: Val, key: string, stack: bool) {
    match v
    case Scalar(_, _, _) => true
    case Subst(_, segs, optional, absent) =>
      && !absent
      && (KeyOf(lt, segs) == key ==> optional)
      && (stack ==> PrefixRemainder(lt, segs, key).None?)
    case Concat(ps) => forall i | 0 <= i < |ps| :: OnlyExactOptional(lt, ps[i], key, stack)
    case Arr(es) => forall i | 0 <= i < |es| :: OnlyExactOptional(lt, es[i], key, stack)
    case Obj(_, vals, _) => forall k | k in vals :: OnlyExactOptional(lt, vals[k], key, false)
  }

  lemma {:induction false} NothingToRefill(v: Val, r: Val)
    requires !ContainsSentinel(v)
    ensures Rehydrate(v, r) == v
  {
    match v
    case Concat(ps) =>
      forall i | 0 <= i < |ps| { NothingToRefill(ps[i], r); }
      assert Rehydrate(v, r).parts == ps;
    case Arr(es) =>
      forall i | 0 <= i < |es| { NothingToRefill(es[i], r); }
      assert Rehydrate(v, r).elems == es;
    case Obj(_, vals, _) =>
      forall k | k in vals { NothingToRefill(vals[k], r); }
      assert Rehydrate(v, r).vals == vals;
    case _ =>
  }

  ghost predicate Refills(lt: LetterTest, v: Val, key: string, r: Val, stack: bool) {
    && FoldAbsent(lt, v, key, stack).Some?
    && Rehydrate(FoldAbsent(lt, v, key, stack).value, r) == FoldSelfRef(lt, v, key, Some(r), stack).v
  }

  lemma {:induction false} RefillConcat(lt: LetterTest, ps: seq<Val>, key: string, r: Val, stack: bool)
    requires forall i | 0 <= i < |ps| :: Refills(lt, ps[i], key, r, stack)
    ensures Refills(lt, Concat(ps), key, r, stack)
  {
    var v := Concat(ps);
    forall i | 0 <= i < |ps| { FoldedOrSame(lt, ps[i], key, r, stack); }
    assert forall i | 0 <= i < |ps| :: FoldAbsent(lt, ps[i], key, stack).Some?;
    var blank := FoldAbsent(lt, v, key, stack).value;
    var folded := FoldSelfRef(lt, v, key, Some(r), stack);
    assert forall i | 0 <= i < |ps| :: blank.parts[i] == FoldAbsent(lt, ps[i], key, stack).value;
    assert forall i | 0 <= i < |ps| :: folded.v.parts[i] == FoldSelfRef(lt, ps[i], key, Some(r), stack).v;
    assert Rehydrate(blank, r).parts == folded.v.parts;
  }

  lemma {:induction false} RefillArr(lt: LetterTest, es: seq<Val>, key: string, r: Val, stack: bool)
    requires forall i | 0 <= i < |es| :: Refills(lt, es[i], key, r, stack)
    ensures Refills(lt, Arr(es), key, r, stack)
  {
    var v := Arr(es);
    forall i | 0 <= i < |es| { FoldedOrSame(lt, es[i], key, r, stack); }
    assert forall i | 0 <= i < |es| :: FoldAbsent(lt, es[i], key, stack).Some?;
    var blank := FoldAbsent(lt, v, key, stack).value;
    var folded := FoldSelfRef(lt, v, key, Some(r), stack);
    assert forall i | 0 <= i < |es| :: blank.elems[i] == FoldAbsent(lt, es[i], key, stack).value;
    assert forall i | 0 <= i < |es| :: folded.v.elems[i] == FoldSelfRef(lt, es[i], key, Some(r), stack).v;
    assert Rehydrate(blank, r).elems == folded.v.elems;
  }

  /** A folded object is its fields folded one by one. */
  lemma {:induction false} FoldedObj(lt: LetterTest, v: Val, key: string, r: Val, stack: bool)
    requires v.Obj?
    ensures var f := FoldSelfRef(lt, v, key, Some(r), stack).v;
            && f.Obj? && f.keys == v.keys && f.priors == v.priors && f.vals.Keys == v.vals.Keys
            && forall k | k in v.vals :: f.vals[k] == FoldSelfRef(lt, v.vals[k], key, Some(r), false).v
  {
    forall k | k in v.vals { FoldedOrSame(lt, v.vals[k], key, r, false); }
  }

  lemma {:induction false} RefillObj(lt: LetterTest, v: Val, key: string, r: Val, stack: bool)
    requires v.Obj? && forall k | k in v.vals :: Refills(lt, v.vals[k], key, r, false)
    ensures Refills(lt, v, key, r, stack)
  {
    FoldedObj(lt, v, key, r, stack);
    var folded := FoldSelfRef(lt, v, key, Some(r), stack).v;
    assert forall k | k in v.vals :: FoldAbsent(lt, v.vals[k], key, false).Some?;
    var blank := FoldAbsent(lt, v, key, stack).value;
    assert blank.vals == map k | k in v.vals :: FoldAbsent(lt, v.vals[k], key, false).value;
    assert Rehydrate(blank, r).vals == folded.vals;
  }

  /** Blanking the self-references out and filling them in later is the same as
      folding them at once. */
  lemma {:induction false} RefillIsFold(lt: LetterTest, v: Val, key: string, r: Val, stack: bool)
    requires OnlyExactOptional(lt, v, key, stack)
    ensures FoldAbsent(lt, v, key, stack).Some?
    ensures Rehydrate(FoldAbsent(lt, v, key, stack).value, r) == FoldSelfRef(lt, v, key, Some(r), stack).v
  {
    match v
    case Concat(ps) =>
      forall i | 0 <= i < |ps| ensures Refills(lt, ps[i], key, r, stack) { RefillIsFold(lt, ps[i], key, r, stack); }
      RefillConcat(lt, ps, key, r, stack);
    case Arr(es) =>
      forall i | 0 <= i < |es| ensures Refills(lt, es[i], key, r, stack) { RefillIsFold(lt, es[i], key, r, stack); }
      RefillArr(lt, es, key, r, stack);
    case Obj(_, vals, _) =>
      forall k | k in vals ensures Refills(lt, vals[k], key, r, false) { RefillIsFold(lt, vals[k], key, r, false); }
      RefillObj(lt, v, key, r, stack);
    case _ =>
  }

  lemma {:induction false} FoldedOrSame(lt: LetterTest, v: Val, key: string, r: Val, stack: bool)
    ensures var f := FoldSelfRef(lt, v, key, Some(r), stack); !f.hit ==> f.v == v
  {
  }

  /** A folded array or concatenation is its parts folded one by one, hit or not. */
  lemma {:induction false} FoldedParts(lt: LetterTest, v: Val, vs: seq<Val>, key: string, p: Val, stack: bool)
    requires v == Concat(vs) || v == Arr(vs)
    ensures var us := seq(|vs|, i requires 0 <= i < |vs| => FoldSelfRef(lt, vs[i], key, Some(p), stack).v);
            FoldSelfRef(lt, v, key, Some(p), stack).v == if v.Concat? then Concat(us) else Arr(us)
  {
    forall i | 0 <= i < |vs| { FoldedOrSame(lt, vs[i], key, p, stack); }
    var us := seq(|vs|, i requires 0 <= i < |vs| => FoldSelfRef(lt, vs[i], key, Some(p), stack).v);
    if !FoldSelfRef(lt, v, key, Some(p), stack).hit {
      assert us == vs;
    }
  }

  /** A refilled value has a sentinel left exactly when it had one and the
      replacement brings one. */
  lemma {:induction false} RefillLeavesNoSentinel(v: Val, r: Val)
    ensures ContainsSentinel(Rehydrate(v, r)) <==> ContainsSentinel(v) && ContainsSentinel(r)
  {
    match v
    case Concat(ps) =>
      forall i | 0 <= i < |ps| { RefillLeavesNoSentinel(ps[i], r); }
      assert forall i | 0 <= i < |ps| :: Rehydrate(v, r).parts[i] == Rehydrate(ps[i], r);
    case Arr(es) =>
      forall i | 0 <= i < |es| { RefillLeavesNoSentinel(es[i], r); }
      assert forall i | 0 <= i < |es| :: Rehydrate(v, r).elems[i] == Rehydrate(es[i], r);
    case Obj(_, vals, _) =>
      forall k | k in vals { RefillLeavesNoSentinel(vals[k], r); }
      assert forall k | k in vals :: Rehydrate(v, r).vals[k] == Rehydrate(vals[k], r);
    case _ =>
  }
}
