/**
 The folding walks of the source (internal/resolver/foldselfref.go): loops that fill
 fresh slices and objects, the input left as it is.  Each computes its
 specification in Fold.
 */
module Folding {
  import opened Paths
  import opened Values
  import opened Fold
  import opened Merge

  // ---------- foldSelfRefInner ----------

  method FoldSelfRefWalk(lt: LetterTest, v: Val, key: string, replacement: Option<Val>, stack: bool) returns (f: Folded)
    requires WellFormed(v)
    ensures f == FoldSelfRef(lt, v, key, replacement, stack)
    decreases v, 1
  {
    match v
    case Scalar(_, _, _) => return Folded(v, false);
    case Subst(_, segs, _, absent) =>
      if absent {
        return Folded(v, false);
      }
      if KeyOf(lt, segs) == key {
        return Folded(if replacement.Some? then replacement.value else v, true);
      }
      if stack {
        var rem := PrefixRemainder(lt, segs, key);
        if rem.Some? {
          return Folded(if replacement.Some? then FoldPrefix(v, replacement.value, rem.value) else v, true);
        }
      }
      return Folded(v, false);
    case Concat(ps) =>
      var newVals, anyHit := FoldSlice(lt, ps, key, replacement, stack);
      if !anyHit || replacement.None? {
        return Folded(v, anyHit);
      }
      return Folded(Concat(newVals), true);
    case Arr(es) =>
      var newEls, anyHit := FoldSlice(lt, es, key, replacement, stack);
      if !anyHit || replacement.None? {
        return Folded(v, anyHit);
      }
      return Folded(Arr(newEls), true);
    case Obj(_, _, _) =>
      var newObj, anyHit := FoldFields(lt, v, key, replacement);
      if !anyHit || replacement.None? {
        return Folded(v, anyHit);
      }
      return Folded(newObj, true);
  }

  /** The loop over pieces or elements; the new slice is begun at the first hit. */
  method FoldSlice(lt: LetterTest, vs: seq<Val>, key: string, replacement: Option<Val>, stack: bool)
    returns (newVals: seq<Val>, anyHit: bool)
    requires forall i | 0 <= i < |vs| :: WellFormed(vs[i])
    ensures anyHit <==> exists i | 0 <= i < |vs| :: FoldSelfRef(lt, vs[i], key, replacement, stack).hit
    ensures anyHit && replacement.Some? ==>
              newVals == seq(|vs|, i requires 0 <= i < |vs| => FoldSelfRef(lt, vs[i], key, replacement, stack).v)
    decreases vs, 0
  {
    newVals, anyHit := [], false;
    for i := 0 to |vs|
      invariant anyHit <==> exists j | 0 <= j < i :: FoldSelfRef(lt, vs[j], key, replacement, stack).hit
      invariant anyHit && replacement.Some? ==>
                  |newVals| == i && forall j | 0 <= j < i ::
                    newVals[j] == FoldSelfRef(lt, vs[j], key, replacement, stack).v
    {
      var f := FoldSelfRefWalk(lt, vs[i], key, replacement, stack);
      if f.hit {
        if !anyHit && replacement.Some? {
          newVals := vs[..i];
          forall j | 0 <= j < i ensures newVals[j] == FoldSelfRef(lt, vs[j], key, replacement, stack).v {
            assert !FoldSelfRef(lt, vs[j], key, replacement, stack).hit;
            FoldedOrSame(lt, vs[j], key, replacement.value, stack);
          }
        }
        anyHit := true;
      }
      if anyHit && replacement.Some? {
        newVals := newVals + [f.v];
      }
    }
  }

  /** The object built from the first i fields, each at its new value. */
  ghost predicate BuiltFrom(o: Val, i: nat, now: map<string, Val>, built: Val)
    requires o.Obj? && i <= |o.keys|
  {
    && built.Obj? && built.keys == o.keys[..i] && built.priors == o.priors
    && (forall k :: k in built.vals <==> k in o.keys[..i])
    && (forall k | k in built.vals :: k in now && built.vals[k] == now[k])
  }

  lemma {:induction false} OneMoreField(o: Val, i: nat, now: map<string, Val>, built: Val, v: Val)
    requires o.Obj? && KeysMatch(o) && i < |o.keys| && BuiltFrom(o, i, now, built)
    requires o.keys[i] in now && v == now[o.keys[i]]
    ensures BuiltFrom(o, i + 1, now, Set(built, o.keys[i], v))
  {
    assert o.keys[..i + 1] == o.keys[..i] + [o.keys[i]];
    assert o.keys[i] !in o.keys[..i];
  }

  lemma {:induction false} AllFields(o: Val, now: map<string, Val>, built: Val)
    requires o.Obj? && KeysMatch(o) && now.Keys == o.vals.Keys && BuiltFrom(o, |o.keys|, now, built)
    ensures built == Obj(o.keys, now, o.priors)
  {
    assert o.keys[..|o.keys|] == o.keys;
    forall k ensures Get(built.vals, k) == Get(now, k) {
      assert k in o.keys <==> k in o.vals;
    }
    SameMaps(built.vals, now);
  }

  /** The copy of the fields in front of the first one that changes. */
  method CopyFields(o: Val, i: nat, ghost now: map<string, Val>) returns (built: Val)
    requires o.Obj? && KeysMatch(o) && i <= |o.keys|
    requires forall j | 0 <= j < i :: o.keys[j] in now && now[o.keys[j]] == o.vals[o.keys[j]]
    ensures BuiltFrom(o, i, now, built)
  {
    built := Obj([], map[], o.priors);
    for j := 0 to i
      invariant BuiltFrom(o, j, now, built)
    {
      OneMoreField(o, j, now, built, o.vals[o.keys[j]]);
      built := Set(built, o.keys[j], o.vals[o.keys[j]]);
    }
  }

  ghost predicate HitAt(lt: LetterTest, o: Val, key: string, r: Option<Val>, i: nat)
    requires o.Obj? && KeysMatch(o) && i < |o.keys|
  {
    FoldSelfRef(lt, o.vals[o.keys[i]], key, r, false).hit
  }

  lemma {:induction false} HitsByKey(lt: LetterTest, o: Val, key: string, r: Option<Val>)
    requires o.Obj? && KeysMatch(o)
    ensures (exists i | 0 <= i < |o.keys| :: HitAt(lt, o, key, r, i)) <==>
            (exists k | k in o.vals :: FoldSelfRef(lt, o.vals[k], key, r, false).hit)
  {
    if i :| 0 <= i < |o.keys| && HitAt(lt, o, key, r, i) {
      assert o.keys[i] in o.vals;
    }
    if k :| k in o.vals && FoldSelfRef(lt, o.vals[k], key, r, false).hit {
      var i :| 0 <= i < |o.keys| && o.keys[i] == k;
      assert HitAt(lt, o, key, r, i);
    }
  }

  ghost function FoldedVals(lt: LetterTest, o: Val, key: string, r: Option<Val>): (m: map<string, Val>)
    requires o.Obj?
    ensures m.Keys == o.vals.Keys
  {
    map k | k in o.vals :: FoldSelfRef(lt, o.vals[k], key, r, false).v
  }

  /** Fields that are not hit keep their value. */
  lemma {:induction false} UnhitIsSame(lt: LetterTest, o: Val, key: string, r: Val, i: nat)
    requires o.Obj? && KeysMatch(o) && i <= |o.keys| && forall j | 0 <= j < i :: !HitAt(lt, o, key, Some(r), j)
    ensures forall j | 0 <= j < i :: FoldedVals(lt, o, key, Some(r))[o.keys[j]] == o.vals[o.keys[j]]
  {
    forall j | 0 <= j < i ensures FoldedVals(lt, o, key, Some(r))[o.keys[j]] == o.vals[o.keys[j]] {
      assert !HitAt(lt, o, key, Some(r), j);
      FoldedOrSame(lt, o.vals[o.keys[j]], key, r, false);
    }
  }

  method FoldFields(lt: LetterTest, o: Val, key: string, replacement: Option<Val>) returns (newObj: Val, anyHit: bool)
    requires o.Obj? && WellFormed(o)
    ensures anyHit <==> exists k | k in o.vals :: FoldSelfRef(lt, o.vals[k], key, replacement, false).hit
    ensures anyHit && replacement.Some? ==> newObj == Obj(o.keys, FoldedVals(lt, o, key, replacement), o.priors)
    decreases o, 0
  {
    newObj, anyHit := o, false;
    ghost var now := FoldedVals(lt, o, key, replacement);
    for i := 0 to |o.keys|
      invariant anyHit <==> exists j | 0 <= j < i :: HitAt(lt, o, key, replacement, j)
      invariant anyHit && replacement.Some? ==> BuiltFrom(o, i, now, newObj)
    {
      var k := o.keys[i];
      var f := FoldSelfRefWalk(lt, o.vals[k], key, replacement, false);
      assert f.hit == HitAt(lt, o, key, replacement, i) && now[k] == f.v;
      if f.hit {
        if !anyHit && replacement.Some? {
          UnhitIsSame(lt, o, key, replacement.value, i);
          newObj := CopyFields(o, i, now);
        }
        anyHit := true;
      }
      if anyHit && replacement.Some? {
        OneMoreField(o, i, now, newObj, f.v);
        newObj := Set(newObj, k, f.v);
      }
    }
    HitsByKey(lt, o, key, replacement);
    if anyHit && replacement.Some? {
      AllFields(o, now, newObj);
    }
  }

  // ---------- foldOptionalSelfRefAbsentInner ----------

  method FoldAbsentWalk(lt: LetterTest, v: Val, key: string, stack: bool) returns (r: Option<Val>)
    requires WellFormed(v)
    ensures r == FoldAbsent(lt, v, key, stack)
    decreases v, 1
  {
    match v
    case Scalar(_, _, _) => return Some(v);
    case Subst(_, segs, optional, absent) =>
      var prefixHit := stack && PrefixRemainder(lt, segs, key).Some?;
      if absent || (KeyOf(lt, segs) != key && !prefixHit) {
        return Some(v);
      }
      if !optional {
        return None;
      }
      return Some(v.(knownAbsent := true));
    case Concat(ps) =>
      var newVals := AbsentSlice(lt, ps, key, stack);
      assert newVals.Some? ==> newVals.value == FoldAbsent(lt, v, key, stack).value.parts;
      return if newVals.None? then None else Some(Concat(newVals.value));
    case Arr(es) =>
      var newEls := AbsentSlice(lt, es, key, stack);
      assert newEls.Some? ==> newEls.value == FoldAbsent(lt, v, key, stack).value.elems;
      return if newEls.None? then None else Some(Arr(newEls.value));
    case Obj(_, _, _) => r := AbsentFields(lt, v, key);
  }

  ghost predicate AbsentFits(lt: LetterTest, o: Val, key: string, i: nat)
    requires o.Obj? && KeysMatch(o) && i < |o.keys|
  {
    FoldAbsent(lt, o.vals[o.keys[i]], key, false).Some?
  }

  method AbsentFields(lt: LetterTest, o: Val, key: string) returns (r: Option<Val>)
    requires o.Obj? && WellFormed(o)
    ensures r == FoldAbsent(lt, o, key, true) == FoldAbsent(lt, o, key, false)
    decreases o, 0
  {
    var newObj := Obj([], map[], o.priors);
    ghost var now := map k | k in o.vals && FoldAbsent(lt, o.vals[k], key, false).Some? ::
      FoldAbsent(lt, o.vals[k], key, false).value;
    for i := 0 to |o.keys|
      invariant forall j | 0 <= j < i :: AbsentFits(lt, o, key, j)
      invariant BuiltFrom(o, i, now, newObj)
    {
      var k := o.keys[i];
      var folded := FoldAbsentWalk(lt, o.vals[k], key, false);
      if folded.None? {
        assert k in o.vals;
        return None;
      }
      OneMoreField(o, i, now, newObj, folded.value);
      newObj := Set(newObj, k, folded.value);
    }
    forall k | k in o.vals ensures FoldAbsent(lt, o.vals[k], key, false).Some? {
      var j :| 0 <= j < |o.keys| && o.keys[j] == k;
      assert AbsentFits(lt, o, key, j);
    }
    AllFields(o, now, newObj);
    assert now == FoldAbsent(lt, o, key, false).value.vals;
    return Some(newObj);
  }

  method AbsentSlice(lt: LetterTest, vs: seq<Val>, key: string, stack: bool) returns (r: Option<seq<Val>>)
    requires forall i | 0 <= i < |vs| :: WellFormed(vs[i])
    ensures r.Some? <==> forall i | 0 <= i < |vs| :: FoldAbsent(lt, vs[i], key, stack).Some?
    ensures r.Some? ==>
            |r.value| == |vs| && forall i | 0 <= i < |vs| :: r.value[i] == FoldAbsent(lt, vs[i], key, stack).value
    decreases vs, 0
  {
    var newVals: seq<Val> := [];
    for i := 0 to |vs|
      invariant |newVals| == i
      invariant forall j | 0 <= j < i ::
                FoldAbsent(lt, vs[j], key, stack).Some? && newVals[j] == FoldAbsent(lt, vs[j], key, stack).value
    {
      var folded := FoldAbsentWalk(lt, vs[i], key, stack);
      if folded.None? {
        return None;
      }
      newVals := newVals + [folded.value];
    }
    return Some(newVals);
  }

  // ---------- rehydrateSentinel ----------

  method RehydrateWalk(v: Val, replacement: Val) returns (r: Val)
    requires WellFormed(v)
    ensures r == Rehydrate(v, replacement)
    decreases v, 1
  {
    match v
    case Scalar(_, _, _) => return v;
    case Subst(_, _, _, absent) => return if absent then replacement else v;
    case Concat(ps) =>
      var newVals := RehydrateSlice(ps, replacement);
      return Concat(newVals);
    case Arr(es) =>
      var newEls := RehydrateSlice(es, replacement);
      return Arr(newEls);
    case Obj(keys, vals, priors) =>
      var newObj, changed := v, false;
      ghost var now := map k | k in vals :: Rehydrate(vals[k], replacement);
      for i := 0 to |keys|
        invariant if changed then BuiltFrom(v, i, now, newObj)
                  else forall j | 0 <= j < i :: now[keys[j]] == vals[keys[j]]
      {
        var k := keys[i];
        var nv := RehydrateWalk(vals[k], replacement);
        if nv != vals[k] && !changed {
          newObj := CopyFields(v, i, now);
          changed := true;
        }
        if changed {
          OneMoreField(v, i, now, newObj, nv);
          newObj := Set(newObj, k, nv);
        }
      }
      if !changed {
        forall k | k in vals ensures now[k] == vals[k] {
          var j :| 0 <= j < |keys| && keys[j] == k;
          assert now[keys[j]] == vals[keys[j]];
        }
        assert now == vals;
        return v;
      }
      AllFields(v, now, newObj);
      return newObj;
  }

  /** A sentinel is replaced by one element, whatever the replacement is. */
  method RehydrateSlice(vs: seq<Val>, replacement: Val) returns (newVals: seq<Val>)
    requires forall i | 0 <= i < |vs| :: WellFormed(vs[i])
    ensures newVals == seq(|vs|, i requires 0 <= i < |vs| => Rehydrate(vs[i], replacement))
    decreases vs, 0
  {
    newVals := [];
    for i := 0 to |vs|
      invariant |newVals| == i && forall j | 0 <= j < i :: newVals[j] == Rehydrate(vs[j], replacement)
    {
      var ne := RehydrateWalk(vs[i], replacement);
      newVals := newVals + [ne];
    }
  }
}
