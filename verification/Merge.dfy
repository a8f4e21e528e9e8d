/**
 The merges of internal/resolver: object concatenation, the bookkeeping-free
 layer merge, the deep merge of duplicate keys, and the WithFallback merge.
 They are written separately in the source; on concrete trees they are one
 operation.
 */
module Merge {
  import opened Paths
  import opened Values
  import opened Fold

  function Get(m: map<string, Val>, k: string): Option<Val> {
    if k in m then Some(m[k]) else None
  }

  /** mergeObjectConcat: right wins, and nothing of either side's priors is kept. */
  function MergeObjectConcat(left: Val, right: Val): (r: Val)
    requires left.Obj? && right.Obj?
    ensures r.Obj?
    decreases left, 1
  {
    Obj(left.keys + NewKeys(left, right.keys),
        map k | k in left.vals.Keys + right.vals.Keys :: ConcatAt(left, right, k),
        map[])
  }

  function ConcatAt(left: Val, right: Val, k: string): Val
    requires left.Obj? && right.Obj? && (k in left.vals || k in right.vals)
    decreases left, 0
  {
    if k !in right.vals then left.vals[k]
    else if k in left.vals && left.vals[k].Obj? && right.vals[k].Obj?
    then MergeObjectConcat(left.vals[k], right.vals[k])
    else right.vals[k]
  }

  predicate BothObjects(a: Val, b: Val, k: string)
    requires a.Obj? && b.Obj? && k in a.vals && k in b.vals
  {
    a.vals[k].Obj? && b.vals[k].Obj?
  }

  // ---------- deepMergeAt ----------

  /** deepMergeAt: dst wins, its keys come first; priors are saved on request. */
  function DeepMergeAt(lt: LetterTest, dst: Val, src: Val, path: seq<string>, save: bool): (r: Val)
    requires dst.Obj? && src.Obj?
    ensures r.Obj?
    decreases dst, 1
  {
    Obj(dst.keys + NewKeys(dst, src.keys),
        map k | k in dst.vals.Keys + src.vals.Keys :: DeepAt(lt, dst, src, path, save, k),
        map k | k in dst.vals.Keys + dst.priors.Keys + src.priors.Keys &&
          DeepPrior(lt, dst, src, path, save, k).Some? ::
          DeepPrior(lt, dst, src, path, save, k).value)
  }

  function DeepAt(lt: LetterTest, dst: Val, src: Val, path: seq<string>, save: bool, k: string): Val
    requires dst.Obj? && src.Obj? && (k in dst.vals || k in src.vals)
    decreases dst, 0
  {
    if k !in dst.vals then src.vals[k]
    else if k !in src.vals then dst.vals[k]
    else if BothObjects(dst, src, k) then DeepMergeAt(lt, dst.vals[k], src.vals[k], path + [k], save)
    else if ContainsSentinel(dst.vals[k]) then Rehydrate(dst.vals[k], src.vals[k])
    else dst.vals[k]
  }

  /** The prior of one key after deepMergeAt. */
  function DeepPrior(lt: LetterTest, dst: Val, src: Val, path: seq<string>, save: bool, k: string): Option<Val>
    requires dst.Obj? && src.Obj?
  {
    var own := DeepOwn(lt, dst, src, path, save, k);
    if own.Some? then own else Get(src.priors, k)
  }

  /** The same before the priors of src are carried over. */
  function DeepOwn(lt: LetterTest, dst: Val, src: Val, path: seq<string>, save: bool, k: string): Option<Val>
    requires dst.Obj? && src.Obj?
  {
    if k in src.vals && k in dst.vals && !BothObjects(dst, src, k)
    then CollisionPrior(lt, dst, src, path, save, k)
    else Get(dst.priors, k)
  }

  /** What a collision of two values, not both objects, saves for the key. */
  function CollisionPrior(lt: LetterTest, dst: Val, src: Val, path: seq<string>, save: bool, k: string): Option<Val>
    requires dst.Obj? && src.Obj? && k in dst.vals && k in src.vals
  {
    var kept := Get(dst.priors, k);
    var folded := if save then FoldOrSkip(lt, src.vals[k], KeyOf(lt, path + [k]), kept) else None;
    var saved := if folded.Some? then folded else kept;
    var selfKey := if ContainsSentinel(dst.vals[k]) then None else SelfRefFullKey(lt, dst.vals[k], k);
    if selfKey.None? then saved
    else
      var foldedSrc := FoldOrSkip(lt, src.vals[k], selfKey.value, Get(src.priors, k));
      if foldedSrc.None? then saved
      else if kept.Some? then Some(Rehydrate(kept.value, foldedSrc.value))
      else foldedSrc
  }

  function DeepMerge(lt: LetterTest, dst: Val, src: Val): (r: Val)
    requires dst.Obj? && src.Obj?
    ensures r.Obj?
  {
    DeepMergeAt(lt, dst, src, [], false)
  }

  // ---------- MergeUnresolved ----------

  /** A non-object prior of the receiver bars later objects from the key. */
  predicate Barrier(receiver: Val, k: string)
    requires receiver.Obj?
  {
    k in receiver.priors && !receiver.priors[k].Obj?
  }

  function MergeUnresolved(lt: LetterTest, receiver: Val, fallback: Val): (r: Val)
    requires receiver.Obj? && fallback.Obj?
    ensures r.Obj?
    decreases receiver, 1
  {
    Obj(fallback.keys + NewKeys(fallback, receiver.keys),
        map k | k in fallback.vals.Keys + receiver.vals.Keys :: UnresolvedAt(lt, receiver, fallback, k),
        map k | k in fallback.priors.Keys + receiver.vals.Keys + receiver.priors.Keys &&
          UnresolvedPrior(lt, receiver, fallback, k).Some? ::
          UnresolvedPrior(lt, receiver, fallback, k).value)
  }

  function UnresolvedAt(lt: LetterTest, receiver: Val, fallback: Val, k: string): Val
    requires receiver.Obj? && fallback.Obj? && (k in receiver.vals || k in fallback.vals)
    decreases receiver, 0
  {
    if k !in receiver.vals then fallback.vals[k]
    else if k in fallback.vals && BothObjects(receiver, fallback, k) && !Barrier(receiver, k)
    then MergeUnresolved(lt, receiver.vals[k], fallback.vals[k])
    else receiver.vals[k]
  }

  function UnresolvedPrior(lt: LetterTest, receiver: Val, fallback: Val, k: string): Option<Val>
    requires receiver.Obj? && fallback.Obj?
  {
    var captured := CapturedPrior(lt, receiver, fallback, k);
    if k !in receiver.priors then captured
    else if ContainsSentinel(receiver.priors[k]) && captured.Some? && !ContainsSentinel(captured.value)
    then Some(Rehydrate(receiver.priors[k], captured.value))
    else Some(receiver.priors[k])
  }

  /** The fallback's part: its own prior, or its value where the receiver hides it. */
  function CapturedPrior(lt: LetterTest, receiver: Val, fallback: Val, k: string): Option<Val>
    requires receiver.Obj? && fallback.Obj?
  {
    var carried := Get(fallback.priors, k);
    if k in receiver.vals && k in fallback.vals && !BothObjects(receiver, fallback, k) then
      var folded := FoldOrSkip(lt, fallback.vals[k], k, None);
      if folded.Some? then folded else carried
    else carried
  }

  lemma {:induction false} UnresolvedPriorOf(lt: LetterTest, receiver: Val, fallback: Val, k: string)
    requires receiver.Obj? && fallback.Obj?
    ensures Get(MergeUnresolved(lt, receiver, fallback).priors, k) == UnresolvedPrior(lt, receiver, fallback, k)
  {
  }

  // ---------- the loops of the source ----------

  /** Setting a run of keys, each to its value in "at", on an object whose priors
      play no part. */
  ghost function SetAll(o: Val, keys: seq<string>, at: map<string, Val>): (r: Val)
    requires o.Obj? && forall k | k in keys :: k in at
    ensures r.Obj?
    decreases keys
  {
    if keys == [] then o else SetAll(Set(o, keys[0], at[keys[0]]), keys[1..], at)
  }

  function Priorless(o: Val): Val
    requires o.Obj?
  {
    Obj(o.keys, o.vals, map[])
  }

  ghost predicate Untouched(o: Val, base: Val, keys: seq<string>)
    requires o.Obj? && base.Obj?
  {
    forall k | k in keys :: Get(o.vals, k) == Get(base.vals, k)
  }

  lemma {:induction false} StillUntouched(o: Val, base: Val, keys: seq<string>, i: nat, v: Val)
    requires o.Obj? && base.Obj? && i < |keys| && Distinct(keys) && Untouched(o, base, keys[i..])
    ensures Untouched(Set(o, keys[i], v), base, keys[i + 1..])
    ensures Get(o.vals, keys[i]) == Get(base.vals, keys[i])
    ensures keys[i..][1..] == keys[i + 1..] && keys[i..][0] == keys[i]
  {
    assert keys[i] in keys[i..];
    forall k | k in keys[i + 1..] ensures k in keys[i..] && k != keys[i] {
    }
  }

  lemma {:induction false} NewKeysGrown(o: Val, k: string, v: Val, keys: seq<string>)
    requires o.Obj? && k !in keys
    ensures NewKeys(Set(o, k, v), keys) == NewKeys(o, keys)
  {
    if keys != [] {
      NewKeysGrown(o, k, v, keys[1..]);
    }
  }

  /** What such a run comes to. */
  lemma {:induction false} SetAllIs(o: Val, keys: seq<string>, at: map<string, Val>)
    requires o.Obj? && Distinct(keys) && forall k | k in keys :: k in at
    ensures SetAll(o, keys, at).keys == o.keys + NewKeys(o, keys)
    ensures forall k :: Get(SetAll(o, keys, at).vals, k) == if k in keys then Some(at[k]) else Get(o.vals, k)
    ensures SetAll(o, keys, at).priors == o.priors
    decreases keys
  {
    if keys != [] {
      var p := Set(o, keys[0], at[keys[0]]);
      assert keys[0] !in keys[1..];
      SetAllIs(p, keys[1..], at);
      NewKeysGrown(o, keys[0], at[keys[0]], keys[1..]);
      if keys[0] !in o.vals {
        Assoc(o.keys, [keys[0]], NewKeys(o, keys[1..]));
      }
      assert forall k :: k in keys <==> k == keys[0] || k in keys[1..];
    }
  }

  lemma {:induction false} SameMaps(a: map<string, Val>, b: map<string, Val>)
    requires forall k :: Get(a, k) == Get(b, k)
    ensures a == b
  {
    forall k ensures k in a <==> k in b {
      assert Get(a, k) == Get(b, k);
    }
    forall k | k in a ensures a[k] == b[k] {
      assert Get(a, k) == Get(b, k);
    }
  }

  /** A finished run over all keys of top, each at the value that f's object has. */
  lemma {:induction false} RunIs(base: Val, top: Val, at: map<string, Val>, all: Val)
    requires base.Obj? && top.Obj? && all.Obj? && KeysMatch(top)
    requires all.keys == base.keys + NewKeys(base, top.keys)
    requires forall k :: k in at <==> k in top.vals
    requires forall k :: Get(all.vals, k) == if k in at then Some(at[k]) else Get(base.vals, k)
    ensures Priorless(SetAll(Priorless(base), top.keys, at)) == Priorless(all)
  {
    var r := SetAll(Priorless(base), top.keys, at);
    SetAllIs(Priorless(base), top.keys, at);
    NewKeysBare(base, top.keys);
    forall k ensures Get(r.vals, k) == Get(all.vals, k) {
      assert k in top.keys <==> k in at;
    }
    SameMaps(r.vals, all.vals);
  }

  lemma {:induction false} NewKeysBare(o: Val, keys: seq<string>)
    requires o.Obj?
    ensures NewKeys(Priorless(o), keys) == NewKeys(o, keys)
  {
    if keys != [] {
      NewKeysBare(o, keys[1..]);
    }
  }

  ghost function ConcatNew(left: Val, right: Val): (m: map<string, Val>)
    requires left.Obj? && right.Obj?
    ensures m.Keys == right.vals.Keys
  {
    map k | k in right.vals :: ConcatAt(left, right, k)
  }

  lemma {:induction false} ConcatValue(left: Val, right: Val, k: string)
    requires left.Obj? && right.Obj?
    ensures Get(MergeObjectConcat(left, right).vals, k) ==
            if k in left.vals || k in right.vals then Some(ConcatAt(left, right, k)) else None
  {
    assert k in MergeObjectConcat(left, right).vals <==> k in left.vals.Keys + right.vals.Keys;
  }

  lemma {:induction false} ConcatRun(left: Val, right: Val)
    requires left.Obj? && right.Obj? && KeysMatch(right)
    ensures Priorless(SetAll(Priorless(left), right.keys, ConcatNew(left, right))) ==
            Priorless(MergeObjectConcat(left, right))
  {
    var at, all := ConcatNew(left, right), MergeObjectConcat(left, right);
    forall k ensures Get(all.vals, k) == if k in at then Some(at[k]) else Get(left.vals, k) {
      ConcatValue(left, right, k);
    }
    RunIs(left, right, at, all);
  }

  /** One key of right. */
  method ConcatKey(left: Val, right: Val, k: string) returns (v: Val)
    requires left.Obj? && right.Obj? && WellFormed(left) && WellFormed(right) && k in right.vals
    ensures v == ConcatAt(left, right, k)
    decreases left, 0
  {
    v := right.vals[k];
    if k in left.vals && left.vals[k].Obj? && v.Obj? {
      v := MergeObjectConcatLoop(left.vals[k], v);
    }
  }

  method MergeObjectConcatLoop(left: Val, right: Val) returns (result: Val)
    requires left.Obj? && right.Obj? && WellFormed(left) && WellFormed(right)
    ensures result == MergeObjectConcat(left, right)
    decreases left, 1
  {
    result := Priorless(left);
    ghost var at := ConcatNew(left, right);
    assert right.keys[0..] == right.keys;
    for i := 0 to |right.keys|
      invariant result.Obj? && result.priors == map[] && Untouched(result, left, right.keys[i..])
      invariant SetAll(result, right.keys[i..], at) == SetAll(Priorless(left), right.keys, at)
    {
      var k := right.keys[i];
      StillUntouched(result, left, right.keys, i, at[k]);
      var v := ConcatKey(left, right, k);
      result := Set(result, k, v);
    }
    ConcatRun(left, right);
  }

  ghost function PriorLayersNew(base: Val, top: Val): (m: map<string, Val>)
    requires base.Obj? && top.Obj?
    ensures m.Keys == top.vals.Keys
  {
    map k | k in top.vals :: PriorLayersAt(base, top, k)
  }

  lemma {:induction false} PriorLayersValue(base: Val, top: Val, k: string)
    requires base.Obj? && top.Obj?
    ensures Get(MergePriorLayers(base, top).vals, k) ==
            if k in base.vals || k in top.vals then Some(PriorLayersAt(base, top, k)) else None
  {
    assert k in MergePriorLayers(base, top).vals <==> k in base.vals.Keys + top.vals.Keys;
  }

  lemma {:induction false} PriorLayersRun(base: Val, top: Val)
    requires base.Obj? && top.Obj? && KeysMatch(top)
    ensures Priorless(SetAll(Priorless(base), top.keys, PriorLayersNew(base, top))) ==
            Priorless(MergePriorLayers(base, top))
  {
    var at, all := PriorLayersNew(base, top), MergePriorLayers(base, top);
    forall k ensures Get(all.vals, k) == if k in at then Some(at[k]) else Get(base.vals, k) {
      PriorLayersValue(base, top, k);
    }
    RunIs(base, top, at, all);
  }

  /** One key of top. */
  method PriorLayersKey(base: Val, top: Val, k: string) returns (v: Val)
    requires base.Obj? && top.Obj? && WellFormed(base) && WellFormed(top) && k in top.vals
    ensures v == PriorLayersAt(base, top, k)
    decreases base, 0
  {
    v := top.vals[k];
    if k in base.vals && base.vals[k].Obj? && v.Obj? {
      v := MergePriorLayersLoop(base.vals[k], v);
    }
  }

  method MergePriorLayersLoop(base: Val, top: Val) returns (out: Val)
    requires base.Obj? && top.Obj? && WellFormed(base) && WellFormed(top)
    ensures out == MergePriorLayers(base, top)
    decreases base, 1
  {
    out := Priorless(base);
    ghost var at := PriorLayersNew(base, top);
    assert top.keys[0..] == top.keys;
    for i := 0 to |top.keys|
      invariant out.Obj? && out.priors == map[] && Untouched(out, base, top.keys[i..])
      invariant SetAll(out, top.keys[i..], at) == SetAll(Priorless(base), top.keys, at)
    {
      var k := top.keys[i];
      StillUntouched(out, base, top.keys, i, at[k]);
      var v := PriorLayersKey(base, top, k);
      out := Set(out, k, v);
    }
    PriorLayersRun(base, top);
    out := out.(priors := base.priors + top.priors);
  }

  // ---------- the loops that also keep priors ----------

  function Put(m: map<string, Val>, k: string, v: Option<Val>): map<string, Val> {
    if v.Some? then m[k := v.value] else m
  }

  /** Writing the outcome of each key of a run into the priors. */
  ghost function PutAll(m: map<string, Val>, keys: seq<string>, own: map<string, Option<Val>>): map<string, Val>
    requires forall k | k in keys :: k in own
    decreases keys
  {
    if keys == [] then m else PutAll(Put(m, keys[0], own[keys[0]]), keys[1..], own)
  }

  lemma {:induction false} PutAllIs(m: map<string, Val>, keys: seq<string>, own: map<string, Option<Val>>)
    requires Distinct(keys) && forall k | k in keys :: k in own
    ensures forall k :: Get(PutAll(m, keys, own), k) ==
                        if k in keys && own[k].Some? then own[k] else Get(m, k)
    decreases keys
  {
    if keys != [] {
      assert keys[0] !in keys[1..];
      PutAllIs(Put(m, keys[0], own[keys[0]]), keys[1..], own);
      assert forall k :: k in keys <==> k == keys[0] || k in keys[1..];
    }
  }

  ghost predicate SamePriors(m: map<string, Val>, start: map<string, Val>, keys: seq<string>) {
    forall k | k in keys :: Get(m, k) == Get(start, k)
  }

  lemma {:induction false} PriorsUntouched(m: map<string, Val>, start: map<string, Val>, keys: seq<string>, i: nat,
                                           v: Option<Val>)
    requires i < |keys| && Distinct(keys) && SamePriors(m, start, keys[i..])
    ensures SamePriors(Put(m, keys[i], v), start, keys[i + 1..])
    ensures Get(m, keys[i]) == Get(start, keys[i])
  {
    assert keys[i] in keys[i..];
    forall k | k in keys[i + 1..] ensures k in keys[i..] && k != keys[i] {
    }
  }

  /** The bookkeeping of one collision in deepMergeAt: the key's new value and
      the prior to write. */
  method Collide(lt: LetterTest, dst: Val, src: Val, path: seq<string>, save: bool, k: string, running: Option<Val>)
    returns (v: Val, prior: Option<Val>)
    requires dst.Obj? && src.Obj? && k in dst.vals && k in src.vals && !BothObjects(dst, src, k)
    requires running == Get(dst.priors, k)
    ensures v == DeepAt(lt, dst, src, path, save, k)
    ensures prior == CollisionPrior(lt, dst, src, path, save, k)
  {
    var dv, sv := dst.vals[k], src.vals[k];
    v, prior := dv, running;
    if save {
      var folded := FoldOrSkip(lt, sv, KeyOf(lt, path + [k]), running);
      if folded.Some? {
        prior := folded;
      }
    }
    if ContainsSentinel(dv) {
      v := Rehydrate(dv, sv);
      return;
    }
    var selfKey := SelfRefFullKey(lt, dv, k);
    if selfKey.Some? {
      var foldedSrc := FoldOrSkip(lt, sv, selfKey.value, Get(src.priors, k));
      if foldedSrc.Some? {
        if k in dst.priors {
          prior := Some(Rehydrate(dst.priors[k], foldedSrc.value));
        } else {
          prior := foldedSrc;
        }
      }
    }
  }

  /** Adding every prior that is not there yet, in any order. */
  method CarryPriors(from: map<string, Val>, into: map<string, Val>) returns (r: map<string, Val>)
    ensures r == from + into
  {
    r := into;
    var rest := from.Keys;
    while rest != {}
      invariant rest <= from.Keys
      invariant forall k :: k in r <==> k in into || (k in from && k !in rest)
      invariant forall k | k in r :: r[k] == if k in into then into[k] else from[k]
      decreases rest
    {
      var k :| k in rest;
      rest := rest - {k};
      if k !in r {
        r := r[k := from[k]];
      }
    }
  }

  ghost function DeepNew(lt: LetterTest, dst: Val, src: Val, path: seq<string>, save: bool): (m: map<string, Val>)
    requires dst.Obj? && src.Obj?
    ensures m.Keys == src.vals.Keys
  {
    map k | k in src.vals :: DeepAt(lt, dst, src, path, save, k)
  }

  ghost function DeepOwnAll(lt: LetterTest, dst: Val, src: Val, path: seq<string>,
                            save: bool): (m: map<string, Option<Val>>)
    requires dst.Obj? && src.Obj?
    ensures m.Keys == src.vals.Keys
  {
    map k | k in src.vals :: DeepOwn(lt, dst, src, path, save, k)
  }

  /** One key of src. */
  method DeepMergeKey(lt: LetterTest, dst: Val, src: Val, path: seq<string>, save: bool, k: string,
                      running: Option<Val>)
    returns (v: Val, prior: Option<Val>)
    requires dst.Obj? && src.Obj? && WellFormed(dst) && WellFormed(src) && k in src.vals
    requires running == Get(dst.priors, k)
    ensures v == DeepAt(lt, dst, src, path, save, k)
    ensures prior == DeepOwn(lt, dst, src, path, save, k)
    decreases dst, 0
  {
    v, prior := src.vals[k], running;
    if k in dst.vals {
      if dst.vals[k].Obj? && v.Obj? {
        v := DeepMergeAtLoop(lt, dst.vals[k], v, path + [k], save);
      } else {
        v, prior := Collide(lt, dst, src, path, save, k, running);
      }
    }
  }

  lemma {:induction false} DeepValue(lt: LetterTest, dst: Val, src: Val, path: seq<string>, save: bool, k: string)
    requires dst.Obj? && src.Obj?
    ensures Get(DeepMergeAt(lt, dst, src, path, save).vals, k) ==
            if k in dst.vals || k in src.vals then Some(DeepAt(lt, dst, src, path, save, k)) else None
  {
    assert k in DeepMergeAt(lt, dst, src, path, save).vals <==> k in dst.vals.Keys + src.vals.Keys;
  }

  lemma {:induction false} DeepRun(lt: LetterTest, dst: Val, src: Val, path: seq<string>, save: bool)
    requires dst.Obj? && src.Obj? && KeysMatch(src)
    ensures Priorless(SetAll(Priorless(dst), src.keys, DeepNew(lt, dst, src, path, save))) ==
            Priorless(DeepMergeAt(lt, dst, src, path, save))
  {
    var at, all := DeepNew(lt, dst, src, path, save), DeepMergeAt(lt, dst, src, path, save);
    forall k ensures Get(all.vals, k) == if k in at then Some(at[k]) else Get(dst.vals, k) {
      DeepValue(lt, dst, src, path, save, k);
    }
    RunIs(dst, src, at, all);
  }

  method DeepMergeAtLoop(lt: LetterTest, dst: Val, src: Val, path: seq<string>, save: bool) returns (result: Val)
    requires dst.Obj? && src.Obj? && WellFormed(dst) && WellFormed(src)
    ensures result == DeepMergeAt(lt, dst, src, path, save)
    decreases dst, 1
  {
    result := Priorless(dst);
    var priors := dst.priors;
    ghost var at, own := DeepNew(lt, dst, src, path, save), DeepOwnAll(lt, dst, src, path, save);
    assert src.keys[0..] == src.keys;
    for i := 0 to |src.keys|
      invariant result.Obj? && result.priors == map[] && Untouched(result, dst, src.keys[i..])
      invariant SetAll(result, src.keys[i..], at) == SetAll(Priorless(dst), src.keys, at)
      invariant SamePriors(priors, dst.priors, src.keys[i..])
      invariant PutAll(priors, src.keys[i..], own) == PutAll(dst.priors, src.keys, own)
    {
      var k := src.keys[i];
      StillUntouched(result, dst, src.keys, i, at[k]);
      PriorsUntouched(priors, dst.priors, src.keys, i, own[k]);
      var v, prior := DeepMergeKey(lt, dst, src, path, save, k, Get(priors, k));
      result := Set(result, k, v);
      priors := Put(priors, k, prior);
    }
    DeepRun(lt, dst, src, path, save);
    priors := CarryPriors(src.priors, priors);
    DeepPriorsAre(lt, dst, src, path, save, priors);
    result := result.(priors := priors);
  }

  lemma {:induction false} DeepPriorsAre(lt: LetterTest, dst: Val, src: Val, path: seq<string>, save: bool,
                                         priors: map<string, Val>)
    requires dst.Obj? && src.Obj? && WellFormed(src)
    requires priors == src.priors + PutAll(dst.priors, src.keys, DeepOwnAll(lt, dst, src, path, save))
    ensures priors == DeepMergeAt(lt, dst, src, path, save).priors
  {
    var own := DeepOwnAll(lt, dst, src, path, save);
    PutAllIs(dst.priors, src.keys, own);
    forall k ensures Get(priors, k) == DeepPrior(lt, dst, src, path, save, k) {
      DeepPriorAt(lt, dst, src, path, save, PutAll(dst.priors, src.keys, own), k);
    }
    SameMaps(priors, DeepMergeAt(lt, dst, src, path, save).priors);
  }

  lemma {:induction false} DeepPriorAt(lt: LetterTest, dst: Val, src: Val, path: seq<string>, save: bool,
                                       m: map<string, Val>, k: string)
    requires dst.Obj? && src.Obj? && KeysMatch(src)
    requires Get(m, k) ==
             if k in src.keys && k in src.vals && DeepOwn(lt, dst, src, path, save, k).Some?
             then DeepOwn(lt, dst, src, path, save, k) else Get(dst.priors, k)
    ensures Get(src.priors + m, k) == DeepPrior(lt, dst, src, path, save, k)
  {
    assert k in src.keys <==> k in src.vals;
  }

  ghost function UnresolvedNew(lt: LetterTest, receiver: Val, fallback: Val): (m: map<string, Val>)
    requires receiver.Obj? && fallback.Obj?
    ensures m.Keys == receiver.vals.Keys
  {
    map k | k in receiver.vals :: UnresolvedAt(lt, receiver, fallback, k)
  }

  ghost function CapturedAll(lt: LetterTest, receiver: Val, fallback: Val): (m: map<string, Option<Val>>)
    requires receiver.Obj? && fallback.Obj?
    ensures m.Keys == receiver.vals.Keys
  {
    map k | k in receiver.vals :: CapturedPrior(lt, receiver, fallback, k)
  }

  /** One key of the receiver. */
  method ApplyKey(lt: LetterTest, receiver: Val, fallback: Val, k: string, running: Option<Val>)
    returns (v: Val, prior: Option<Val>)
    requires receiver.Obj? && fallback.Obj? && WellFormed(receiver) && WellFormed(fallback) && k in receiver.vals
    requires running == Get(fallback.priors, k)
    ensures v == UnresolvedAt(lt, receiver, fallback, k)
    ensures prior == CapturedPrior(lt, receiver, fallback, k)
    decreases receiver, 0
  {
    v, prior := receiver.vals[k], running;
    if k in fallback.vals {
      var existing := fallback.vals[k];
      if v.Obj? && existing.Obj? {
        var barrierActive := k in receiver.priors && !receiver.priors[k].Obj?;
        if !barrierActive {
          v := MergeUnresolvedLoop(lt, v, existing);
        }
      } else {
        var folded := FoldOrSkip(lt, existing, k, None);
        if folded.Some? {
          prior := folded;
        }
      }
    }
  }

  lemma {:induction false} UnresolvedValue(lt: LetterTest, receiver: Val, fallback: Val, k: string)
    requires receiver.Obj? && fallback.Obj?
    ensures Get(MergeUnresolved(lt, receiver, fallback).vals, k) ==
            if k in fallback.vals || k in receiver.vals then Some(UnresolvedAt(lt, receiver, fallback, k)) else None
  {
    assert k in MergeUnresolved(lt, receiver, fallback).vals <==> k in fallback.vals.Keys + receiver.vals.Keys;
  }

  lemma {:induction false} UnresolvedRun(lt: LetterTest, receiver: Val, fallback: Val)
    requires receiver.Obj? && fallback.Obj? && KeysMatch(receiver)
    ensures Priorless(SetAll(Priorless(fallback), receiver.keys, UnresolvedNew(lt, receiver, fallback))) ==
            Priorless(MergeUnresolved(lt, receiver, fallback))
  {
    var at, all := UnresolvedNew(lt, receiver, fallback), MergeUnresolved(lt, receiver, fallback);
    forall k ensures Get(all.vals, k) == if k in at then Some(at[k]) else Get(fallback.vals, k) {
      UnresolvedValue(lt, receiver, fallback, k);
    }
    RunIs(fallback, receiver, at, all);
  }

  method MergeUnresolvedLoop(lt: LetterTest, receiver: Val, fallback: Val) returns (result: Val)
    requires receiver.Obj? && fallback.Obj? && WellFormed(receiver) && WellFormed(fallback)
    ensures result == MergeUnresolved(lt, receiver, fallback)
    decreases receiver, 1
  {
    result := Priorless(fallback);
    var priors := fallback.priors;
    ghost var at, own := UnresolvedNew(lt, receiver, fallback), CapturedAll(lt, receiver, fallback);
    assert receiver.keys[0..] == receiver.keys;
    for i := 0 to |receiver.keys|
      invariant result.Obj? && result.priors == map[] && Untouched(result, fallback, receiver.keys[i..])
      invariant SetAll(result, receiver.keys[i..], at) == SetAll(Priorless(fallback), receiver.keys, at)
      invariant SamePriors(priors, fallback.priors, receiver.keys[i..])
      invariant PutAll(priors, receiver.keys[i..], own) == PutAll(fallback.priors, receiver.keys, own)
    {
      var k := receiver.keys[i];
      StillUntouched(result, fallback, receiver.keys, i, at[k]);
      PriorsUntouched(priors, fallback.priors, receiver.keys, i, own[k]);
      var v, prior := ApplyKey(lt, receiver, fallback, k, Get(priors, k));
      result := Set(result, k, v);
      priors := Put(priors, k, prior);
    }
    UnresolvedRun(lt, receiver, fallback);
    CapturedAre(lt, receiver, fallback);
    priors := ReceiverPriors(lt, receiver, fallback, priors);
    SameMaps(priors, MergeUnresolved(lt, receiver, fallback).priors);
    result := result.(priors := priors);
  }

  lemma {:induction false} CapturedAre(lt: LetterTest, receiver: Val, fallback: Val)
    requires receiver.Obj? && fallback.Obj? && WellFormed(receiver)
    ensures forall k :: Get(PutAll(fallback.priors, receiver.keys, CapturedAll(lt, receiver, fallback)), k) ==
                        CapturedPrior(lt, receiver, fallback, k)
  {
    var own := CapturedAll(lt, receiver, fallback);
    PutAllIs(fallback.priors, receiver.keys, own);
    forall k ensures Get(PutAll(fallback.priors, receiver.keys, own), k) == CapturedPrior(lt, receiver, fallback, k) {
      assert k in receiver.keys <==> k in receiver.vals;
    }
  }

  /** The receiver's priors on top of the captured ones, in any order. */
  method ReceiverPriors(lt: LetterTest, receiver: Val, fallback: Val, captured: map<string, Val>)
    returns (priors: map<string, Val>)
    requires receiver.Obj? && fallback.Obj?
    requires forall k :: Get(captured, k) == CapturedPrior(lt, receiver, fallback, k)
    ensures forall k :: Get(priors, k) == UnresolvedPrior(lt, receiver, fallback, k)
  {
    priors := captured;
    var rest := receiver.priors.Keys;
    while rest != {}
      invariant rest <= receiver.priors.Keys
      invariant forall k :: Get(priors, k) ==
                  if k in rest then Get(captured, k) else UnresolvedPrior(lt, receiver, fallback, k)
      decreases rest
    {
      var k :| k in rest;
      assert Get(priors, k) == Get(captured, k) == CapturedPrior(lt, receiver, fallback, k);
      rest := rest - {k};
      var v := receiver.priors[k];
      if ContainsSentinel(v) && k in priors && !ContainsSentinel(priors[k]) {
        v := Rehydrate(v, priors[k]);
      }
      priors := priors[k := v];
    }
  }
}
