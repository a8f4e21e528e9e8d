/**
 Laws of the merges.  On concrete trees the four merges are one operation, and
 a chain of WithFallback calls means what its layers say, however it is
 bracketed.
 */
module MergeLaws {
  import opened Paths
  import opened Values
  import opened Fold
  import opened Merge

  // ---------- keys of a merged object ----------

  lemma {:induction false} NewKeysAre(o: Val, keys: seq<string>)
    requires o.Obj?
    ensures forall k :: k in NewKeys(o, keys) <==> k in keys && k !in o.vals
    ensures Distinct(keys) ==> Distinct(NewKeys(o, keys))
  {
    if keys != [] {
      NewKeysAre(o, keys[1..]);
      assert forall k :: k in keys <==> k == keys[0] || k in keys[1..];
      if Distinct(keys) {
        assert keys[0] !in keys[1..];
      }
    }
  }

  lemma {:induction false} MergedKeysMatch(base: Val, top: Val, r: Val)
    requires base.Obj? && top.Obj? && r.Obj? && KeysMatch(base) && KeysMatch(top)
    requires r.keys == base.keys + NewKeys(base, top.keys)
    requires forall k :: k in r.vals <==> k in base.vals || k in top.vals
    ensures KeysMatch(r)
  {
    var added := NewKeys(base, top.keys);
    NewKeysAre(base, top.keys);
    forall i, j | 0 <= i < j < |r.keys| ensures r.keys[i] != r.keys[j] {
      if i < |base.keys| <= j {
        assert r.keys[i] in base.keys && r.keys[j] in added;
      }
    }
  }

  // ---------- four merges, one operation ----------

  lemma {:induction false} ConcreteHasNoSentinel(v: Val)
    requires Concrete(v)
    ensures !ContainsSentinel(v)
  {
    match v
    case Arr(es) => forall i | 0 <= i < |es| { ConcreteHasNoSentinel(es[i]); }
    case Obj(_, vals, _) => forall k | k in vals { ConcreteHasNoSentinel(vals[k]); }
    case _ =>
  }

  lemma {:induction false} ConcatIsConcrete(left: Val, right: Val)
    requires left.Obj? && right.Obj? && Concrete(left) && Concrete(right)
    ensures Concrete(MergeObjectConcat(left, right))
  {
    var r := MergeObjectConcat(left, right);
    forall k ensures k in r.vals <==> k in left.vals || k in right.vals { ConcatValue(left, right, k); }
    MergedKeysMatch(left, right, r);
    forall k | k in r.vals ensures Concrete(r.vals[k]) {
      ConcatValue(left, right, k);
      if k in left.vals && k in right.vals && left.vals[k].Obj? && right.vals[k].Obj? {
        ConcatIsConcrete(left.vals[k], right.vals[k]);
      }
    }
  }

  /** The layer merge of prior folding is object concatenation. */
  lemma {:induction false} PriorLayersIsConcat(base: Val, top: Val)
    requires base.Obj? && top.Obj? && Concrete(base) && Concrete(top)
    ensures MergePriorLayers(base, top) == MergeObjectConcat(base, top)
  {
    var a, b := MergePriorLayers(base, top), MergeObjectConcat(base, top);
    forall k ensures Get(a.vals, k) == Get(b.vals, k) {
      PriorLayersValue(base, top, k);
      ConcatValue(base, top, k);
      if k in base.vals && k in top.vals && base.vals[k].Obj? && top.vals[k].Obj? {
        PriorLayersIsConcat(base.vals[k], top.vals[k]);
      }
    }
    SameMaps(a.vals, b.vals);
  }

  /** The WithFallback merge shows the same tree, keys in the same order.  What
      it adds is bookkeeping: the values it hides, kept as priors. */
  lemma {:induction false} UnresolvedShowsConcat(lt: LetterTest, top: Val, base: Val)
    requires base.Obj? && top.Obj? && Concrete(base) && Concrete(top)
    ensures Visible(MergeUnresolved(lt, top, base)) == MergeObjectConcat(base, top)
  {
    var a, b := MergeUnresolved(lt, top, base), MergeObjectConcat(base, top);
    forall k ensures Get(Visible(a).vals, k) == Get(b.vals, k) {
      UnresolvedValue(lt, top, base, k);
      ConcatValue(base, top, k);
      if k in top.vals { ConcreteIsVisible(top.vals[k]); }
      if k in base.vals { ConcreteIsVisible(base.vals[k]); }
      if k in base.vals && k in top.vals && base.vals[k].Obj? && top.vals[k].Obj? {
        UnresolvedShowsConcat(lt, top.vals[k], base.vals[k]);
      }
    }
    SameMaps(Visible(a).vals, b.vals);
  }

  /** The deep merge of duplicate keys is the same map; its key order puts the
      winner's keys first. */
  lemma {:induction false} DeepMergeIsConcat(lt: LetterTest, top: Val, base: Val, path: seq<string>)
    requires base.Obj? && top.Obj? && Concrete(base) && Concrete(top)
    ensures Reordered(DeepMergeAt(lt, top, base, path, false), MergeObjectConcat(base, top))
    ensures Concrete(DeepMergeAt(lt, top, base, path, false))
    ensures DeepMergeAt(lt, top, base, path, false).keys == top.keys + NewKeys(top, base.keys)
  {
    var a, b := DeepMergeAt(lt, top, base, path, false), MergeObjectConcat(base, top);
    forall k ensures Get(top.priors, k) == None && DeepPrior(lt, top, base, path, false, k) == None {
      if k in top.vals && k in base.vals && !BothObjects(top, base, k) {
        ConcreteHasNoSelfRef(lt, top.vals[k], k);
      }
    }
    forall k ensures Get(a.priors, k) == None {
    }
    SameMaps(a.priors, map[]);
    forall k ensures k in a.vals <==> k in top.vals || k in base.vals { DeepValue(lt, top, base, path, false, k); }
    MergedKeysMatch(top, base, a);
    forall k | k in a.vals ensures k in b.vals && Reordered(a.vals[k], b.vals[k]) && Concrete(a.vals[k]) {
      DeepValue(lt, top, base, path, false, k);
      ConcatValue(base, top, k);
      ReorderedItself(a.vals[k]);
      if k in base.vals && k in top.vals {
        if base.vals[k].Obj? && top.vals[k].Obj? {
          DeepMergeIsConcat(lt, top.vals[k], base.vals[k], path + [k]);
        } else {
          ConcreteHasNoSentinel(top.vals[k]);
        }
      }
    }
    forall k | k in b.vals ensures k in a.vals { ConcatValue(base, top, k); }
  }

  lemma {:induction false} ConcreteHasNoSelfRef(lt: LetterTest, v: Val, k: string)
    requires Concrete(v)
    ensures SelfRefFullKey(lt, v, k).None?
  {
  }

  // ---------- layers ----------

  lemma {:induction false} ConcreteHasNoPlaceholders(v: Val)
    requires Concrete(v)
    ensures NoPlaceholders(v)
  {
    match v
    case Arr(es) => forall i | 0 <= i < |es| { ConcreteHasNoPlaceholders(es[i]); }
    case Obj(_, vals, _) => forall k | k in vals { ConcreteHasNoPlaceholders(vals[k]); }
    case _ =>
  }

  /** Such a value is saved as it is. */
  lemma {:induction false} SavedAsIs(lt: LetterTest, v: Val, key: string, stack: bool)
    requires NoPlaceholders(v)
    ensures !FoldSelfRef(lt, v, key, None, stack).hit && !ContainsSentinel(v)
  {
    match v
    case Arr(es) => forall i | 0 <= i < |es| { SavedAsIs(lt, es[i], key, stack); }
    case Obj(_, vals, _) => forall k | k in vals { SavedAsIs(lt, vals[k], key, false); }
    case _ =>
  }

  /** The values that the layers give to a key, the first layer first. */
  function At(layers: seq<Val>, k: string): (r: seq<Val>)
    requires forall i | 0 <= i < |layers| :: layers[i].Obj?
  {
    if layers == [] then []
    else (if k in layers[0].vals then [layers[0].vals[k]] else []) + At(layers[1..], k)
  }

  /** The objects in front of the first layer that is not one. */
  function Objects(layers: seq<Val>): (r: seq<Val>)
    ensures forall i | 0 <= i < |r| :: r[i].Obj?
    ensures |r| <= |layers|
  {
    if layers == [] || !layers[0].Obj? then [] else [layers[0]] + Objects(layers[1..])
  }

  /** The keys of stacked objects: those of the last layer first. */
  function KeyOrder(layers: seq<Val>): seq<string>
    requires forall i | 0 <= i < |layers| :: layers[i].Obj?
  {
    if layers == [] then [] else KeyOrder(layers[1..]) + Minus(layers[0].keys, KeyOrder(layers[1..]))
  }

  function Minus(a: seq<string>, b: seq<string>): seq<string> {
    if a == [] then [] else (if a[0] in b then [] else [a[0]]) + Minus(a[1..], b)
  }

  /** What the layers say about a path: the values found there, in order, once
      every layer behind a non-object was dropped on the way. */
  function LayersAt(layers: seq<Val>, path: seq<string>): seq<Val>
    decreases |path|
  {
    if path == [] then layers else LayersAt(At(Objects(layers), path[0]), path[1..])
  }

  /** v is what its layers amount to: the first layer if that is not an object,
      otherwise the merge of the objects in front; a non-object behind them is
      remembered as a barrier. */
  ghost predicate Represents(v: Val, layers: seq<Val>) {
    && layers != []
    && if !layers[0].Obj? then v == layers[0] && NoPlaceholders(v)
       else
         var objs := Objects(layers);
         && v.Obj? && KeysMatch(v) && v.keys == KeyOrder(objs)
         && (forall k | k in v.vals :: Represents(v.vals[k], At(objs, k)))
         && (forall k | k in v.priors :: k in v.vals && NoPlaceholders(v.priors[k]))
         && (forall k | k in v.vals && v.vals[k].Obj? :: ObjectPrior(v, k, At(objs, k)))
  }

  /** At an object, the only prior is a non-object one, there exactly when a
      layer behind is not an object. */
  ghost predicate ObjectPrior(v: Val, k: string, found: seq<Val>)
    requires v.Obj?
  {
    && (k in v.priors ==> !v.priors[k].Obj?)
    && (k in v.priors <==> |Objects(found)| < |found|)
  }

  lemma {:induction false} AtConcat(a: seq<Val>, b: seq<Val>, k: string)
    requires forall i | 0 <= i < |a| :: a[i].Obj?
    requires forall i | 0 <= i < |b| :: b[i].Obj?
    ensures At(a + b, k) == At(a, k) + At(b, k)
  {
    if a == [] {
      assert a + b == b;
    } else {
      assert (a + b)[1..] == a[1..] + b;
      AtConcat(a[1..], b, k);
      Assoc(if k in a[0].vals then [a[0].vals[k]] else [], At(a[1..], k), At(b, k));
    }
  }

  lemma {:induction false} ObjectsConcat(a: seq<Val>, b: seq<Val>)
    ensures Objects(a + b) == if |Objects(a)| == |a| then a + Objects(b) else Objects(a)
  {
    if a == [] {
      assert a + b == b && a + Objects(b) == Objects(b);
    } else {
      assert (a + b)[1..] == a[1..] + b && (a + b)[0] == a[0];
      ObjectsConcat(a[1..], b);
      if a[0].Obj? && |Objects(a[1..])| == |a[1..]| {
        Assoc([a[0]], a[1..], Objects(b));
        assert [a[0]] + a[1..] == a;
      }
    }
  }

  lemma {:induction false} ObjectsAll(a: seq<Val>)
    requires |Objects(a)| == |a|
    ensures Objects(a) == a
  {
    ObjectsConcat(a, []);
    assert a + [] == a && a + Objects([]) == a;
  }

  lemma {:induction false} MinusMembers(a: seq<string>, b: seq<string>)
    ensures forall k :: k in Minus(a, b) <==> k in a && k !in b
  {
    if a != [] {
      MinusMembers(a[1..], b);
      assert forall k :: k in a <==> k == a[0] || k in a[1..];
    }
  }

  lemma {:induction false} MinusTwice(a: seq<string>, b: seq<string>, c: seq<string>)
    ensures Minus(a, b + c) == Minus(Minus(a, c), b)
    ensures Minus(a, b + Minus(c, b)) == Minus(a, b + c)
  {
    MinusMembers(c, b);
    if a != [] {
      MinusTwice(a[1..], b, c);
      var rest := Minus(a[1..], c);
      if a[0] in c {
        assert [] + rest == rest;
      } else {
        assert ([a[0]] + rest)[1..] == rest;
      }
    }
  }

  lemma {:induction false} MinusConcat(a: seq<string>, b: seq<string>, c: seq<string>)
    ensures Minus(a + b, c) == Minus(a, c) + Minus(b, c)
  {
    if a == [] {
      assert a + b == b;
    } else {
      assert (a + b)[1..] == a[1..] + b;
      MinusConcat(a[1..], b, c);
      Assoc(if a[0] in c then [] else [a[0]], Minus(a[1..], c), Minus(b, c));
    }
  }

  /** Stacking two stacks: the lower one's keys come first. */
  lemma {:induction false} KeyOrderConcat(a: seq<Val>, b: seq<Val>)
    requires forall i | 0 <= i < |a| :: a[i].Obj?
    requires forall i | 0 <= i < |b| :: b[i].Obj?
    ensures KeyOrder(a + b) == KeyOrder(b) + Minus(KeyOrder(a), KeyOrder(b))
  {
    if a == [] {
      assert a + b == b && KeyOrder(b) + [] == KeyOrder(b);
    } else {
      assert (a + b)[1..] == a[1..] + b && (a + b)[0] == a[0];
      KeyOrderConcat(a[1..], b);
      var low, mid, own := KeyOrder(b), KeyOrder(a[1..]), a[0].keys;
      MinusTwice(own, low, mid);
      MinusConcat(mid, Minus(own, mid), low);
      Assoc(low, Minus(mid, low), Minus(Minus(own, mid), low));
    }
  }

  lemma {:induction false} NewKeysIsMinus(o: Val, keys: seq<string>)
    requires o.Obj? && KeysMatch(o)
    ensures NewKeys(o, keys) == Minus(keys, o.keys)
  {
    if keys != [] {
      NewKeysIsMinus(o, keys[1..]);
    }
  }

  lemma {:induction false} KeyOrderMembers(layers: seq<Val>, k: string)
    requires forall i | 0 <= i < |layers| :: layers[i].Obj? && KeysMatch(layers[i])
    ensures k in KeyOrder(layers) <==> At(layers, k) != []
  {
    if layers != [] {
      KeyOrderMembers(layers[1..], k);
      MinusMembers(layers[0].keys, KeyOrder(layers[1..]));
    }
  }

  /** Only the objects in front count, and the first layer. */
  lemma {:induction false} FrontDecides(v: Val, a: seq<Val>, b: seq<Val>)
    requires Represents(v, a) && b != [] && b[0] == a[0] && (a[0].Obj? ==> Objects(a) == Objects(b))
    ensures Represents(v, b)
  {
  }

  lemma {:induction false} RepresentsNoPlaceholders(v: Val, layers: seq<Val>)
    requires Represents(v, layers)
    ensures NoPlaceholders(v)
    ensures v.Obj? <==> layers[0].Obj?
  {
    if v.Obj? && layers[0].Obj? {
      forall k | k in v.vals { RepresentsNoPlaceholders(v.vals[k], At(Objects(layers), k)); }
    }
  }

  ghost predicate ConcreteLayers(layers: seq<Val>) {
    forall i | 0 <= i < |layers| :: Concrete(layers[i])
  }

  lemma {:induction false} ConcreteBelow(layers: seq<Val>, k: string)
    requires ConcreteLayers(layers)
    ensures ConcreteLayers(Objects(layers))
    ensures (forall i | 0 <= i < |layers| :: layers[i].Obj?) ==> ConcreteLayers(At(layers, k))
  {
    if layers != [] {
      ConcreteBelow(layers[1..], k);
    }
  }

  ghost predicate Stackable(a: Val, la: seq<Val>, b: Val, lb: seq<Val>) {
    && a.Obj? && b.Obj? && Represents(a, la) && Represents(b, lb)
    && ConcreteLayers(la) && ConcreteLayers(lb) && Objects(la) == la
  }

  /** The WithFallback merge stacks the fallback's layers behind the receiver's. */
  lemma {:induction false} FallbackStacksLayers(lt: LetterTest, a: Val, la: seq<Val>, b: Val, lb: seq<Val>)
    requires Stackable(a, la, b, lb)
    ensures Represents(MergeUnresolved(lt, a, b), la + lb)
    decreases a, 2
  {
    var r, lower := MergeUnresolved(lt, a, b), Objects(lb);
    RepresentsNoPlaceholders(a, la);
    RepresentsNoPlaceholders(b, lb);
    ObjectsConcat(la, lb);
    KeyOrderConcat(la, lower);
    NewKeysIsMinus(b, a.keys);
    forall k ensures k in r.vals <==> k in b.vals || k in a.vals { UnresolvedValue(lt, a, b, k); }
    MergedKeysMatch(b, a, r);
    forall k | k in r.vals
      ensures Represents(r.vals[k], At(la + lower, k))
      ensures r.vals[k].Obj? ==> ObjectPrior(r, k, At(la + lower, k))
    {
      FallbackKey(lt, a, la, b, lb, k);
    }
    forall k | k in r.priors ensures k in r.vals && NoPlaceholders(r.priors[k]) {
      FallbackPrior(lt, a, la, b, lb, k);
    }
  }

  /** A key that a represented object has is in its layers, and in reverse. */
  lemma {:induction false} KeyIsFound(v: Val, layers: seq<Val>, k: string)
    requires Represents(v, layers) && v.Obj? && ConcreteLayers(layers)
    ensures layers[0].Obj? && (k in v.vals <==> At(Objects(layers), k) != [])
  {
    RepresentsNoPlaceholders(v, layers);
    ConcreteBelow(layers, k);
    KeyOrderMembers(Objects(layers), k);
  }

  lemma {:induction false} PlainPrior(lt: LetterTest, a: Val, b: Val, k: string)
    requires a.Obj? && b.Obj? && (k in b.vals ==> NoPlaceholders(b.vals[k])) &&
             (k in a.priors ==> NoPlaceholders(a.priors[k]))
    ensures UnresolvedPrior(lt, a, b, k) ==
            if k in a.priors then Some(a.priors[k])
            else if k in a.vals && k in b.vals && !BothObjects(a, b, k) then Some(b.vals[k])
            else Get(b.priors, k)
  {
    if k in b.vals {
      SavedAsIs(lt, b.vals[k], k, true);
    }
    if k in a.priors {
      SavedAsIs(lt, a.priors[k], k, true);
    }
  }

  lemma {:induction false} FallbackPrior(lt: LetterTest, a: Val, la: seq<Val>, b: Val, lb: seq<Val>, k: string)
    requires Stackable(a, la, b, lb)
    ensures var p := Get(MergeUnresolved(lt, a, b).priors, k);
            && (p.Some? ==> (k in a.vals || k in b.vals) && NoPlaceholders(p.value))
            && p == if k in a.priors then Some(a.priors[k])
                    else if k in a.vals && k in b.vals && !BothObjects(a, b, k) then Some(b.vals[k])
                    else Get(b.priors, k)
  {
    RepresentsNoPlaceholders(a, la);
    RepresentsNoPlaceholders(b, lb);
    UnresolvedPriorOf(lt, a, b, k);
    PlainPrior(lt, a, b, k);
  }

  lemma {:induction false} FallbackKey(lt: LetterTest, a: Val, la: seq<Val>, b: Val, lb: seq<Val>, k: string)
    requires Stackable(a, la, b, lb) && k in MergeUnresolved(lt, a, b).vals
    ensures var r, found := MergeUnresolved(lt, a, b), At(la + Objects(lb), k);
            Represents(r.vals[k], found) && (r.vals[k].Obj? ==> ObjectPrior(r, k, found))
    decreases a, 1
  {
    AtConcat(la, Objects(lb), k);
    if k in a.vals && k in b.vals {
      FallbackBoth(lt, a, la, b, lb, k);
    } else {
      FallbackOne(lt, a, la, b, lb, k);
    }
  }

  /** A key that one side has keeps its value and its prior. */
  lemma {:induction false} FallbackOne(lt: LetterTest, a: Val, la: seq<Val>, b: Val, lb: seq<Val>, k: string)
    requires Stackable(a, la, b, lb) && k in MergeUnresolved(lt, a, b).vals && !(k in a.vals && k in b.vals)
    ensures var r, found := MergeUnresolved(lt, a, b), At(la, k) + At(Objects(lb), k);
            Represents(r.vals[k], found) && (r.vals[k].Obj? ==> ObjectPrior(r, k, found))
  {
    var r, va, vb := MergeUnresolved(lt, a, b), At(la, k), At(Objects(lb), k);
    KeyIsFound(a, la, k);
    KeyIsFound(b, lb, k);
    UnresolvedValue(lt, a, b, k);
    FallbackPrior(lt, a, la, b, lb, k);
    if k in b.vals {
      assert va + vb == vb;
      assert Represents(b.vals[k], vb) && Get(r.priors, k) == Get(b.priors, k);
    } else {
      assert va + vb == va;
      assert Represents(a.vals[k], va) && Get(r.priors, k) == Get(a.priors, k);
    }
  }

  /** The same for a key that both sides have. */
  lemma {:induction false} FallbackBoth(lt: LetterTest, a: Val, la: seq<Val>, b: Val, lb: seq<Val>, k: string)
    requires Stackable(a, la, b, lb) && k in a.vals && k in b.vals && k in MergeUnresolved(lt, a, b).vals
    ensures var r, found := MergeUnresolved(lt, a, b), At(la, k) + At(Objects(lb), k);
            Represents(r.vals[k], found) && (r.vals[k].Obj? ==> ObjectPrior(r, k, found))
    decreases a, 0
  {
    var va, vb := At(la, k), At(Objects(lb), k);
    KeyIsFound(a, la, k);
    KeyIsFound(b, lb, k);
    UnresolvedValue(lt, a, b, k);
    FallbackPrior(lt, a, la, b, lb, k);
    assert Represents(a.vals[k], va) && Represents(b.vals[k], vb);
    ObjectsConcat(va, vb);
    if !BothObjects(a, b, k) || Barrier(a, k) {
      ReceiverHides(a, va, b, vb, k);
    } else {
      RepresentsNoPlaceholders(a.vals[k], va);
      ObjectsAll(va);
      ConcreteBelow(la, k);
      ConcreteBelow(lb, k);
      ConcreteBelow(Objects(lb), k);
      FallbackStacksLayers(lt, a.vals[k], va, b.vals[k], vb);
    }
  }

  /** A value that is no object, or is behind a barrier, hides what comes after. */
  lemma {:induction false} ReceiverHides(a: Val, va: seq<Val>, b: Val, vb: seq<Val>, k: string)
    requires a.Obj? && b.Obj? && k in a.vals && k in b.vals
    requires Represents(a.vals[k], va) && Represents(b.vals[k], vb)
    requires a.vals[k].Obj? ==> ObjectPrior(a, k, va)
    requires !BothObjects(a, b, k) || Barrier(a, k)
    ensures Represents(a.vals[k], va + vb)
    ensures a.vals[k].Obj? ==> |Objects(va + vb)| < |va + vb|
  {
    RepresentsNoPlaceholders(a.vals[k], va);
    RepresentsNoPlaceholders(b.vals[k], vb);
    ObjectsConcat(va, vb);
    assert (va + vb)[0] == va[0];
    if |Objects(va)| == |va| {
      ObjectsAll(va);
      assert va + [] == va;
    }
    FrontDecides(a.vals[k], va, va + vb);
  }

  // ---------- chains of fallbacks ----------

  /** Configs combined by WithFallback, in any bracketing. */
  datatype Chain = One(config: Val) | Over(receiver: Chain, fallback: Chain)

  function Leaves(c: Chain): (r: seq<Val>)
    ensures r != []
  {
    match c
    case One(v) => [v]
    case Over(a, b) => Leaves(a) + Leaves(b)
  }

  /** The leaves are freshly parsed data: concrete objects. */
  ghost predicate OfConfigs(c: Chain) {
    match c
    case One(v) => v.Obj? && Concrete(v)
    case Over(a, b) => OfConfigs(a) && OfConfigs(b)
  }

  function Run(lt: LetterTest, c: Chain): (r: Val)
    requires OfConfigs(c)
    ensures r.Obj?
  {
    match c
    case One(v) => v
    case Over(a, b) => MergeUnresolved(lt, Run(lt, a), Run(lt, b))
  }

  lemma {:induction false} MinusNothing(a: seq<string>)
    ensures Minus(a, []) == a
  {
    if a != [] {
      MinusNothing(a[1..]);
      assert a == [a[0]] + a[1..];
    }
  }

  lemma {:induction false} ConcreteRepresentsItself(v: Val)
    requires Concrete(v)
    ensures Represents(v, [v])
  {
    ConcreteHasNoPlaceholders(v);
    if v.Obj? {
      assert Objects([v]) == [v];
      MinusNothing(v.keys);
      assert KeyOrder([v]) == v.keys by { assert KeyOrder([]) == [] && [] + v.keys == v.keys; }
      forall k | k in v.vals
        ensures Represents(v.vals[k], At([v], k)) && (v.vals[k].Obj? ==> ObjectPrior(v, k, At([v], k))) {
        assert At([v], k) == [v.vals[k]];
        ConcreteRepresentsItself(v.vals[k]);
      }
    }
  }

  lemma {:induction false} LeavesAreObjects(c: Chain)
    requires OfConfigs(c)
    ensures ConcreteLayers(Leaves(c)) && Objects(Leaves(c)) == Leaves(c)
  {
    match c
    case One(v) =>
    case Over(a, b) =>
      LeavesAreObjects(a);
      LeavesAreObjects(b);
      ObjectsConcat(Leaves(a), Leaves(b));
  }

  /** A chain amounts to its leaves, whatever its brackets. */
  lemma {:induction false} ChainMeansLayers(lt: LetterTest, c: Chain)
    requires OfConfigs(c)
    ensures Represents(Run(lt, c), Leaves(c))
  {
    match c
    case One(v) => ConcreteRepresentsItself(v);
    case Over(a, b) =>
      ChainMeansLayers(lt, a);
      ChainMeansLayers(lt, b);
      LeavesAreObjects(a);
      LeavesAreObjects(b);
      FallbackStacksLayers(lt, Run(lt, a), Leaves(a), Run(lt, b), Leaves(b));
  }

  lemma {:induction false} LayersDecide(a: Val, b: Val, layers: seq<Val>)
    requires Represents(a, layers) && Represents(b, layers)
    ensures Visible(a) == Visible(b)
  {
    if layers[0].Obj? {
      var objs := Objects(layers);
      forall k ensures k in a.vals <==> k in b.vals {
        assert k in a.vals <==> k in a.keys;
        assert k in b.vals <==> k in b.keys;
      }
      forall k | k in a.vals ensures Visible(a.vals[k]) == Visible(b.vals[k]) {
        LayersDecide(a.vals[k], b.vals[k], At(objs, k));
      }
      assert Visible(a).vals == Visible(b).vals;
    }
  }

  /** WithFallback is associative: chains with the same leaves show the same
      tree with the same key order. */
  lemma {:induction false} BracketsDoNotMatter(lt: LetterTest, c: Chain, d: Chain)
    requires OfConfigs(c) && OfConfigs(d) && Leaves(c) == Leaves(d)
    ensures Visible(Run(lt, c)) == Visible(Run(lt, d))
  {
    ChainMeansLayers(lt, c);
    ChainMeansLayers(lt, d);
    LayersDecide(Run(lt, c), Run(lt, d), Leaves(c));
  }

  /** What is found at a path: nothing, the first value there when it is not an
      object, or an object with the keys of the objects in front. */
  ghost predicate ShowsLayers(found: Option<Val>, layers: seq<Val>) {
    match found
    case None => layers == []
    case Some(v) =>
      && layers != []
      && if layers[0].Obj? then v.Obj? && v.keys == KeyOrder(Objects(layers)) else v == layers[0]
  }

  lemma {:induction false} RepresentedAtPath(v: Val, layers: seq<Val>, path: seq<string>)
    requires Represents(v, layers) && ConcreteLayers(layers) && path != []
    ensures ShowsLayers(Lookup(v, path), LayersAt(layers, path))
    decreases |path|
  {
    var objs, k := Objects(layers), path[0];
    ConcreteBelow(layers, k);
    ConcreteBelow(objs, k);
    RepresentsNoPlaceholders(v, layers);
    if !v.Obj? {
      assert objs == [] && At(objs, k) == [];
      NothingInNoLayers(path[1..]);
    } else {
      KeyIsFound(v, layers, k);
      if k !in v.vals {
        NothingInNoLayers(path[1..]);
      } else {
        RepresentsNoPlaceholders(v.vals[k], At(objs, k));
        if |path| > 1 {
          RepresentedAtPath(v.vals[k], At(objs, k), path[1..]);
        } else {
          assert LayersAt(layers, path) == At(objs, k);
        }
      }
    }
  }

  lemma {:induction false} NothingInNoLayers(path: seq<string>)
    ensures LayersAt([], path) == []
    decreases |path|
  {
    if path != [] {
      NothingInNoLayers(path[1..]);
    }
  }

  /** A chain at every path: the merge of the objects up to the first layer that
      is not an object there, or that layer's value when it comes first. */
  lemma {:induction false} ChainAtEveryPath(lt: LetterTest, c: Chain, path: seq<string>)
    requires OfConfigs(c) && path != []
    ensures ShowsLayers(Lookup(Run(lt, c), path), LayersAt(Leaves(c), path))
  {
    ChainMeansLayers(lt, c);
    LeavesAreObjects(c);
    RepresentedAtPath(Run(lt, c), Leaves(c), path);
  }

  // ---------- where the barrier fails ----------

  /** Outside prior-free configs the barrier can be lost.  A config whose own
      text assigned an object to k twice carries an object prior, and that prior
      displaces the captured non-object: a third config's object comes through.
      The two outcomes, for any object, non-object and object at k: */
  lemma {:induction false} BarrierHoldsUnlessObjectPrior(lt: LetterTest, r: Val, s: Val, c: Val, k: string)
    requires r.Obj? && s.Obj? && c.Obj? && k in r.vals && k in s.vals && k in c.vals
    requires r.vals[k].Obj? && !s.vals[k].Obj? && NoPlaceholders(s.vals[k]) && c.vals[k].Obj?
    ensures var rs := MergeUnresolved(lt, r, s);
            var rsc := MergeUnresolved(lt, rs, c);
            && (Barrier(rs, k) <==> !(k in r.priors && r.priors[k].Obj?))
            && Get(rsc.vals, k) == Some(if k in r.priors && r.priors[k].Obj?
                                        then MergeUnresolved(lt, r.vals[k], c.vals[k]) else r.vals[k])
  {
    var rs := MergeUnresolved(lt, r, s);
    SavedAsIs(lt, s.vals[k], k, true);
    UnresolvedValue(lt, r, s, k);
    UnresolvedPriorOf(lt, r, s, k);
    UnresolvedValue(lt, rs, c, k);
    assert Get(rs.vals, k) == Some(r.vals[k]);
  }

  /** k { x = 1 }, k { y = 2 } in one config, then k = 2 and k { z = 3 } as
      fallbacks: z shows. */
  lemma {:induction false} BarrierLostExample(lt: LetterTest)
    ensures var one := Obj(["x"], map["x" := Text("1")], map[]);
            var both := Obj(["y", "x"], map["y" := Text("2"), "x" := Text("1")], map[]);
            var twice := Obj(["k"], map["k" := both], map["k" := one]);
            var scalar := Obj(["k"], map["k" := Text("2")], map[]);
            var third := Obj(["k"], map["k" := Obj(["z"], map["z" := Text("3")], map[])], map[]);
            Lookup(MergeUnresolved(lt, MergeUnresolved(lt, twice, scalar), third), ["k", "z"]) == Some(Text("3"))
  {
    var one := Obj(["x"], map["x" := Text("1")], map[]);
    var both := Obj(["y", "x"], map["y" := Text("2"), "x" := Text("1")], map[]);
    var twice := Obj(["k"], map["k" := both], map["k" := one]);
    var scalar := Obj(["k"], map["k" := Text("2")], map[]);
    var z := Obj(["z"], map["z" := Text("3")], map[]);
    var third := Obj(["k"], map["k" := z], map[]);
    BarrierHoldsUnlessObjectPrior(lt, twice, scalar, third, "k");
    UnresolvedValue(lt, both, z, "z");
    var r := MergeUnresolved(lt, MergeUnresolved(lt, twice, scalar), third);
    assert Get(r.vals, "k") == Some(MergeUnresolved(lt, both, z));
    assert ["k", "z"][1..] == ["z"];
  }
}
