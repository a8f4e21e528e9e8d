/**
 WithFallback before resolution, against one document that has the fallback's
 assignments first (MergeUnresolved in internal/resolver/resolver.go): what is stored
 for a key, and what the saves over a prior that is put in later come to.
 */
module Fallbacks {
  import opened Paths
  import opened Values
  import opened Fold
  import opened Merge
  import opened MergeLaws
  import opened Assignments
  import opened Layers
  import opened Chains

  // ---------- the values and priors of a built tree ----------

  /** The values stored at the key one after the other. */
  function StoredAll(lt: LetterTest, k: string, vs: seq<Val>): (r: seq<Val>)
    ensures |r| == |vs|
  {
    if vs == [] then [] else StoredAll(lt, k, vs[..|vs| - 1]) + [Stored(lt, k, vs)]
  }

  function SaveOne(lt: LetterTest, k: string, prior: Option<Val>, e: Val): Option<Val> {
    var saved := FoldOrSkip(lt, e, KeyOf(lt, [k]), prior);
    if saved.Some? then saved else prior
  }

  /** The prior once these stored values were overwritten, from a prior on. */
  function Saves(lt: LetterTest, k: string, prior: Option<Val>, es: seq<Val>): Option<Val> {
    if es == [] then prior else SaveOne(lt, k, Saves(lt, k, prior, es[..|es| - 1]), es[|es| - 1])
  }

  function PriorOf(lt: LetterTest, k: string, vs: seq<Val>): Option<Val> {
    if vs == [] then None else Saves(lt, k, None, StoredAll(lt, k, vs[..|vs| - 1]))
  }

  ghost predicate BuiltAt(lt: LetterTest, o: Val, k: string, vs: seq<Val>)
    requires o.Obj?
  {
    && Get(o.vals, k) == (if vs == [] then None else Some(Stored(lt, k, vs)))
    && Get(o.priors, k) == PriorOf(lt, k, vs)
  }

  lemma {:induction false} StoredAllLast(lt: LetterTest, k: string, vs: seq<Val>, v: Val)
    ensures StoredAll(lt, k, vs + [v]) == StoredAll(lt, k, vs) + [Stored(lt, k, vs + [v])]
  {
    assert (vs + [v])[..|vs|] == vs;
  }

  lemma {:induction false} SavesLast(lt: LetterTest, k: string, prior: Option<Val>, es: seq<Val>, e: Val)
    ensures Saves(lt, k, prior, es + [e]) == SaveOne(lt, k, Saves(lt, k, prior, es), e)
  {
    assert (es + [e])[..|es|] == es;
  }

  /** Overwriting the value saves it over the prior. */
  lemma {:induction false} PriorOfNext(lt: LetterTest, k: string, vs: seq<Val>, v: Val)
    ensures PriorOf(lt, k, vs + [v]) == if vs == [] then None else SaveOne(lt, k, PriorOf(lt, k, vs), Stored(lt, k, vs))
  {
    assert (vs + [v])[..|vs|] == vs;
    if vs != [] {
      var init, u := vs[..|vs| - 1], vs[|vs| - 1];
      assert init + [u] == vs;
      StoredAllLast(lt, k, init, u);
      SavesLast(lt, k, None, StoredAll(lt, k, init), Stored(lt, k, vs));
    }
  }

  lemma {:induction false} StoredNext(lt: LetterTest, k: string, vs: seq<Val>, v: Val)
    ensures Stored(lt, k, vs + [v]) ==
            if vs != [] && Stored(lt, k, vs).Obj? && v.Obj? then DeepMergeAt(lt, v, Stored(lt, k, vs), [k], true) else v
  {
    assert (vs + [v])[..|vs|] == vs;
  }

  lemma {:induction false} AssignBuilds(lt: LetterTest, d: Doc, k: string, vs: seq<Val>, v: Val)
    requires d.obj.Obj? && BuiltAt(lt, d.obj, k, vs) && PriorFreeOfKey(lt, d, k)
    ensures BuiltAt(lt, Assign(lt, d, k, v).obj, k, vs + [v])
  {
    StoredNext(lt, k, vs, v);
    PriorOfNext(lt, k, vs, v);
  }

  /** Whatever the values are. */
  lemma {:induction false} TreeIsBuilt(lt: LetterTest, fields: seq<Field>, k: string)
    ensures BuiltAt(lt, AssignAll(lt, fields).obj, k, AssignedTo(fields, k))
  {
    if fields != [] {
      var f, before := fields[|fields| - 1], fields[..|fields| - 1];
      TreeIsBuilt(lt, before, k);
      PriorNeverMentionsItsKey(lt, before, k);
      var vs := AssignedTo(before, k);
      if f.key == k {
        AssignBuilds(lt, AssignAll(lt, before), k, vs, Desugared(f));
      } else {
        assert vs + [] == vs;
      }
    }
  }

  // ---------- one document after another ----------

  lemma {:induction false} AssignedConcat(a: seq<Field>, b: seq<Field>, k: string)
    ensures AssignedTo(a + b, k) == AssignedTo(a, k) + AssignedTo(b, k)
  {
    if b == [] {
      assert a + b == a && AssignedTo(a, k) + [] == AssignedTo(a, k);
    } else {
      var f := b[|b| - 1];
      assert (a + b)[..|a + b| - 1] == a + b[..|b| - 1];
      AssignedConcat(a, b[..|b| - 1], k);
      Assoc(AssignedTo(a, k), AssignedTo(b[..|b| - 1], k), if f.key == k then [Desugared(f)] else []);
    }
  }

  lemma {:induction false} KeysConcat(a: seq<Field>, b: seq<Field>)
    ensures KeysOf(a + b) == KeysOf(a) + Minus(KeysOf(b), KeysOf(a))
  {
    if b == [] {
      assert a + b == a && KeysOf(a) + [] == KeysOf(a);
    } else {
      var low, mid, k := KeysOf(a), KeysOf(b[..|b| - 1]), b[|b| - 1].key;
      assert (a + b)[..|a + b| - 1] == a + b[..|b| - 1];
      KeysConcat(a, b[..|b| - 1]);
      MinusMembers(mid, low);
      MinusConcat(mid, [k], low);
      assert Minus([k], low) == if k in low then [] else [k] by { assert [k][1..] == []; }
      if k !in mid && k !in low {
        Assoc(low, Minus(mid, low), [k]);
      } else {
        assert Minus(mid, low) + [] == Minus(mid, low);
      }
    }
  }

  /** No object literal of the one is merged with one of the other. */
  predicate Apart(a: seq<Val>, b: seq<Val>) {
    a == [] || b == [] || !a[|a| - 1].Obj? || !b[0].Obj?
  }

  lemma {:induction false} StoredConcat(lt: LetterTest, k: string, a: seq<Val>, b: seq<Val>)
    requires b != [] && Apart(a, b)
    ensures Stored(lt, k, a + b) == Stored(lt, k, b)
    decreases |b|
  {
    var init, v := b[..|b| - 1], b[|b| - 1];
    assert a + b == (a + init) + [v] && b == init + [v];
    StoredNext(lt, k, a + init, v);
    StoredNext(lt, k, init, v);
    if init != [] {
      assert Apart(a, init);
      StoredConcat(lt, k, a, init);
    } else if a != [] {
      assert a + init == a;
      StoredObject(lt, k, a);
    }
  }

  lemma {:induction false} StoredAllConcat(lt: LetterTest, k: string, a: seq<Val>, b: seq<Val>)
    requires Apart(a, b)
    ensures StoredAll(lt, k, a + b) == StoredAll(lt, k, a) + StoredAll(lt, k, b)
    decreases |b|
  {
    if b == [] {
      assert a + b == a && StoredAll(lt, k, a) + [] == StoredAll(lt, k, a);
    } else {
      var init, v := b[..|b| - 1], b[|b| - 1];
      assert Apart(a, init) && init + [v] == b;
      StoredAllConcat(lt, k, a, init);
      StoredConcat(lt, k, a, b);
      StoredAllLast(lt, k, a + init, v);
      StoredAllLast(lt, k, init, v);
      Assoc(a, init, [v]);
      Assoc(StoredAll(lt, k, a), StoredAll(lt, k, init), [Stored(lt, k, b)]);
    }
  }

  lemma {:induction false} LastOfConcat<T>(a: seq<T>, b: seq<T>)
    requires b != []
    ensures var init, e := b[..|b| - 1], b[|b| - 1]; a + b == (a + init) + [e] && b == init + [e]
  {
  }

  lemma {:induction false} SavesConcat(lt: LetterTest, k: string, prior: Option<Val>, a: seq<Val>, b: seq<Val>)
    ensures Saves(lt, k, prior, a + b) == Saves(lt, k, Saves(lt, k, prior, a), b)
    decreases |b|
  {
    if b == [] {
      assert a + b == a;
    } else {
      var init, e := b[..|b| - 1], b[|b| - 1];
      SavesConcat(lt, k, prior, a, init);
      LastOfConcat(a, b);
      SavesLast(lt, k, prior, a + init, e);
      SavesLast(lt, k, Saves(lt, k, prior, a), init, e);
    }
  }

  /** The prior of the joined document: the receiver's saves begin where the
      fallback's end. */
  lemma {:induction false} PriorConcat(lt: LetterTest, k: string, a: seq<Val>, b: seq<Val>)
    requires a != [] && b != [] && Apart(a, b)
    ensures PriorOf(lt, k, a + b) ==
            Saves(lt, k, SaveOne(lt, k, PriorOf(lt, k, a), Stored(lt, k, a)), StoredAll(lt, k, b[..|b| - 1]))
  {
    var init, up := a[..|a| - 1], b[..|b| - 1];
    assert (a + b)[..|a + b| - 1] == a + up;
    assert Apart(a, up);
    StoredAllConcat(lt, k, a, up);
    SavesConcat(lt, k, None, StoredAll(lt, k, a), StoredAll(lt, k, up));
    SavesLast(lt, k, None, StoredAll(lt, k, init), Stored(lt, k, a));
  }

  // ---------- a prior put in at the bottom later ----------

  /** The two ways a value is rewritten agree on it. */
  ghost predicate Refolds(lt: LetterTest, v: Val, key: string, p: Val, c: Val, stack: bool) {
    Rehydrate(FoldSelfRef(lt, v, key, Some(p), stack).v, c) == FoldSelfRef(lt, v, key, Some(Rehydrate(p, c)), stack).v
  }

  /** Folding against a refilled prior is refilling what was folded against it. */
  lemma {:induction false} RefoldIsFold(lt: LetterTest, env: Env, v: Val, k: string, p: Val, c: Val, stack: bool)
    requires Unfolded(env, v, k)
    ensures Refolds(lt, v, KeyOf(lt, [k]), p, c, stack)
  {
    var key := KeyOf(lt, [k]);
    match v
    case Scalar(_, _, _) =>
    case Obj(_, vals, _) =>
      forall j | j in vals ensures Refolds(lt, vals[j], key, p, c, false) {
        RefoldIsFold(lt, env, vals[j], k, p, c, false);
      }
      RefoldObject(lt, v, key, p, c, stack);
    case Subst(_, segs, _, _) => NoRemainder(lt, segs, k);
    case Concat(ps) =>
      forall i | 0 <= i < |ps| ensures Refolds(lt, ps[i], key, p, c, stack) {
        RefoldIsFold(lt, env, ps[i], k, p, c, stack);
      }
      RefoldParts(lt, v, ps, key, p, c, stack);
    case Arr(es) =>
      forall i | 0 <= i < |es| ensures Refolds(lt, es[i], key, p, c, stack) {
        RefoldIsFold(lt, env, es[i], k, p, c, stack);
      }
      RefoldParts(lt, v, es, key, p, c, stack);
  }

  lemma {:induction false} RefoldParts(lt: LetterTest, v: Val, vs: seq<Val>, key: string, p: Val, c: Val, stack: bool)
    requires (v == Concat(vs) || v == Arr(vs)) && forall i | 0 <= i < |vs| :: Refolds(lt, vs[i], key, p, c, stack)
    ensures Refolds(lt, v, key, p, c, stack)
  {
    var q := Rehydrate(p, c);
    FoldedParts(lt, v, vs, key, p, stack);
    FoldedParts(lt, v, vs, key, q, stack);
    var us := seq(|vs|, i requires 0 <= i < |vs| => FoldSelfRef(lt, vs[i], key, Some(p), stack).v);
    var ws := seq(|vs|, i requires 0 <= i < |vs| => FoldSelfRef(lt, vs[i], key, Some(q), stack).v);
    forall i | 0 <= i < |vs| ensures Rehydrate(us[i], c) == ws[i] {
      assert Refolds(lt, vs[i], key, p, c, stack);
    }
    assert seq(|us|, i requires 0 <= i < |us| => Rehydrate(us[i], c)) == ws;
  }

  lemma {:induction false} RefoldObject(lt: LetterTest, v: Val, key: string, p: Val, c: Val, stack: bool)
    requires v.Obj? && forall j | j in v.vals :: Refolds(lt, v.vals[j], key, p, c, false)
    ensures Refolds(lt, v, key, p, c, stack)
  {
    var q := Rehydrate(p, c);
    FoldedObj(lt, v, key, p, stack);
    FoldedObj(lt, v, key, q, stack);
    var a, b := FoldSelfRef(lt, v, key, Some(p), stack).v, FoldSelfRef(lt, v, key, Some(q), stack).v;
    forall j | j in v.vals ensures Rehydrate(a.vals[j], c) == b.vals[j] {
      assert Refolds(lt, v.vals[j], key, p, c, false);
    }
    assert Rehydrate(a, c).vals == b.vals;
  }

  lemma {:induction false} OptionalIsExact(lt: LetterTest, env: Env, v: Val, k: string, stack: bool)
    requires Unfolded(env, v, k) && !Demands(v, k)
    ensures OnlyExactOptional(lt, v, KeyOf(lt, [k]), stack)
  {
    match v
    case Scalar(_, _, _) =>
    case Obj(_, vals, _) => forall j | j in vals { OptionalIsExact(lt, env, vals[j], k, false); }
    case Subst(_, segs, _, _) => NoRemainder(lt, segs, k);
    case Concat(ps) => forall i | 0 <= i < |ps| { OptionalIsExact(lt, env, ps[i], k, stack); }
    case Arr(es) => forall i | 0 <= i < |es| { OptionalIsExact(lt, env, es[i], k, stack); }
  }

  lemma {:induction false} SkipsNavigation(lt: LetterTest, env: Env, e: Val, k: string, prior: Option<Val>)
    requires Piece(env, e, k)
    ensures var key := KeyOf(lt, [k]);
            var f := FoldSelfRef(lt, e, key, prior, true);
            FoldOrSkip(lt, e, key, prior) ==
            if !f.hit then Some(e) else if prior.None? then FoldAbsent(lt, e, key, true) else Some(f.v)
  {
    if e.Subst? { NoRemainder(lt, e.segs, k); }
  }

  /** One save over a prior with its bottom filled in. */
  lemma {:induction false} SaveRefilled(lt: LetterTest, env: Env, k: string, e: Val, p: Option<Val>, c: Val)
    requires Unfolded(env, e, k) && (p.None? ==> !Demands(e, k))
    ensures var s := SaveOne(lt, k, p, e);
            s.Some? && SaveOne(lt, k, Some(if p.Some? then Rehydrate(p.value, c) else c), e) ==
              Some(Rehydrate(s.value, c))
  {
    var key, q := KeyOf(lt, [k]), if p.Some? then Rehydrate(p.value, c) else c;
    SkipsNavigation(lt, env, e, k, p);
    SkipsNavigation(lt, env, e, k, Some(q));
    HitIgnoresReplacement(lt, e, key, p, true);
    HitIgnoresReplacement(lt, e, key, Some(q), true);
    NothingToRefill(e, c);
    if p.Some? {
      RefoldIsFold(lt, env, e, k, p.value, c, true);
    } else {
      OptionalIsExact(lt, env, e, k, true);
      RefillIsFold(lt, e, key, c, true);
    }
  }

  ghost predicate AllUnfolded(env: Env, k: string, es: seq<Val>) {
    forall i | 0 <= i < |es| :: Unfolded(env, es[i], k)
  }

  /** Saves over a given prior: those over nothing, refilled with it. */
  lemma {:induction false} SavesRefilled(lt: LetterTest, env: Env, k: string, es: seq<Val>, c: Val)
    requires AllUnfolded(env, k, es) && es != [] && !Demands(es[0], k)
    ensures var s := Saves(lt, k, None, es);
            s.Some? && Saves(lt, k, Some(c), es) == Some(Rehydrate(s.value, c))
    decreases |es|
  {
    var init, e := es[..|es| - 1], es[|es| - 1];
    assert Unfolded(env, e, k);
    if init != [] {
      assert AllUnfolded(env, k, init);
      SavesRefilled(lt, env, k, init, c);
      SaveRefilled(lt, env, k, e, Saves(lt, k, None, init), c);
    } else {
      SaveRefilled(lt, env, k, e, None, c);
    }
  }
}
