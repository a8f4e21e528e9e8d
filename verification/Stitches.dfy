/**
 Merging two literals in a row, each of which may assign a field several times
 (deepMergeAt in internal/resolver/resolver.go): for a field that refers to itself by
 its path the merge leaves the same prior as one literal with all the assignments.
 */
module Stitches {
  import opened Paths
  import opened Values
  import opened Fold
  import opened Merge
  import opened Fallbacks

  // ---------- the values in question ----------

  /** No sentinel, and no reference below the key where it would count. */
  predicate Exact(lt: LetterTest, v: Val, key: string, stack: bool) {
    match v
    case Scalar(_, _, _) => true
    case Subst(_, segs, _, absent) => !absent && (stack ==> PrefixRemainder(lt, segs, key).None?)
    case Concat(ps) => forall i | 0 <= i < |ps| :: Exact(lt, ps[i], key, stack)
    case Arr(es) => forall i | 0 <= i < |es| :: Exact(lt, es[i], key, stack)
    case Obj(_, vals, _) => forall k | k in vals :: Exact(lt, vals[k], key, false)
  }

  lemma {:induction false} ExactHasNoSentinel(lt: LetterTest, v: Val, key: string, stack: bool)
    requires Exact(lt, v, key, stack)
    ensures !ContainsSentinel(v)
  {
    match v
    case Scalar(_, _, _) =>
    case Subst(_, _, _, _) =>
    case Concat(ps) => forall i | 0 <= i < |ps| { ExactHasNoSentinel(lt, ps[i], key, stack); }
    case Arr(es) => forall i | 0 <= i < |es| { ExactHasNoSentinel(lt, es[i], key, stack); }
    case Obj(_, vals, _) => forall k | k in vals { ExactHasNoSentinel(lt, vals[k], key, false); }
  }

  // ---------- one save ----------

  /** The prior of a key once a value of it is overwritten. */
  function SaveAt(lt: LetterTest, key: string, prior: Option<Val>, e: Val): Option<Val> {
    var saved := FoldOrSkip(lt, e, key, prior);
    if saved.Some? then saved else prior
  }

  function SavesAt(lt: LetterTest, key: string, prior: Option<Val>, es: seq<Val>): Option<Val> {
    if es == [] then prior else SaveAt(lt, key, SavesAt(lt, key, prior, es[..|es| - 1]), es[|es| - 1])
  }

  lemma {:induction false} SavesGoOn(lt: LetterTest, key: string, prior: Option<Val>, a: seq<Val>, b: seq<Val>)
    ensures SavesAt(lt, key, prior, a + b) == SavesAt(lt, key, SavesAt(lt, key, prior, a), b)
    decreases |b|
  {
    if b == [] {
      assert a + b == a;
    } else {
      assert (a + b)[..|a + b| - 1] == a + b[..|b| - 1];
      SavesGoOn(lt, key, prior, a, b[..|b| - 1]);
    }
  }

  lemma {:induction false} RefoldExact(lt: LetterTest, v: Val, key: string, p: Val, c: Val, stack: bool)
    requires Exact(lt, v, key, stack)
    ensures Refolds(lt, v, key, p, c, stack)
  {
    match v
    case Scalar(_, _, _) =>
    case Subst(_, _, _, _) =>
    case Obj(_, vals, _) =>
      forall j | j in vals ensures Refolds(lt, vals[j], key, p, c, false) {
        RefoldExact(lt, vals[j], key, p, c, false);
      }
      RefoldObject(lt, v, key, p, c, stack);
    case Concat(ps) =>
      forall i | 0 <= i < |ps| ensures Refolds(lt, ps[i], key, p, c, stack) {
        RefoldExact(lt, ps[i], key, p, c, stack);
      }
      RefoldParts(lt, v, ps, key, p, c, stack);
    case Arr(es) =>
      forall i | 0 <= i < |es| ensures Refolds(lt, es[i], key, p, c, stack) {
        RefoldExact(lt, es[i], key, p, c, stack);
      }
      RefoldParts(lt, v, es, key, p, c, stack);
  }

  lemma {:induction false} SavesExact(lt: LetterTest, e: Val, key: string, prior: Option<Val>)
    requires Exact(lt, e, key, true)
    ensures var f := FoldSelfRef(lt, e, key, prior, true);
            FoldOrSkip(lt, e, key, prior) ==
            if !f.hit then Some(e) else if prior.None? then FoldAbsent(lt, e, key, true) else Some(f.v)
  {
  }

  /** One save over a prior with its bottom filled in. */
  lemma {:induction false} SaveFilled(lt: LetterTest, key: string, e: Val, p: Option<Val>, c: Val)
    requires Exact(lt, e, key, true) && (p.None? ==> OnlyExactOptional(lt, e, key, true))
    ensures var s := SaveAt(lt, key, p, e);
            s.Some? && SaveAt(lt, key, Some(if p.Some? then Rehydrate(p.value, c) else c), e) ==
              Some(Rehydrate(s.value, c))
  {
    var q := if p.Some? then Rehydrate(p.value, c) else c;
    SavesExact(lt, e, key, p);
    SavesExact(lt, e, key, Some(q));
    HitIgnoresReplacement(lt, e, key, p, true);
    HitIgnoresReplacement(lt, e, key, Some(q), true);
    ExactHasNoSentinel(lt, e, key, true);
    NothingToRefill(e, c);
    if p.Some? {
      RefoldExact(lt, e, key, p.value, c, true);
    } else {
      RefillIsFold(lt, e, key, c, true);
    }
  }

  ghost predicate AllExact(lt: LetterTest, key: string, es: seq<Val>) {
    forall i | 0 <= i < |es| :: Exact(lt, es[i], key, true)
  }

  /** Saves over nothing, filled in later, are the saves over what is filled in. */
  lemma {:induction false} SavesFilled(lt: LetterTest, key: string, es: seq<Val>, c: Val)
    requires AllExact(lt, key, es) && es != [] && OnlyExactOptional(lt, es[0], key, true)
    ensures var s := SavesAt(lt, key, None, es);
            s.Some? && SavesAt(lt, key, Some(c), es) == Some(Rehydrate(s.value, c))
    decreases |es|
  {
    var init, e := es[..|es| - 1], es[|es| - 1];
    assert Exact(lt, e, key, true);
    if init != [] {
      SavesFilled(lt, key, init, c);
      SaveFilled(lt, key, e, SavesAt(lt, key, None, init), c);
    } else {
      SaveFilled(lt, key, e, None, c);
    }
  }

  // ---------- two literals ----------

  /** The field l was assigned these values, one after the other. */
  ghost predicate AssignedIn(lt: LetterTest, o: Val, key: string, l: string, es: seq<Val>, last: Val) {
    o.Obj? && Get(o.vals, l) == Some(last) && Get(o.priors, l) == SavesAt(lt, key, None, es)
  }

  /** The later literal refers to the field by its path: the prior is that of one
      literal with the assignments of both. */
  lemma {:induction false} TwoLiteralsAreOne(lt: LetterTest, dst: Val, src: Val, path: seq<string>, save: bool,
                                             l: string, es: seq<Val>, d: Val, fs: seq<Val>, s: Val)
    requires var key := KeyOf(lt, path + [l]);
             && AssignedIn(lt, dst, key, l, es, d) && AssignedIn(lt, src, key, l, fs, s)
             && !ContainsSentinel(d) && SelfRefFullKey(lt, d, l) == Some(key)
             && AllExact(lt, key, es) && (es != [] ==> OnlyExactOptional(lt, es[0], key, true))
             && FoldOrSkip(lt, s, key, SavesAt(lt, key, None, fs)).Some?
    ensures CollisionPrior(lt, dst, src, path, save, l) ==
            SavesAt(lt, KeyOf(lt, path + [l]), None, fs + [s] + es)
  {
    var key := KeyOf(lt, path + [l]);
    var q := SavesAt(lt, key, None, fs + [s]);
    assert (fs + [s])[..|fs + [s]| - 1] == fs;
    SavesGoOn(lt, key, None, fs + [s], es);
    if es != [] {
      SavesFilled(lt, key, es, q.value);
    }
  }

  /** A later value that was folded to nothing takes up the earlier one. */
  lemma {:induction false} FoldedIsFilled(lt: LetterTest, dst: Val, src: Val, path: seq<string>, save: bool, l: string,
                                          v: Val)
    requires dst.Obj? && src.Obj? && l in dst.vals && l in src.vals && !BothObjects(dst, src, l)
    requires var key := KeyOf(lt, path + [l]);
             && Exact(lt, v, key, true) && OnlyExactOptional(lt, v, key, true)
             && FoldAbsent(lt, v, key, true) == Some(dst.vals[l])
    ensures DeepAt(lt, dst, src, path, save, l) ==
            FoldSelfRef(lt, v, KeyOf(lt, path + [l]), Some(src.vals[l]), true).v
  {
    RefillIsFold(lt, v, KeyOf(lt, path + [l]), src.vals[l], true);
    if !ContainsSentinel(dst.vals[l]) {
      NothingToRefill(dst.vals[l], src.vals[l]);
    }
  }
}
