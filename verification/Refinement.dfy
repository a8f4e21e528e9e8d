/**
 The resolver's machinery against plain evaluation.  The plain evaluator follows
 each reference in the raw tree: it has no cache, no set of keys being resolved,
 no field path, no guards.  On every tree whose references are well-founded the
 two give the same result.
 */
module Refinement {
  import opened Paths
  import opened Values
  import opened Concats
  import opened Resolve

  // ---------- the plain evaluator ----------

  function PlainVal(lt: LetterTest, root: Val, fuel: nat, v: Val): Res
    decreases fuel, v, 3
  {
    match v
    case Scalar(_, _, _) => Ok(v)
    case Subst(_, _, _, _) => PlainSubst(lt, root, fuel, v)
    case Concat(ps) =>
      (match PlainAll(lt, root, fuel, ps)
       case Vals(vs) => JoinConcat(vs)
       case SeqFail => Fail
       case SeqDiverge => Diverge)
    case Arr(es) =>
      (match PlainAll(lt, root, fuel, es)
       case Vals(vs) => Ok(Arr(Defined(vs)))
       case SeqFail => Fail
       case SeqDiverge => Diverge)
    case Obj(keys, _, _) => PlainFields(lt, root, fuel, v, keys, EMPTY_OBJ)
  }

  function PlainAll(lt: LetterTest, root: Val, fuel: nat, vs: seq<Val>): (r: SeqRes)
    ensures r.Vals? ==> |r.vs| == |vs|
    decreases fuel, vs, 0
  {
    if vs == [] then Vals([])
    else
      var first := PlainVal(lt, root, fuel, vs[0]);
      if first.Fail? then SeqFail
      else if first.Diverge? then SeqDiverge
      else
        var rest := PlainAll(lt, root, fuel, vs[1..]);
        if rest.Vals? then Vals([OptionOf(first)] + rest.vs) else rest
  }

  /** A field: its value, merged with or replaced by its prior where it asks for one. */
  function PlainField(lt: LetterTest, root: Val, fuel: nat, o: Val, k: string): Res
    requires o.Obj?
    decreases fuel, o, 0
  {
    var r := if k in o.vals then PlainVal(lt, root, fuel, o.vals[k]) else Absent;
    if WantsPrior(r) && k in o.priors then Settle(lt, r, PlainVal(lt, root, fuel, o.priors[k])) else r
  }

  function PlainFields(lt: LetterTest, root: Val, fuel: nat, o: Val, keys: seq<string>, acc: Val): Res
    requires o.Obj? && acc.Obj?
    decreases fuel, o, 1, |keys|
  {
    if keys == [] then Ok(acc)
    else
      match PlainField(lt, root, fuel, o, keys[0])
      case Fail => Fail
      case Diverge => Diverge
      case Absent => PlainFields(lt, root, fuel, o, keys[1..], acc)
      case Ok(v) => PlainFields(lt, root, fuel, o, keys[1..], Set(acc, keys[0], v))
  }

  /** A reference from inside the value it names looks back at the prior; any
      other takes the value it names. */
  function PlainSubst(lt: LetterTest, root: Val, fuel: nat, s: Val): Res
    requires s.Subst?
    decreases fuel, s, 2
  {
    var found, prior := Lookup(root, s.segs), PriorAt(root, s.segs);
    if s.knownAbsent then Undefined(s)
    else if fuel == 0 then Diverge
    else if found.None? then Undefined(s)
    else if ContainsId(found.value, s.id) then
      if prior.None? then Undefined(s) else PlainVal(lt, root, fuel - 1, prior.value)
    else
      var r := PlainVal(lt, root, fuel - 1, found.value);
      if WantsPrior(r) && prior.Some? then Settle(lt, r, PlainVal(lt, root, fuel - 1, prior.value)) else r
  }

  function PlainTree(lt: LetterTest, tree: Val, fuel: nat): Res
    requires tree.Obj?
  {
    PlainFields(lt, tree, fuel, tree, tree.keys, EMPTY_OBJ)
  }

  // ---------- well-founded references ----------

  /** The live references of v, priors included, weigh less than n. */
  ghost predicate Below(w: Val -> nat, v: Val, n: nat) {
    match v
    case Scalar(_, _, _) => true
    case Subst(_, _, _, absent) => absent || w(v) < n
    case Arr(es) => forall i | 0 <= i < |es| :: Below(w, es[i], n)
    case Concat(ps) => forall i | 0 <= i < |ps| :: Below(w, ps[i], n)
    case Obj(_, vals, priors) =>
      (forall k | k in vals :: Below(w, vals[k], n)) && (forall k | k in priors :: Below(w, priors[k], n))
  }

  /** What a path holds, its prior included, weighs less than n. */
  ghost predicate PathBelow(root: Val, w: Val -> nat, q: seq<string>, n: nat) {
    && (Lookup(root, q).Some? ==> Below(w, Lookup(root, q).value, n))
    && (PriorAt(root, q).Some? ==> Below(w, PriorAt(root, q).value, n))
  }

  /** u is one of the values stacked at a path: each step of the path takes either
      the live value or the prior. */
  ghost predicate Layer(o: Val, p: seq<string>, u: Val)
    decreases |p|
  {
    o.Obj? && p != [] &&
    if |p| == 1 then (p[0] in o.vals && u == o.vals[p[0]]) || (p[0] in o.priors && u == o.priors[p[0]])
    else (p[0] in o.vals && Layer(o.vals[p[0]], p[1..], u)) || (p[0] in o.priors && Layer(o.priors[p[0]], p[1..], u))
  }

  /** Every self-reference of v to a top-level key is one to the path q. */
  ghost predicate OwnRefsOnly(root: Val, v: Val, q: seq<string>) {
    match v
    case Scalar(_, _, _) => true
    case Subst(_, segs, _, absent) => absent || |segs| != 1 || !LooksBack(root, v) || segs == q
    case Arr(es) => forall i | 0 <= i < |es| :: OwnRefsOnly(root, es[i], q)
    case Concat(ps) => forall i | 0 <= i < |ps| :: OwnRefsOnly(root, ps[i], q)
    case Obj(_, vals, priors) =>
      (forall k | k in vals :: OwnRefsOnly(root, vals[k], q)) &&
        (forall k | k in priors :: OwnRefsOnly(root, priors[k], q))
  }

  /** f is a proper prefix of the reference's path, u a value stacked there that
      is not an object, and not simply the only one. */
  ghost predicate Blocks(root: Val, s: Val, f: seq<string>, u: Val)
    requires s.Subst?
  {
    && f != [] && f < s.segs && Layer(root, f, u) && !u.Obj?
    && (Lookup(root, f).Some? && Reordered(Lookup(root, f).value, u) ==> PriorAt(root, f).Some?)
  }

  /** A reference outweighs everything it may be resolved through. */
  ghost predicate Grounded(root: Val, w: Val -> nat, s: Val)
    requires s.Subst?
  {
    var found, prior := Lookup(root, s.segs), PriorAt(root, s.segs);
    && (found.Some? && !LooksBack(root, s) ==>
          Below(w, found.value, w(s)) && OwnRefsOnly(root, found.value, s.segs))
    && (prior.Some? ==> Below(w, prior.value, w(s)) && OwnRefsOnly(root, prior.value, s.segs))
    && (forall f, u {:trigger Blocks(root, s, f, u)} :: Blocks(root, s, f, u) ==> Below(w, u, w(s)))
  }

  /** All live references of v are grounded. */
  ghost predicate AllGrounded(root: Val, w: Val -> nat, v: Val) {
    match v
    case Scalar(_, _, _) => true
    case Subst(_, _, _, absent) => absent || Grounded(root, w, v)
    case Arr(es) => forall i | 0 <= i < |es| :: AllGrounded(root, w, es[i])
    case Concat(ps) => forall i | 0 <= i < |ps| :: AllGrounded(root, w, ps[i])
    case Obj(_, vals, priors) =>
      (forall k | k in vals :: AllGrounded(root, w, vals[k])) &&
        (forall k | k in priors :: AllGrounded(root, w, priors[k]))
  }

  /** No saved top-level prior is filed under a string that is the key of another path. */
  ghost predicate PriorsFaithful(lt: LetterTest, root: Val)
    requires root.Obj?
  {
    forall segs {:trigger KeyOf(lt, segs)} :: KeyOf(lt, segs) in root.priors ==> segs == [KeyOf(lt, segs)]
  }

  /** The references of the tree are well-founded. */
  ghost predicate Orderly(lt: LetterTest, root: Val, w: Val -> nat) {
    && root.Obj? && KeysMatch(root) && AllGrounded(root, w, root) && PriorsFaithful(lt, root)
    && (forall k | k in root.vals :: OwnRefsOnly(root, root.vals[k], [k]))
    && (forall k | k in root.priors :: OwnRefsOnly(root, root.priors[k], [k]))
  }

  // ---------- facts about weights and layers ----------

  lemma {:induction false} BelowMore(w: Val -> nat, v: Val, n: nat, m: nat)
    requires Below(w, v, n) && n <= m
    ensures Below(w, v, m)
  {
    match v
    case Arr(es) => forall i | 0 <= i < |es| { BelowMore(w, es[i], n, m); }
    case Concat(ps) => forall i | 0 <= i < |ps| { BelowMore(w, ps[i], n, m); }
    case Obj(_, vals, priors) =>
      forall k | k in vals { BelowMore(w, vals[k], n, m); }
      forall k | k in priors { BelowMore(w, priors[k], n, m); }
    case _ =>
  }

  lemma {:induction false} LookupGrounded(root: Val, w: Val -> nat, o: Val, q: seq<string>)
    requires AllGrounded(root, w, o) && Lookup(o, q).Some?
    ensures AllGrounded(root, w, Lookup(o, q).value)
    decreases |q|
  {
    if |q| > 1 {
      LookupGrounded(root, w, o.vals[q[0]], q[1..]);
    }
  }

  lemma {:induction false} PriorGrounded(root: Val, w: Val -> nat, q: seq<string>)
    requires root.Obj? && AllGrounded(root, w, root) && PriorAt(root, q).Some?
    ensures AllGrounded(root, w, PriorAt(root, q).value)
  {
    if |q| > 1 {
      LookupGrounded(root, w, root, q[..|q| - 1]);
    }
  }

  lemma {:induction false} LayerSnoc(o: Val, p: seq<string>, x: Val, k: string, y: Val)
    requires Layer(o, p, x) && x.Obj? && ((k in x.vals && y == x.vals[k]) || (k in x.priors && y == x.priors[k]))
    ensures Layer(o, p + [k], y)
    decreases |p|
  {
    assert (p + [k])[1..] == p[1..] + [k];
    if |p| == 1 {
      assert p[1..] + [k] == [k];
    } else {
      if p[0] in o.vals && Layer(o.vals[p[0]], p[1..], x) {
        LayerSnoc(o.vals[p[0]], p[1..], x, k, y);
      } else {
        LayerSnoc(o.priors[p[0]], p[1..], x, k, y);
      }
    }
  }

  /** Below a path whose value is not an object there is no prior either. */
  lemma {:induction false} NoPriorBelow(root: Val, f: seq<string>, g: seq<string>)
    requires f != [] && f < g && !(Lookup(root, f).Some? && Lookup(root, f).value.Obj?)
    ensures PriorAt(root, g).None?
  {
    var parent := g[..|g| - 1];
    assert f <= parent;
    if f == parent {
    } else {
      NothingBelow(root, f, parent);
    }
  }

  // ---------- plain evaluation does not depend on the budget ----------

  lemma {:induction false} PlainStable(lt: LetterTest, root: Val, w: Val -> nat, n: nat, m: nat, v: Val)
    requires root.Obj? && AllGrounded(root, w, root) && AllGrounded(root, w, v) && Below(w, v, n) && n <= m
    ensures PlainVal(lt, root, m, v) == PlainVal(lt, root, n, v) && !PlainVal(lt, root, n, v).Diverge?
    decreases n, v, 3
  {
    match v
    case Subst(_, _, _, _) => PlainSubstStable(lt, root, w, n, m, v);
    case Concat(ps) =>
      PlainAllStable(lt, root, w, n, m, ps);
      if PlainAll(lt, root, n, ps).Vals? { JoinEnds(PlainAll(lt, root, n, ps).vs); }
    case Arr(es) => PlainAllStable(lt, root, w, n, m, es);
    case Obj(keys, _, _) => PlainFieldsStable(lt, root, w, n, m, v, keys, EMPTY_OBJ);
    case _ =>
  }

  lemma {:induction false} PlainAllStable(lt: LetterTest, root: Val, w: Val -> nat, n: nat, m: nat, vs: seq<Val>)
    requires root.Obj? && AllGrounded(root, w, root) && n <= m
    requires forall i | 0 <= i < |vs| :: AllGrounded(root, w, vs[i]) && Below(w, vs[i], n)
    ensures PlainAll(lt, root, m, vs) == PlainAll(lt, root, n, vs) && !PlainAll(lt, root, n, vs).SeqDiverge?
    decreases n, vs, 0
  {
    if vs != [] {
      PlainStable(lt, root, w, n, m, vs[0]);
      PlainAllStable(lt, root, w, n, m, vs[1..]);
    }
  }

  lemma {:induction false} PlainFieldStable(lt: LetterTest, root: Val, w: Val -> nat, n: nat, m: nat, o: Val, k: string)
    requires root.Obj? && AllGrounded(root, w, root) && o.Obj? && n <= m
    requires k in o.vals ==> AllGrounded(root, w, o.vals[k]) && Below(w, o.vals[k], n)
    requires k in o.priors ==> AllGrounded(root, w, o.priors[k]) && Below(w, o.priors[k], n)
    ensures PlainField(lt, root, m, o, k) == PlainField(lt, root, n, o, k) && !PlainField(lt, root, n, o, k).Diverge?
    decreases n, o, 0
  {
    if k in o.vals { PlainStable(lt, root, w, n, m, o.vals[k]); }
    if k in o.priors { PlainStable(lt, root, w, n, m, o.priors[k]); }
  }

  lemma {:induction false} PlainFieldsStable(lt: LetterTest, root: Val, w: Val -> nat, n: nat, m: nat, o: Val,
                                             keys: seq<string>, acc: Val)
    requires root.Obj? && AllGrounded(root, w, root) && o.Obj? && acc.Obj? && n <= m
    requires AllGrounded(root, w, o) && Below(w, o, n)
    ensures PlainFields(lt, root, m, o, keys, acc) == PlainFields(lt, root, n, o, keys, acc)
    ensures !PlainFields(lt, root, n, o, keys, acc).Diverge?
    decreases n, o, 1, |keys|
  {
    if keys != [] {
      PlainFieldStable(lt, root, w, n, m, o, keys[0]);
      var r := PlainField(lt, root, n, o, keys[0]);
      PlainFieldsStable(lt, root, w, n, m, o, keys[1..], if r.Ok? then Set(acc, keys[0], r.v) else acc);
    }
  }

  /** A reference that is followed, to its value and perhaps its prior. */
  lemma {:induction false} PlainFollowStable(lt: LetterTest, root: Val, n: nat, m: nat, s: Val)
    requires s.Subst? && !s.knownAbsent && 0 < n <= m && Lookup(root, s.segs).Some? && !LooksBack(root, s)
    requires var found := Lookup(root, s.segs).value;
             PlainVal(lt, root, m - 1, found) == PlainVal(lt, root, n - 1, found) &&
               !PlainVal(lt, root, n - 1, found).Diverge?
    requires var prior := PriorAt(root, s.segs);
             prior.Some? ==> PlainVal(lt, root, m - 1, prior.value) == PlainVal(lt, root, n - 1, prior.value)
                             && !PlainVal(lt, root, n - 1, prior.value).Diverge?
    ensures PlainSubst(lt, root, m, s) == PlainSubst(lt, root, n, s) && !PlainSubst(lt, root, n, s).Diverge?
  {
  }

  lemma {:induction false} PlainBackStable(lt: LetterTest, root: Val, n: nat, m: nat, s: Val)
    requires s.Subst? && !s.knownAbsent && 0 < n <= m && (Lookup(root, s.segs).None? || LooksBack(root, s))
    requires var prior := PriorAt(root, s.segs);
             prior.Some? ==> PlainVal(lt, root, m - 1, prior.value) == PlainVal(lt, root, n - 1, prior.value)
                             && !PlainVal(lt, root, n - 1, prior.value).Diverge?
    ensures PlainSubst(lt, root, m, s) == PlainSubst(lt, root, n, s) && !PlainSubst(lt, root, n, s).Diverge?
  {
  }

  /** What a grounded reference is resolved through weighs less than it. */
  lemma {:induction false} PriorIsLighter(root: Val, w: Val -> nat, n: nat, s: Val)
    requires root.Obj? && AllGrounded(root, w, root)
    requires s.Subst? && !s.knownAbsent && AllGrounded(root, w, s) && Below(w, s, n) && PriorAt(root, s.segs).Some?
    ensures var v := PriorAt(root, s.segs).value;
            n > 0 && AllGrounded(root, w, v) && Below(w, v, n - 1)
  {
    PriorGrounded(root, w, s.segs);
    BelowMore(w, PriorAt(root, s.segs).value, w(s), n - 1);
  }

  lemma {:induction false} FoundIsLighter(root: Val, w: Val -> nat, n: nat, s: Val)
    requires root.Obj? && AllGrounded(root, w, root)
    requires s.Subst? && !s.knownAbsent && AllGrounded(root, w, s) && Below(w, s, n)
    requires Lookup(root, s.segs).Some? && !LooksBack(root, s)
    ensures var v := Lookup(root, s.segs).value;
            n > 0 && AllGrounded(root, w, v) && Below(w, v, n - 1)
  {
    LookupGrounded(root, w, root, s.segs);
    BelowMore(w, Lookup(root, s.segs).value, w(s), n - 1);
  }

  lemma {:induction false} PriorStable(lt: LetterTest, root: Val, w: Val -> nat, n: nat, m: nat, s: Val)
    requires root.Obj? && AllGrounded(root, w, root) && s.Subst? && !s.knownAbsent && AllGrounded(root, w, s) &&
             Below(w, s, n) && n <= m
    requires PriorAt(root, s.segs).Some?
    ensures n > 0 && var v := PriorAt(root, s.segs).value;
            PlainVal(lt, root, m - 1, v) == PlainVal(lt, root, n - 1, v) && !PlainVal(lt, root, n - 1, v).Diverge?
    decreases n, s, 1
  {
    PriorIsLighter(root, w, n, s);
    PlainStable(lt, root, w, n - 1, m - 1, PriorAt(root, s.segs).value);
  }

  lemma {:induction false} FoundStable(lt: LetterTest, root: Val, w: Val -> nat, n: nat, m: nat, s: Val)
    requires root.Obj? && AllGrounded(root, w, root) && s.Subst? && !s.knownAbsent && AllGrounded(root, w, s) &&
             Below(w, s, n) && n <= m
    requires Lookup(root, s.segs).Some? && !LooksBack(root, s)
    ensures n > 0 && var v := Lookup(root, s.segs).value;
            PlainVal(lt, root, m - 1, v) == PlainVal(lt, root, n - 1, v) && !PlainVal(lt, root, n - 1, v).Diverge?
    decreases n, s, 1
  {
    FoundIsLighter(root, w, n, s);
    PlainStable(lt, root, w, n - 1, m - 1, Lookup(root, s.segs).value);
  }

  lemma {:induction false} PlainSubstStable(lt: LetterTest, root: Val, w: Val -> nat, n: nat, m: nat, s: Val)
    requires root.Obj? && AllGrounded(root, w, root) && s.Subst? && AllGrounded(root, w, s) && Below(w, s, n) && n <= m
    ensures PlainSubst(lt, root, m, s) == PlainSubst(lt, root, n, s) && !PlainSubst(lt, root, n, s).Diverge?
    decreases n, s, 2
  {
    if !s.knownAbsent {
      if PriorAt(root, s.segs).Some? {
        PriorStable(lt, root, w, n, m, s);
      }
      if Lookup(root, s.segs).Some? && !LooksBack(root, s) {
        FoundStable(lt, root, w, n, m, s);
        PlainFollowStable(lt, root, n, m, s);
      } else {
        PlainBackStable(lt, root, n, m, s);
      }
    }
  }
}
