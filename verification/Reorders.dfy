/**
 The order of fields, at any depth: resolving an orderly tree whose objects list
 their fields in another order gives the same values, or fails as well.
 */
module Reorders {
  import opened Paths
  import opened Values
  import opened Merge
  import opened Concats
  import opened Resolve
  import opened ResolveLaws
  import opened Reordering
  import opened Termination
  import opened Refinement
  import opened Refines
  import opened Orders

  // ---------- what the walks look at ----------

  lemma {:induction false} LookupReordered(a: Val, b: Val, q: seq<string>)
    requires Reordered(a, b)
    ensures BothOrNone(Lookup(a, q), Lookup(b, q))
    decreases |q|
  {
    if a.Obj? && q != [] && q[0] in a.vals && |q| > 1 {
      LookupReordered(a.vals[q[0]], b.vals[q[0]], q[1..]);
    }
  }

  lemma {:induction false} PriorReordered(a: Val, b: Val, q: seq<string>)
    requires a.Obj? && Reordered(a, b)
    ensures BothOrNone(PriorAt(a, q), PriorAt(b, q))
  {
    if |q| > 1 {
      LookupReordered(a, b, q[..|q| - 1]);
    }
  }

  lemma {:induction false} ContainsReordered(a: Val, b: Val, id: nat)
    requires Reordered(a, b)
    ensures ContainsId(a, id) == ContainsId(b, id)
  {
    match a
    case Arr(es) => forall i | 0 <= i < |es| { ContainsReordered(es[i], b.elems[i], id); }
    case Concat(ps) => forall i | 0 <= i < |ps| { ContainsReordered(ps[i], b.parts[i], id); }
    case Obj(_, vals, _) => forall k | k in vals { ContainsReordered(vals[k], b.vals[k], id); }
    case _ =>
  }

  lemma {:induction false} LookupWellFormed(o: Val, q: seq<string>)
    requires WellFormed(o) && Lookup(o, q).Some?
    ensures WellFormed(Lookup(o, q).value)
    decreases |q|
  {
    if |q| > 1 {
      LookupWellFormed(o.vals[q[0]], q[1..]);
    }
  }

  lemma {:induction false} PriorWellFormed(root: Val, q: seq<string>)
    requires root.Obj? && WellFormed(root) && PriorAt(root, q).Some?
    ensures WellFormed(PriorAt(root, q).value)
  {
    if |q| > 1 {
      LookupWellFormed(root, q[..|q| - 1]);
    }
  }

  // ---------- plain evaluation ----------

  /** Both roots are grounded by the same weights, and fields are in any order. */
  ghost predicate Roots(root: Val, other: Val, w: Val -> nat) {
    && root.Obj? && AllGrounded(root, w, root) && AllGrounded(other, w, other)
    && Reordered(root, other) && WellFormed(root) && WellFormed(other)
  }

  ghost predicate Twins(root: Val, other: Val, w: Val -> nat, n: nat, v: Val, u: Val) {
    && Reordered(v, u) && WellFormed(v) && WellFormed(u)
    && AllGrounded(root, w, v) && AllGrounded(other, w, u) && Below(w, v, n) && Below(w, u, n)
  }

  lemma {:induction false} ValReordered(lt: LetterTest, root: Val, other: Val, w: Val -> nat, n: nat, v: Val, u: Val)
    requires Roots(root, other, w) && Twins(root, other, w, n, v, u)
    ensures SameRes(PlainVal(lt, root, n, v), PlainVal(lt, other, n, u))
    decreases n, v, 3
  {
    match v
    case Scalar(_, _, _) =>
    case Subst(_, _, _, _) => SubstReordered(lt, root, other, w, n, v);
    case Concat(ps) =>
      AllReordered(lt, root, other, w, n, ps, u.parts);
      if PlainAll(lt, root, n, ps).Vals? {
        JoinReordered(PlainAll(lt, root, n, ps).vs, PlainAll(lt, other, n, u.parts).vs);
      }
    case Arr(es) =>
      AllReordered(lt, root, other, w, n, es, u.elems);
      if PlainAll(lt, root, n, es).Vals? {
        DefinedReordered(PlainAll(lt, root, n, es).vs, PlainAll(lt, other, n, u.elems).vs);
      }
    case Obj(_, _, _) => FieldsReordered(lt, root, other, w, n, v, u);
  }

  lemma {:induction false} AllReordered(lt: LetterTest, root: Val, other: Val, w: Val -> nat, n: nat, vs: seq<Val>,
                                        us: seq<Val>)
    requires Roots(root, other, w) && |vs| == |us| && forall i | 0 <= i < |vs| :: Twins(root, other, w, n, vs[i], us[i])
    ensures var a, b := PlainAll(lt, root, n, vs), PlainAll(lt, other, n, us);
            if a.Vals? then b.Vals? && SameOptions(a.vs, b.vs) else a == SeqFail && b == SeqFail
    decreases n, vs, 0
  {
    if vs != [] {
      ValReordered(lt, root, other, w, n, vs[0], us[0]);
      AllReordered(lt, root, other, w, n, vs[1..], us[1..]);
    }
  }

  lemma {:induction false} FieldReordered(lt: LetterTest, root: Val, other: Val, w: Val -> nat, n: nat, o: Val, p: Val,
                                          k: string)
    requires Roots(root, other, w) && o.Obj? && Twins(root, other, w, n, o, p)
    ensures SameRes(PlainField(lt, root, n, o, k), PlainField(lt, other, n, p, k))
    decreases n, o, 0
  {
    if k in o.vals { ValReordered(lt, root, other, w, n, o.vals[k], p.vals[k]); }
    if k in o.priors { ValReordered(lt, root, other, w, n, o.priors[k], p.priors[k]); }
    var a := if k in o.vals then PlainVal(lt, root, n, o.vals[k]) else Absent;
    var b := if k in p.vals then PlainVal(lt, other, n, p.vals[k]) else Absent;
    if WantsPrior(a) && k in o.priors {
      SettleReordered(lt, a, b, PlainVal(lt, root, n, o.priors[k]), PlainVal(lt, other, n, p.priors[k]));
    }
  }

  /** A walk that adds concrete fields to a concrete object. */
  lemma {:induction false} WalkIsConcrete(lt: LetterTest, root: Val, n: nat, o: Val, keys: seq<string>, acc: Val)
    requires o.Obj? && acc.Obj? && Concrete(acc)
    requires forall i | 0 <= i < |keys| :: ConcreteRes(PlainField(lt, root, n, o, keys[i]))
    ensures ConcreteRes(PlainFields(lt, root, n, o, keys, acc))
    decreases |keys|
  {
    if keys != [] {
      var r := PlainField(lt, root, n, o, keys[0]);
      assert forall i | 0 <= i < |keys[1..]| :: keys[1..][i] == keys[i + 1];
      if r.Ok? { SetIsConcrete(acc, keys[0], r.v); }
      if Settles(r) {
        WalkIsConcrete(lt, root, n, o, keys[1..], if r.Ok? then Set(acc, keys[0], r.v) else acc);
      }
    }
  }

  /** A walk none of whose fields diverges does not either. */
  lemma {:induction false} WalkEnds(lt: LetterTest, root: Val, n: nat, o: Val, keys: seq<string>, acc: Val)
    requires o.Obj? && acc.Obj? && forall i | 0 <= i < |keys| :: !PlainField(lt, root, n, o, keys[i]).Diverge?
    ensures !PlainFields(lt, root, n, o, keys, acc).Diverge? && !PlainFields(lt, root, n, o, keys, acc).Absent?
    decreases |keys|
  {
    if keys != [] {
      var r := PlainField(lt, root, n, o, keys[0]);
      assert forall i | 0 <= i < |keys[1..]| :: keys[1..][i] == keys[i + 1];
      if Settles(r) {
        WalkEnds(lt, root, n, o, keys[1..], if r.Ok? then Set(acc, keys[0], r.v) else acc);
      }
    }
  }

  lemma {:induction false} FieldsReordered(lt: LetterTest, root: Val, other: Val, w: Val -> nat, n: nat, o: Val, p: Val)
    requires Roots(root, other, w) && o.Obj? && Twins(root, other, w, n, o, p)
    ensures SameRes(PlainFields(lt, root, n, o, o.keys, EMPTY_OBJ), PlainFields(lt, other, n, p, p.keys, EMPTY_OBJ))
    decreases n, o, 1
  {
    forall k ensures SameRes(PlainField(lt, root, n, o, k), PlainField(lt, other, n, p, k)) {
      FieldReordered(lt, root, other, w, n, o, p, k);
    }
    WalkIsConcrete(lt, root, n, o, o.keys, EMPTY_OBJ);
    WalkIsConcrete(lt, other, n, p, p.keys, EMPTY_OBJ);
    WalkEnds(lt, root, n, o, o.keys, EMPTY_OBJ);
    WalkEnds(lt, other, n, p, p.keys, EMPTY_OBJ);
    PlainFieldsAre(lt, root, n, o, o.keys, EMPTY_OBJ);
    PlainFieldsAre(lt, other, n, p, p.keys, EMPTY_OBJ);
    SameKeys(o, p);
    var a, b := PlainFields(lt, root, n, o, o.keys, EMPTY_OBJ), PlainFields(lt, other, n, p, p.keys, EMPTY_OBJ);
    assert (forall i | 0 <= i < |o.keys| :: Settles(PlainField(lt, root, n, o, o.keys[i]))) <==>
           (forall i | 0 <= i < |p.keys| :: Settles(PlainField(lt, other, n, p, p.keys[i]))) by {
      AllSettle(lt, root, n, o);
      AllSettle(lt, other, n, p);
    }
    if a.Ok? && b.Ok? {
      FieldwiseReordered(lt, root, other, n, o, p, a.v, b.v);
    }
  }

  lemma {:induction false} SameKeys(o: Val, p: Val)
    requires o.Obj? && p.Obj? && KeysMatch(o) && KeysMatch(p) && o.vals.Keys == p.vals.Keys
    ensures forall k :: k in o.keys <==> k in p.keys
  {
    forall k ensures k in o.keys <==> k in p.keys {
      assert k in o.keys <==> k in o.vals;
      assert k in p.keys <==> k in p.vals;
    }
  }

  lemma {:induction false} AllSettle(lt: LetterTest, root: Val, n: nat, o: Val)
    requires o.Obj? && KeysMatch(o)
    ensures (forall i | 0 <= i < |o.keys| :: Settles(PlainField(lt, root, n, o, o.keys[i]))) <==>
            (forall k | k in o.vals :: Settles(PlainField(lt, root, n, o, k)))
  {
    if forall i | 0 <= i < |o.keys| :: Settles(PlainField(lt, root, n, o, o.keys[i])) {
      forall k | k in o.vals ensures Settles(PlainField(lt, root, n, o, k)) {
        assert k in o.keys;
      }
    }
  }

  lemma {:induction false} FieldwiseReordered(lt: LetterTest, root: Val, other: Val, n: nat, o: Val, p: Val, a: Val,
                                              b: Val)
    requires o.Obj? && p.Obj? && a.Obj? && b.Obj? && a.priors == map[] && b.priors == map[]
    requires forall k :: k in o.keys <==> k in p.keys
    requires forall k :: SameRes(PlainField(lt, root, n, o, k), PlainField(lt, other, n, p, k))
    requires forall k ::
               Get(a.vals, k) ==
               if k in o.keys && PlainField(lt, root, n, o, k).Ok?
               then Some(PlainField(lt, root, n, o, k).v) else None
    requires forall k ::
               Get(b.vals, k) ==
               if k in p.keys && PlainField(lt, other, n, p, k).Ok?
               then Some(PlainField(lt, other, n, p, k).v) else None
    ensures Reordered(a, b)
  {
    forall k ensures BothOrNone(Get(a.vals, k), Get(b.vals, k)) {
      assert SameRes(PlainField(lt, root, n, o, k), PlainField(lt, other, n, p, k));
    }
    forall k ensures k in a.vals <==> k in b.vals {
      assert BothOrNone(Get(a.vals, k), Get(b.vals, k));
    }
    forall k | k in a.vals ensures Reordered(a.vals[k], b.vals[k]) {
      assert BothOrNone(Get(a.vals, k), Get(b.vals, k));
    }
  }

  /** The last step at a reference that is followed in both trees. */
  lemma {:induction false} FollowStep(lt: LetterTest, root: Val, other: Val, n: nat, s: Val)
    requires s.Subst? && !s.knownAbsent && n > 0 && !LooksBack(root, s) && !LooksBack(other, s)
    requires Lookup(root, s.segs).Some? && Lookup(other, s.segs).Some?
    requires SameRes(PlainVal(lt, root, n - 1, Lookup(root, s.segs).value),
                     PlainVal(lt, other, n - 1, Lookup(other, s.segs).value))
    requires PriorAt(root, s.segs).Some? <==> PriorAt(other, s.segs).Some?
    requires PriorAt(root, s.segs).Some? ==>
               SameRes(PlainVal(lt, root, n - 1, PriorAt(root, s.segs).value),
                       PlainVal(lt, other, n - 1, PriorAt(other, s.segs).value))
    ensures SameRes(PlainSubst(lt, root, n, s), PlainSubst(lt, other, n, s))
  {
    var a, b := PlainVal(lt, root, n - 1, Lookup(root, s.segs).value),
      PlainVal(lt, other, n - 1, Lookup(other, s.segs).value);
    if WantsPrior(a) && PriorAt(root, s.segs).Some? {
      SettleReordered(lt, a, b, PlainVal(lt, root, n - 1, PriorAt(root, s.segs).value),
                      PlainVal(lt, other, n - 1, PriorAt(other, s.segs).value));
    }
  }

  /** The last step at a reference that looks back, or finds nothing. */
  lemma {:induction false} BackStep(lt: LetterTest, root: Val, other: Val, n: nat, s: Val)
    requires s.Subst? && n > 0
    requires (Lookup(root, s.segs).None? && Lookup(other, s.segs).None?) || (LooksBack(root, s) && LooksBack(other, s))
    requires PriorAt(root, s.segs).Some? <==> PriorAt(other, s.segs).Some?
    requires PriorAt(root, s.segs).Some? ==>
               SameRes(PlainVal(lt, root, n - 1, PriorAt(root, s.segs).value),
                       PlainVal(lt, other, n - 1, PriorAt(other, s.segs).value))
    ensures SameRes(PlainSubst(lt, root, n, s), PlainSubst(lt, other, n, s))
  {
  }

  lemma {:induction false} PriorTwins(root: Val, other: Val, w: Val -> nat, n: nat, s: Val)
    requires Roots(root, other, w) && s.Subst? && !s.knownAbsent && Twins(root, other, w, n, s, s)
    requires PriorAt(root, s.segs).Some?
    ensures n > 0 && PriorAt(other, s.segs).Some?
    ensures Twins(root, other, w, n - 1, PriorAt(root, s.segs).value, PriorAt(other, s.segs).value)
  {
    PriorReordered(root, other, s.segs);
    PriorWellFormed(root, s.segs);
    PriorWellFormed(other, s.segs);
    PriorIsLighter(root, w, n, s);
    PriorIsLighter(other, w, n, s);
  }

  lemma {:induction false} FoundTwins(root: Val, other: Val, w: Val -> nat, n: nat, s: Val)
    requires Roots(root, other, w) && s.Subst? && !s.knownAbsent && Twins(root, other, w, n, s, s)
    requires Lookup(root, s.segs).Some? && !LooksBack(root, s) && !LooksBack(other, s)
    ensures n > 0 && Lookup(other, s.segs).Some?
    ensures Twins(root, other, w, n - 1, Lookup(root, s.segs).value, Lookup(other, s.segs).value)
  {
    LookupReordered(root, other, s.segs);
    LookupWellFormed(root, s.segs);
    LookupWellFormed(other, s.segs);
    FoundIsLighter(root, w, n, s);
    FoundIsLighter(other, w, n, s);
  }

  lemma {:induction false} SamePaths(root: Val, other: Val, s: Val)
    requires root.Obj? && Reordered(root, other) && s.Subst?
    ensures Lookup(root, s.segs).Some? <==> Lookup(other, s.segs).Some?
    ensures PriorAt(root, s.segs).Some? <==> PriorAt(other, s.segs).Some?
    ensures LooksBack(root, s) <==> LooksBack(other, s)
  {
    LookupReordered(root, other, s.segs);
    PriorReordered(root, other, s.segs);
    if Lookup(root, s.segs).Some? {
      ContainsReordered(Lookup(root, s.segs).value, Lookup(other, s.segs).value, s.id);
    }
  }

  /** The same reference in both trees. */
  lemma {:induction false} SubstReordered(lt: LetterTest, root: Val, other: Val, w: Val -> nat, n: nat, s: Val)
    requires Roots(root, other, w) && s.Subst? && Twins(root, other, w, n, s, s)
    ensures SameRes(PlainSubst(lt, root, n, s), PlainSubst(lt, other, n, s))
    decreases n, s, 2
  {
    if !s.knownAbsent {
      SamePaths(root, other, s);
      if PriorAt(root, s.segs).Some? {
        PriorTwins(root, other, w, n, s);
        ValReordered(lt, root, other, w, n - 1, PriorAt(root, s.segs).value, PriorAt(other, s.segs).value);
      }
      if Lookup(root, s.segs).Some? && !LooksBack(root, s) {
        FoundTwins(root, other, w, n, s);
        ValReordered(lt, root, other, w, n - 1, Lookup(root, s.segs).value, Lookup(other, s.segs).value);
        FollowStep(lt, root, other, n, s);
      } else {
        BackStep(lt, root, other, n, s);
      }
    }
  }

  // ---------- being orderly does not depend on the order ----------

  lemma {:induction false} BelowReordered(w: Val -> nat, a: Val, b: Val, n: nat)
    requires Reordered(a, b) && Below(w, a, n)
    ensures Below(w, b, n)
  {
    match a
    case Arr(es) => forall i | 0 <= i < |es| { BelowReordered(w, es[i], b.elems[i], n); }
    case Concat(ps) => forall i | 0 <= i < |ps| { BelowReordered(w, ps[i], b.parts[i], n); }
    case Obj(_, vals, priors) =>
      forall k | k in vals { BelowReordered(w, vals[k], b.vals[k], n); }
      forall k | k in priors { BelowReordered(w, priors[k], b.priors[k], n); }
    case _ =>
  }

  lemma {:induction false} OwnRefsReordered(root: Val, other: Val, a: Val, b: Val, q: seq<string>)
    requires root.Obj? && Reordered(root, other) && Reordered(a, b) && OwnRefsOnly(root, a, q)
    ensures OwnRefsOnly(other, b, q)
  {
    match a
    case Subst(_, _, _, _) => SamePaths(root, other, a);
    case Arr(es) => forall i | 0 <= i < |es| { OwnRefsReordered(root, other, es[i], b.elems[i], q); }
    case Concat(ps) => forall i | 0 <= i < |ps| { OwnRefsReordered(root, other, ps[i], b.parts[i], q); }
    case Obj(_, vals, priors) =>
      forall k | k in vals { OwnRefsReordered(root, other, vals[k], b.vals[k], q); }
      forall k | k in priors { OwnRefsReordered(root, other, priors[k], b.priors[k], q); }
    case _ =>
  }

  /** Every layer of the reordered tree is one of the other, reordered. */
  lemma {:induction false} LayerReordered(a: Val, b: Val, p: seq<string>, y: Val) returns (x: Val)
    requires Reordered(a, b) && Layer(b, p, y)
    ensures Layer(a, p, x) && Reordered(x, y)
    decreases |p|
  {
    var k := p[0];
    if |p| == 1 {
      x := if k in b.vals && y == b.vals[k] then a.vals[k] else a.priors[k];
    } else if k in b.vals && Layer(b.vals[k], p[1..], y) {
      x := LayerReordered(a.vals[k], b.vals[k], p[1..], y);
    } else {
      x := LayerReordered(a.priors[k], b.priors[k], p[1..], y);
    }
  }

  lemma {:induction false} BlocksReordered(root: Val, other: Val, w: Val -> nat, s: Val, f: seq<string>, y: Val)
    requires root.Obj? && Reordered(root, other) && s.Subst? && Grounded(root, w, s) && Blocks(other, s, f, y)
    ensures Below(w, y, w(s))
  {
    var x := LayerReordered(root, other, f, y);
    LookupReordered(root, other, f);
    PriorReordered(root, other, f);
    if Lookup(root, f).Some? && Reordered(Lookup(root, f).value, x) {
      var u, v := Lookup(root, f).value, Lookup(other, f).value;
      ReorderedSymmetric(u, v);
      ReorderedTransitive(v, u, x);
      ReorderedTransitive(v, x, y);
    }
    assert Blocks(root, s, f, x);
    BelowReordered(w, x, y, w(s));
  }

  lemma {:induction false} GroundedReordered(root: Val, other: Val, w: Val -> nat, s: Val)
    requires root.Obj? && Reordered(root, other) && s.Subst? && Grounded(root, w, s)
    ensures Grounded(other, w, s)
  {
    SamePaths(root, other, s);
    LookupReordered(root, other, s.segs);
    PriorReordered(root, other, s.segs);
    if Lookup(root, s.segs).Some? && !LooksBack(root, s) {
      BelowReordered(w, Lookup(root, s.segs).value, Lookup(other, s.segs).value, w(s));
      OwnRefsReordered(root, other, Lookup(root, s.segs).value, Lookup(other, s.segs).value, s.segs);
    }
    if PriorAt(root, s.segs).Some? {
      BelowReordered(w, PriorAt(root, s.segs).value, PriorAt(other, s.segs).value, w(s));
      OwnRefsReordered(root, other, PriorAt(root, s.segs).value, PriorAt(other, s.segs).value, s.segs);
    }
    forall f, y | Blocks(other, s, f, y) ensures Below(w, y, w(s)) {
      BlocksReordered(root, other, w, s, f, y);
    }
  }

  lemma {:induction false} AllGroundedReordered(root: Val, other: Val, w: Val -> nat, a: Val, b: Val)
    requires root.Obj? && Reordered(root, other) && Reordered(a, b) && AllGrounded(root, w, a)
    ensures AllGrounded(other, w, b)
  {
    match a
    case Subst(_, _, _, absent) => if !absent { GroundedReordered(root, other, w, a); }
    case Arr(es) => forall i | 0 <= i < |es| { AllGroundedReordered(root, other, w, es[i], b.elems[i]); }
    case Concat(ps) => forall i | 0 <= i < |ps| { AllGroundedReordered(root, other, w, ps[i], b.parts[i]); }
    case Obj(_, vals, priors) =>
      forall k | k in vals { AllGroundedReordered(root, other, w, vals[k], b.vals[k]); }
      forall k | k in priors { AllGroundedReordered(root, other, w, priors[k], b.priors[k]); }
    case _ =>
  }

  /** Whether a tree is orderly does not depend on the order of its fields. */
  lemma {:induction false} OrderlyReordered(lt: LetterTest, tree: Val, other: Val, w: Val -> nat)
    requires Orderly(lt, tree, w) && Reordered(tree, other) && KeysMatch(other)
    ensures Orderly(lt, other, w)
  {
    AllGroundedReordered(tree, other, w, tree, other);
    forall k | k in other.vals ensures OwnRefsOnly(other, other.vals[k], [k]) {
      OwnRefsReordered(tree, other, tree.vals[k], other.vals[k], [k]);
    }
    forall k | k in other.priors ensures OwnRefsOnly(other, other.priors[k], [k]) {
      OwnRefsReordered(tree, other, tree.priors[k], other.priors[k], [k]);
    }
  }

  /** The result of an orderly tree does not depend on the order of its fields, at
      any depth: with the fields in another order resolution fails too, or gives
      the same values. */
  lemma {:induction false} FieldOrderDoesNotMatter(lt: LetterTest, tree: Val, other: Val, w: Val -> nat, fuel: nat)
    requires Orderly(lt, tree, w) && Below(w, tree, fuel)
    requires Reordered(tree, other) && WellFormed(tree) && WellFormed(other)
    ensures var a, b := ResolveTree(lt, tree, fuel), ResolveTree(lt, other, fuel);
            (a == Fail && b == Fail) || (a.Ok? && b.Ok? && Reordered(a.v, b.v))
  {
    OrderlyReordered(lt, tree, other, w);
    BelowReordered(w, tree, other, fuel);
    ResolvingIsPlainEvaluation(lt, tree, w, fuel);
    ResolvingIsPlainEvaluation(lt, other, w, fuel);
    ValReordered(lt, tree, other, w, fuel, tree, other);
    NotAbsent(lt, tree, fuel, tree, tree.keys, EMPTY_OBJ);
  }

  /** In particular that of every tree without priors whose reference graph is acyclic. */
  lemma {:induction false} PriorFreeOrderDoesNotMatter(lt: LetterTest, tree: Val, other: Val, weight: nat -> nat,
                                                       fuel: nat)
    requires tree.Obj? && PriorFree(tree) && Acyclic(tree, weight, tree) && Below(ById(weight), tree, fuel)
    requires Reordered(tree, other) && WellFormed(other)
    ensures var a, b := ResolveTree(lt, tree, fuel), ResolveTree(lt, other, fuel);
            (a == Fail && b == Fail) || (a.Ok? && b.Ok? && Reordered(a.v, b.v))
  {
    PriorFreeIsOrderly(lt, tree, weight);
    PriorFreeIsWellFormed(tree);
    FieldOrderDoesNotMatter(lt, tree, other, ById(weight), fuel);
  }

  lemma {:induction false} PriorFreeIsWellFormed(v: Val)
    requires PriorFree(v)
    ensures WellFormed(v)
  {
    match v
    case Arr(es) => forall i | 0 <= i < |es| { PriorFreeIsWellFormed(es[i]); }
    case Concat(ps) => forall i | 0 <= i < |ps| { PriorFreeIsWellFormed(ps[i]); }
    case Obj(_, vals, _) => forall k | k in vals { PriorFreeIsWellFormed(vals[k]); }
    case _ =>
  }
}
