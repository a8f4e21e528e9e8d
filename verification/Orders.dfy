/**
 Consequences of the refinement: trees without priors, and what a walk over fields gives.
 */
module Orders {
  import opened Paths
  import opened Values
  import opened Merge
  import opened Resolve
  import opened Termination
  import opened Refinement
  import opened Refines

  // ---------- trees without priors ----------

  function ById(weight: nat -> nat): Val -> nat {
    (v: Val) => if v.Subst? then weight(v.id) else 0
  }

  /** An acyclic reference graph: every reference outweighs those in the value
      it names. */
  ghost predicate Acyclic(root: Val, weight: nat -> nat, v: Val) {
    match v
    case Scalar(_, _, _) => true
    case Subst(id, segs, _, absent) =>
      absent || (Lookup(root, segs).Some? ==> Below(ById(weight), Lookup(root, segs).value, weight(id)))
    case Arr(es) => forall i | 0 <= i < |es| :: Acyclic(root, weight, es[i])
    case Concat(ps) => forall i | 0 <= i < |ps| :: Acyclic(root, weight, ps[i])
    case Obj(_, vals, _) => forall k | k in vals :: Acyclic(root, weight, vals[k])
  }

  lemma {:induction false} LighterHasNot(weight: nat -> nat, v: Val, id: nat)
    requires Below(ById(weight), v, weight(id)) && PriorFree(v)
    ensures !ContainsId(v, id)
  {
    match v
    case Arr(es) => forall i | 0 <= i < |es| { LighterHasNot(weight, es[i], id); }
    case Concat(ps) => forall i | 0 <= i < |ps| { LighterHasNot(weight, ps[i], id); }
    case Obj(_, vals, _) => forall k | k in vals { LighterHasNot(weight, vals[k], id); }
    case _ =>
  }

  /** Without priors the only layer of a path is what stands there. */
  lemma {:induction false} OnlyLayer(o: Val, p: seq<string>, u: Val)
    requires PriorFree(o) && Layer(o, p, u)
    ensures Lookup(o, p) == Some(u)
    decreases |p|
  {
    if |p| > 1 {
      OnlyLayer(o.vals[p[0]], p[1..], u);
    }
  }

  lemma {:induction false} PriorFreeHasNoPrior(root: Val, p: seq<string>)
    requires root.Obj? && PriorFree(root)
    ensures PriorAt(root, p).None?
  {
    if |p| > 1 && Lookup(root, p[..|p| - 1]).Some? {
      LookupPriorFree(root, p[..|p| - 1]);
    }
  }

  /** So no reference stands inside the value it names. */
  lemma {:induction false} NeverLooksBack(root: Val, weight: nat -> nat, s: Val)
    requires root.Obj? && PriorFree(root) && s.Subst? && !s.knownAbsent && Acyclic(root, weight, s)
    ensures !LooksBack(root, s)
  {
    if Lookup(root, s.segs).Some? {
      LookupPriorFree(root, s.segs);
      LighterHasNot(weight, Lookup(root, s.segs).value, s.id);
    }
  }

  lemma {:induction false} NoOwnRefs(root: Val, weight: nat -> nat, v: Val, q: seq<string>)
    requires root.Obj? && PriorFree(root) && PriorFree(v) && Acyclic(root, weight, v)
    ensures OwnRefsOnly(root, v, q)
  {
    match v
    case Arr(es) => forall i | 0 <= i < |es| { NoOwnRefs(root, weight, es[i], q); }
    case Concat(ps) => forall i | 0 <= i < |ps| { NoOwnRefs(root, weight, ps[i], q); }
    case Obj(_, vals, _) => forall k | k in vals { NoOwnRefs(root, weight, vals[k], q); }
    case Subst(_, _, _, absent) => if !absent { NeverLooksBack(root, weight, v); }
    case _ =>
  }

  lemma {:induction false} AcyclicBelow(root: Val, weight: nat -> nat, o: Val, q: seq<string>)
    requires Acyclic(root, weight, o) && Lookup(o, q).Some?
    ensures Acyclic(root, weight, Lookup(o, q).value)
    decreases |q|
  {
    if |q| > 1 {
      AcyclicBelow(root, weight, o.vals[q[0]], q[1..]);
    }
  }

  lemma {:induction false} NothingBlocks(root: Val, s: Val, f: seq<string>, u: Val)
    requires root.Obj? && PriorFree(root) && s.Subst?
    ensures !Blocks(root, s, f, u)
  {
    PriorFreeHasNoPrior(root, f);
    if Layer(root, f, u) {
      OnlyLayer(root, f, u);
      ReorderedItself(u);
    }
  }

  lemma {:induction false} AcyclicIsGrounded(root: Val, weight: nat -> nat, v: Val)
    requires root.Obj? && PriorFree(root) && PriorFree(v) && Acyclic(root, weight, root) && Acyclic(root, weight, v)
    ensures AllGrounded(root, ById(weight), v)
  {
    match v
    case Arr(es) => forall i | 0 <= i < |es| { AcyclicIsGrounded(root, weight, es[i]); }
    case Concat(ps) => forall i | 0 <= i < |ps| { AcyclicIsGrounded(root, weight, ps[i]); }
    case Obj(_, vals, _) => forall k | k in vals { AcyclicIsGrounded(root, weight, vals[k]); }
    case Subst(_, segs, _, absent) =>
      if !absent {
        PriorFreeHasNoPrior(root, segs);
        if Lookup(root, segs).Some? {
          LookupPriorFree(root, segs);
          AcyclicBelow(root, weight, root, segs);
          NoOwnRefs(root, weight, Lookup(root, segs).value, segs);
        }
        forall f, u ensures !Blocks(root, v, f, u) {
          NothingBlocks(root, v, f, u);
        }
      }
    case _ =>
  }

  lemma {:induction false} PriorFreeIsOrderly(lt: LetterTest, tree: Val, weight: nat -> nat)
    requires tree.Obj? && PriorFree(tree) && Acyclic(tree, weight, tree)
    ensures Orderly(lt, tree, ById(weight))
  {
    AcyclicIsGrounded(tree, weight, tree);
    forall k | k in tree.vals ensures OwnRefsOnly(tree, tree.vals[k], [k]) {
      NoOwnRefs(tree, weight, tree.vals[k], [k]);
    }
  }

  /** On every tree without priors whose reference graph is acyclic, the resolver
      gives the result of looking every path up in the raw tree. */
  lemma {:induction false} PriorFreeIsPlainEvaluation(lt: LetterTest, tree: Val, weight: nat -> nat, fuel: nat)
    requires tree.Obj? && PriorFree(tree) && Acyclic(tree, weight, tree) && Below(ById(weight), tree, fuel)
    ensures ResolveTree(lt, tree, fuel) == PlainTree(lt, tree, fuel)
    ensures !ResolveTree(lt, tree, fuel).Diverge?
  {
    PriorFreeIsOrderly(lt, tree, weight);
    ResolvingIsPlainEvaluation(lt, tree, ById(weight), fuel);
  }

  // ---------- a walk over fields ----------

  /** A walk over fields succeeds when every field does, and gives each its value. */
  lemma {:induction false} PlainFieldsAre(lt: LetterTest, root: Val, fuel: nat, o: Val, keys: seq<string>, acc: Val)
    requires o.Obj? && acc.Obj? && Distinct(keys)
    ensures var r := PlainFields(lt, root, fuel, o, keys, acc);
            if forall i | 0 <= i < |keys| :: Settles(PlainField(lt, root, fuel, o, keys[i])) then
              && r.Ok? && r.v.Obj? && r.v.priors == acc.priors
              && forall k :: Get(r.v.vals, k) ==
                   if k in keys && PlainField(lt, root, fuel, o, k).Ok?
                   then Some(PlainField(lt, root, fuel, o, k).v) else Get(acc.vals, k)
            else !Settles(r)
  {
    if keys != [] {
      var k := keys[0];
      assert k !in keys[1..] && forall j :: j in keys <==> j == k || j in keys[1..];
      var f := PlainField(lt, root, fuel, o, k);
      assert forall i | 0 <= i < |keys[1..]| :: keys[1..][i] == keys[i + 1];
      if Settles(f) {
        PlainFieldsAre(lt, root, fuel, o, keys[1..], if f.Ok? then Set(acc, k, f.v) else acc);
        if forall i | 0 <= i < |keys[1..]| :: Settles(PlainField(lt, root, fuel, o, keys[1..][i])) {
          assert forall i | 0 <= i < |keys| :: i > 0 ==> keys[i] == keys[1..][i - 1];
        }
      }
    }
  }

  lemma {:induction false} NotAbsent(lt: LetterTest, root: Val, fuel: nat, o: Val, keys: seq<string>, acc: Val)
    requires o.Obj? && acc.Obj?
    ensures !PlainFields(lt, root, fuel, o, keys, acc).Absent?
    decreases |keys|
  {
    if keys != [] {
      var r := PlainField(lt, root, fuel, o, keys[0]);
      if Settles(r) {
        NotAbsent(lt, root, fuel, o, keys[1..], if r.Ok? then Set(acc, keys[0], r.v) else acc);
      }
    }
  }
}
