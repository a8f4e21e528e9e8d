/**
 When phase 2 ends.  It ends on every tree whose priors are free of
 substitutions, cyclic references included; a cycle of required references is an
 error there.
 */
module Termination {
  import opened Paths
  import opened Values
  import opened Concats
  import opened Resolve

  /** No live substitution anywhere, saved priors included. */
  predicate NoRefs(v: Val) {
    match v
    case Scalar(_, _, _) => true
    case Subst(_, _, _, absent) => absent
    case Arr(es) => forall i | 0 <= i < |es| :: NoRefs(es[i])
    case Concat(ps) => forall i | 0 <= i < |ps| :: NoRefs(ps[i])
    case Obj(_, vals, priors) =>
      (forall k | k in vals :: NoRefs(vals[k])) && (forall k | k in priors :: NoRefs(priors[k]))
  }

  /** Live substitutions stand only outside saved priors, and their keys are
      among the given ones. */
  predicate Settled(lt: LetterTest, v: Val, keys: set<string>) {
    match v
    case Scalar(_, _, _) => true
    case Subst(_, segs, _, absent) => absent || KeyOf(lt, segs) in keys
    case Arr(es) => forall i | 0 <= i < |es| :: Settled(lt, es[i], keys)
    case Concat(ps) => forall i | 0 <= i < |ps| :: Settled(lt, ps[i], keys)
    case Obj(_, vals, priors) =>
      (forall k | k in vals :: Settled(lt, vals[k], keys)) && (forall k | k in priors :: NoRefs(priors[k]))
  }

  ghost predicate SettledContext(c: Ctx, keys: set<string>) {
    c.root.Obj? && Settled(c.lt, c.root, keys) && forall k | k in c.top :: NoRefs(c.top[k])
  }

  lemma {:induction false} LookupSettled(lt: LetterTest, o: Val, segs: seq<string>, keys: set<string>)
    requires Settled(lt, o, keys) && Lookup(o, segs).Some?
    ensures Settled(lt, Lookup(o, segs).value, keys)
    decreases |segs|
  {
    if |segs| > 1 {
      LookupSettled(lt, o.vals[segs[0]], segs[1..], keys);
    }
  }

  lemma {:induction false} PriorSettled(c: Ctx, segs: seq<string>, key: string, keys: set<string>)
    requires SettledContext(c, keys)
    ensures FindPrior(c, segs, key).Some? ==> NoRefs(FindPrior(c, segs, key).value)
    ensures PriorAt(c.root, segs).Some? ==> NoRefs(PriorAt(c.root, segs).value)
  {
    if |segs| > 1 && Lookup(c.root, segs[..|segs| - 1]).Some? {
      LookupSettled(c.lt, c.root, segs[..|segs| - 1], keys);
    }
  }

  // ---------- values without references ----------

  lemma {:induction false} ValWithoutRefsEnds(c: Ctx, fuel: nat, v: Val)
    requires NoRefs(v)
    ensures !ResolveVal(c, fuel, v).Diverge?
    decreases v, 3
  {
    match v
    case Concat(ps) =>
      AllWithoutRefsEnds(c, fuel, ps);
      if ResolveAll(c, fuel, ps).Vals? { JoinEnds(ResolveAll(c, fuel, ps).vs); }
    case Arr(es) => AllWithoutRefsEnds(c, fuel, es);
    case Obj(keys, _, _) => FieldsWithoutRefsEnd(c, fuel, v, keys, EMPTY_OBJ);
    case _ =>
  }

  lemma {:induction false} AllWithoutRefsEnds(c: Ctx, fuel: nat, vs: seq<Val>)
    requires forall i | 0 <= i < |vs| :: NoRefs(vs[i])
    ensures !ResolveAll(c, fuel, vs).SeqDiverge?
    decreases vs, 0
  {
    if vs != [] {
      ValWithoutRefsEnds(c, fuel, vs[0]);
      AllWithoutRefsEnds(c, fuel, vs[1..]);
    }
  }

  lemma {:induction false} FieldsWithoutRefsEnd(c: Ctx, fuel: nat, o: Val, keys: seq<string>, acc: Val)
    requires o.Obj? && acc.Obj? && NoRefs(o)
    ensures !ResolveFields(c, fuel, o, keys, false, acc).ObjDiverge?
    decreases o, 0, |keys|
  {
    if keys != [] {
      var k, c' := keys[0], c.(field := c.field + [keys[0]]);
      if k in o.vals { ValWithoutRefsEnds(c', fuel, o.vals[k]); }
      if k in o.priors { ValWithoutRefsEnds(c', fuel, o.priors[k]); }
      var r := ResolveField(c, fuel, o, k);
      FieldsWithoutRefsEnd(c, fuel, o, keys[1..], if r.Ok? then Set(acc, k, r.v) else acc);
    }
  }

  // ---------- references, possibly cyclic ----------

  lemma {:induction false} ValEnds(c: Ctx, fuel: nat, v: Val, keys: set<string>)
    requires SettledContext(c, keys) && Settled(c.lt, v, keys) && |keys - c.resolving| < fuel
    ensures !ResolveVal(c, fuel, v).Diverge?
    decreases fuel, v, 3
  {
    match v
    case Subst(_, _, _, _) => SubstEnds(c, fuel, v, keys);
    case Concat(ps) =>
      AllEnd(c, fuel, ps, keys);
      if ResolveAll(c, fuel, ps).Vals? { JoinEnds(ResolveAll(c, fuel, ps).vs); }
    case Arr(es) => AllEnd(c, fuel, es, keys);
    case Obj(names, _, _) => FieldsEnd(c, fuel, v, names, false, EMPTY_OBJ, keys);
    case _ =>
  }

  lemma {:induction false} AllEnd(c: Ctx, fuel: nat, vs: seq<Val>, keys: set<string>)
    requires SettledContext(c, keys) && |keys - c.resolving| < fuel
    requires forall i | 0 <= i < |vs| :: Settled(c.lt, vs[i], keys)
    ensures !ResolveAll(c, fuel, vs).SeqDiverge?
    decreases fuel, vs, 0
  {
    if vs != [] {
      ValEnds(c, fuel, vs[0], keys);
      AllEnd(c, fuel, vs[1..], keys);
    }
  }

  lemma {:induction false} FieldsEnd(c: Ctx, fuel: nat, o: Val, names: seq<string>, atRoot: bool, acc: Val,
                                     keys: set<string>)
    requires SettledContext(c, keys) && |keys - c.resolving| < fuel && acc.Obj?
    requires o.Obj? && Settled(c.lt, o, keys)
    ensures !ResolveFields(c, fuel, o, names, atRoot, acc).ObjDiverge?
    decreases fuel, o, 0, |names|
  {
    if names != [] {
      var k, c' := names[0], c.(field := c.field + [names[0]]);
      if k in o.vals { ValEnds(c', fuel, o.vals[k], keys); }
      if k in o.priors { ValWithoutRefsEnds(c', fuel, o.priors[k]); }
      var r := ResolveField(c, fuel, o, k);
      if r.Ok? {
        var c'' := if atRoot then c.(cache := c.cache[KeyOf(c.lt, [k]) := r.v]) else c;
        FieldsEnd(c'', fuel, o, names[1..], atRoot, Set(acc, k, r.v), keys);
      } else if r.Absent? {
        FieldsEnd(c, fuel, o, names[1..], atRoot, acc, keys);
      }
    }
  }

  lemma {:induction false} OneLess(keys: set<string>, done: set<string>, key: string)
    requires key in keys && key !in done
    ensures |keys - (done + {key})| < |keys - done|
  {
    assert keys - (done + {key}) == (keys - done) - {key};
  }

  lemma {:induction false} SubstEnds(c: Ctx, fuel: nat, s: Val, keys: set<string>)
    requires s.Subst? && SettledContext(c, keys) && Settled(c.lt, s, keys) && |keys - c.resolving| < fuel
    ensures !ResolveSubst(c, fuel, s).Diverge?
    decreases fuel, s, 2
  {
    var key := KeyOf(c.lt, s.segs);
    if s.knownAbsent {
    } else if LooksBelow(c, s) {
      BelowEnds(c, fuel, s, keys);
    } else if key in c.cache {
    } else if key in c.resolving {
      BackEnds(c, fuel, s, keys);
    } else {
      AheadEnds(c, fuel, s, keys);
    }
  }

  lemma {:induction false} BelowEnds(c: Ctx, fuel: nat, s: Val, keys: set<string>)
    requires s.Subst? && SettledContext(c, keys) && LooksBelow(c, s) && fuel > 0
    ensures !ResolveBelow(c, fuel, s).Diverge?
  {
    var guard := KeyOf(c.lt, c.field);
    PriorSettled(c, c.field, guard, keys);
    var prior := FindPrior(c, c.field, guard);
    if prior.Some? {
      ValWithoutRefsEnds(c.(guards := c.guards + {guard}), fuel - 1, prior.value);
    }
  }

  lemma {:induction false} AheadEnds(c: Ctx, fuel: nat, s: Val, keys: set<string>)
    requires s.Subst? && !s.knownAbsent && SettledContext(c, keys) && Settled(c.lt, s, keys) &&
             |keys - c.resolving| < fuel
    requires !LooksBelow(c, s) && KeyOf(c.lt, s.segs) !in c.cache && KeyOf(c.lt, s.segs) !in c.resolving
    ensures !ResolveSubst(c, fuel, s).Diverge?
    decreases fuel, s, 1
  {
    var key := KeyOf(c.lt, s.segs);
    var found, c' := Lookup(c.root, s.segs), c.(resolving := c.resolving + {key});
    if found.Some? && ContainsId(found.value, s.id) {
      BackEnds(c', fuel, s, keys);
    } else if found.Some? {
      LookupSettled(c.lt, c.root, s.segs, keys);
      OneLess(keys, c.resolving, key);
      ValEnds(c', fuel - 1, found.value, keys);
      var r := ResolveVal(c', fuel - 1, found.value);
      PriorSettled(c, s.segs, key, keys);
      var prior := if r.Absent? then PriorAt(c.root, s.segs) else FindPrior(c, s.segs, key);
      if prior.Some? { ValWithoutRefsEnds(c', fuel - 1, prior.value); }
    }
  }

  lemma {:induction false} BackEnds(c: Ctx, fuel: nat, s: Val, keys: set<string>)
    requires s.Subst? && SettledContext(c, keys) && fuel > 0
    ensures !ResolveBack(c, fuel, s).Diverge?
  {
    var key := KeyOf(c.lt, s.segs);
    PriorSettled(c, s.segs, key, keys);
    var prior := FindPrior(c, s.segs, key);
    if prior.Some? { ValWithoutRefsEnds(c, fuel - 1, prior.value); }
  }

  /** No saved prior, at any depth, holds a live substitution. */
  predicate SettledPriors(v: Val) {
    match v
    case Scalar(_, _, _) => true
    case Subst(_, _, _, _) => true
    case Arr(es) => forall i | 0 <= i < |es| :: SettledPriors(es[i])
    case Concat(ps) => forall i | 0 <= i < |ps| :: SettledPriors(ps[i])
    case Obj(_, vals, priors) =>
      (forall k | k in vals :: SettledPriors(vals[k])) && (forall k | k in priors :: NoRefs(priors[k]))
  }

  /** The keys of the references of a value. */
  ghost function RefKeys(lt: LetterTest, v: Val): set<string> {
    set s | s in Refs(v) && s.Subst? :: KeyOf(lt, s.segs)
  }

  lemma {:induction false} SettledByPriors(lt: LetterTest, v: Val, tree: Val)
    requires SettledPriors(v) && Refs(v) <= Refs(tree)
    ensures Settled(lt, v, RefKeys(lt, tree))
  {
    match v
    case Arr(es) =>
      forall i | 0 <= i < |es| ensures Settled(lt, es[i], RefKeys(lt, tree)) {
        assert Refs(es[i]) <= Refs(v);
        SettledByPriors(lt, es[i], tree);
      }
    case Concat(ps) =>
      forall i | 0 <= i < |ps| ensures Settled(lt, ps[i], RefKeys(lt, tree)) {
        assert Refs(ps[i]) <= Refs(v);
        SettledByPriors(lt, ps[i], tree);
      }
    case Obj(_, vals, _) =>
      forall k | k in vals ensures Settled(lt, vals[k], RefKeys(lt, tree)) {
        assert Refs(vals[k]) <= Refs(v);
        SettledByPriors(lt, vals[k], tree);
      }
    case Subst(_, _, _, absent) => assert !absent ==> v in Refs(v);
    case _ =>
  }

  /** Phase 2 ends on every tree whose priors hold no live substitution, cycles
      included: a budget of one step more than the tree has reference keys is
      never used up. */
  lemma {:induction false} EndsOnSettledPriors(lt: LetterTest, tree: Val, fuel: nat)
    requires tree.Obj? && SettledPriors(tree) && fuel > |RefKeys(lt, tree)|
    ensures !ResolveTree(lt, tree, fuel).Diverge?
  {
    var keys := RefKeys(lt, tree);
    SettledByPriors(lt, tree, tree);
    assert keys - {} == keys;
    FieldsEnd(Start(lt, tree), fuel, tree, tree.keys, true, EMPTY_OBJ, keys);
  }

  // ---------- cycles of required references ----------

  /** No prior anywhere. */
  predicate PriorFree(v: Val) {
    match v
    case Scalar(_, _, _) => true
    case Subst(_, _, _, _) => true
    case Arr(es) => forall i | 0 <= i < |es| :: PriorFree(es[i])
    case Concat(ps) => forall i | 0 <= i < |ps| :: PriorFree(ps[i])
    case Obj(_, vals, priors) => KeysMatch(v) && priors == map[] && forall k | k in vals :: PriorFree(vals[k])
  }

  lemma {:induction false} PriorFreeIsSettled(v: Val)
    requires PriorFree(v)
    ensures SettledPriors(v)
  {
    match v
    case Arr(es) => forall i | 0 <= i < |es| { PriorFreeIsSettled(es[i]); }
    case Concat(ps) => forall i | 0 <= i < |ps| { PriorFreeIsSettled(ps[i]); }
    case Obj(_, vals, _) => forall k | k in vals { PriorFreeIsSettled(vals[k]); }
    case _ =>
  }

  lemma {:induction false} LookupPriorFree(o: Val, segs: seq<string>)
    requires PriorFree(o) && Lookup(o, segs).Some?
    ensures PriorFree(Lookup(o, segs).value)
    decreases |segs|
  {
    if |segs| > 1 {
      LookupPriorFree(o.vals[segs[0]], segs[1..]);
    }
  }

  /** A member of the cycle stands somewhere in the value. */
  predicate Touches(v: Val, cycle: set<Val>) {
    match v
    case Scalar(_, _, _) => false
    case Subst(_, _, _, _) => v in cycle
    case Arr(es) => exists i | 0 <= i < |es| :: Touches(es[i], cycle)
    case Concat(ps) => exists i | 0 <= i < |ps| :: Touches(ps[i], cycle)
    case Obj(_, vals, _) => exists k | k in vals :: Touches(vals[k], cycle)
  }

  /** s is required, and names a value that holds a member of the cycle. */
  ghost predicate OnCycle(root: Val, s: Val, cycle: set<Val>) {
    && s.Subst? && !s.knownAbsent && !s.optional
    && Lookup(root, s.segs).Some? && Touches(Lookup(root, s.segs).value, cycle)
  }

  ghost predicate RequiredCycle(root: Val, cycle: set<Val>) {
    forall s {:trigger OnCycle(root, s, cycle)} :: s in cycle ==> OnCycle(root, s, cycle)
  }

  ghost predicate NotCached(c: Ctx, s: Val) {
    s.Subst? ==> KeyOf(c.lt, s.segs) !in c.cache
  }

  /** The context of a walk over a prior-free tree that met no success on the cycle. */
  ghost predicate CycleContext(c: Ctx, cycle: set<Val>) {
    && c.root.Obj? && PriorFree(c.root) && c.top == map[] && RequiredCycle(c.root, cycle)
    && forall s {:trigger NotCached(c, s)} :: s in cycle ==> NotCached(c, s)
  }

  lemma {:induction false} NoPriors(c: Ctx, segs: seq<string>, key: string)
    requires c.root.Obj? && PriorFree(c.root) && c.top == map[]
    ensures FindPrior(c, segs, key) == None && PriorAt(c.root, segs) == None
  {
    if |segs| > 1 && Lookup(c.root, segs[..|segs| - 1]).Some? {
      LookupPriorFree(c.root, segs[..|segs| - 1]);
    }
  }

  predicate Fails(r: Res) {
    r.Fail? || r.Diverge?
  }

  lemma {:induction false} ValOnCycleFails(c: Ctx, fuel: nat, v: Val, cycle: set<Val>)
    requires CycleContext(c, cycle) && PriorFree(v) && Touches(v, cycle)
    ensures Fails(ResolveVal(c, fuel, v))
    decreases fuel, v, 3
  {
    match v
    case Subst(_, _, _, _) => SubstOnCycleFails(c, fuel, v, cycle);
    case Concat(ps) =>
      var i :| 0 <= i < |ps| && Touches(ps[i], cycle);
      AllOnCycleFail(c, fuel, ps, i, cycle);
    case Arr(es) =>
      var i :| 0 <= i < |es| && Touches(es[i], cycle);
      AllOnCycleFail(c, fuel, es, i, cycle);
    case Obj(keys, vals, _) =>
      var k :| k in vals && Touches(vals[k], cycle);
      FieldsOnCycleFail(c, fuel, v, keys, k, false, EMPTY_OBJ, cycle);
    case _ =>
  }

  lemma {:induction false} AllOnCycleFail(c: Ctx, fuel: nat, vs: seq<Val>, i: nat, cycle: set<Val>)
    requires CycleContext(c, cycle) && forall j | 0 <= j < |vs| :: PriorFree(vs[j])
    requires i < |vs| && Touches(vs[i], cycle)
    ensures !ResolveAll(c, fuel, vs).Vals?
    decreases fuel, vs, 0
  {
    if i == 0 {
      ValOnCycleFails(c, fuel, vs[0], cycle);
    } else {
      AllOnCycleFail(c, fuel, vs[1..], i - 1, cycle);
    }
  }

  /** Caching a root field that does not touch the cycle. */
  lemma {:induction false} CacheOffCycle(c: Ctx, j: string, v: Val, cycle: set<Val>)
    requires CycleContext(c, cycle) && !(j in c.root.vals && Touches(c.root.vals[j], cycle))
    ensures CycleContext(c.(cache := c.cache[KeyOf(c.lt, [j]) := v]), cycle)
  {
    var c' := c.(cache := c.cache[KeyOf(c.lt, [j]) := v]);
    forall s | s in cycle ensures NotCached(c', s) {
      assert NotCached(c, s) && OnCycle(c.root, s, cycle);
      KeysNeverCollide(c.lt, s.segs, [j]);
    }
  }

  /** The field k holds a member of the cycle; the root's fields before it are
      cached, and none of their keys is one that the cycle refers to. */
  lemma {:induction false} FieldsOnCycleFail(c: Ctx, fuel: nat, o: Val, keys: seq<string>, k: string, atRoot: bool,
                                             acc: Val, cycle: set<Val>)
    requires CycleContext(c, cycle) && acc.Obj? && (atRoot ==> o == c.root)
    requires o.Obj? && PriorFree(o) && k in keys && k in o.vals && Touches(o.vals[k], cycle)
    ensures !ResolveFields(c, fuel, o, keys, atRoot, acc).Built?
    decreases fuel, o, 0, |keys|
  {
    var j, c' := keys[0], c.(field := c.field + [keys[0]]);
    var r := ResolveField(c, fuel, o, j);
    if j in o.vals && Touches(o.vals[j], cycle) {
      FieldContext(c, j, cycle);
      ValOnCycleFails(c', fuel, o.vals[j], cycle);
    } else if r.Ok? {
      assert k in keys[1..];
      if atRoot {
        CacheOffCycle(c, j, r.v, cycle);
      }
      var c'' := if atRoot then c.(cache := c.cache[KeyOf(c.lt, [j]) := r.v]) else c;
      FieldsOnCycleFail(c'', fuel, o, keys[1..], k, atRoot, Set(acc, j, r.v), cycle);
    } else if r.Absent? {
      assert k in keys[1..];
      FieldsOnCycleFail(c, fuel, o, keys[1..], k, atRoot, acc, cycle);
    }
  }

  lemma {:induction false} FieldContext(c: Ctx, j: string, cycle: set<Val>)
    requires CycleContext(c, cycle)
    ensures CycleContext(c.(field := c.field + [j]), cycle)
  {
    var c' := c.(field := c.field + [j]);
    forall s | s in cycle ensures NotCached(c', s) {
      assert NotCached(c, s);
    }
  }

  lemma {:induction false} SubstOnCycleFails(c: Ctx, fuel: nat, s: Val, cycle: set<Val>)
    requires s.Subst? && CycleContext(c, cycle) && s in cycle
    ensures Fails(ResolveSubst(c, fuel, s))
    decreases fuel, s, 2
  {
    var key := KeyOf(c.lt, s.segs);
    assert OnCycle(c.root, s, cycle) && NotCached(c, s);
    NoPriors(c, s.segs, key);
    NoPriors(c, c.field, KeyOf(c.lt, c.field));
    if fuel > 0 && !LooksBelow(c, s) && key !in c.resolving {
      var found := Lookup(c.root, s.segs).value;
      var c' := c.(resolving := c.resolving + {key});
      forall t | t in cycle ensures NotCached(c', t) {
        assert NotCached(c, t);
      }
      NoPriors(c', s.segs, key);
      LookupPriorFree(c.root, s.segs);
      ValOnCycleFails(c', fuel - 1, found, cycle);
    }
  }

  /** On a tree without priors a cycle of required references, in whatever order
      its members stand, always ends in an error. */
  lemma {:induction false} RequiredCycleIsAnError(lt: LetterTest, tree: Val, cycle: set<Val>, fuel: nat)
    requires tree.Obj? && PriorFree(tree)
    requires RequiredCycle(tree, cycle) && Touches(tree, cycle) && fuel > |RefKeys(lt, tree)|
    ensures ResolveTree(lt, tree, fuel) == Fail
  {
    var k :| k in tree.vals && Touches(tree.vals[k], cycle);
    FieldsOnCycleFail(Start(lt, tree), fuel, tree, tree.keys, k, true, EMPTY_OBJ, cycle);
    PriorFreeIsSettled(tree);
    EndsOnSettledPriors(lt, tree, fuel);
  }
}
