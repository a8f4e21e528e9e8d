/**
 What a path leads to (Lookup, navigateVal, navigateResolvedVal and findPrior in
 internal/resolver), told by the values that stand along it.
 */
module Reaching {
  import opened Paths
  import opened Values
  import opened Fold
  import opened Merge
  import opened Concats
  import opened Resolve
  import ResolveLaws

  /** The values along a path: each segment is a field of the value before. */
  ghost predicate Trail(path: seq<string>, vs: seq<Val>) {
    |vs| == |path| + 1 && forall i | 0 <= i < |path| :: FieldIs(vs[i], path[i], vs[i + 1])
  }

  predicate FieldIs(v: Val, k: string, w: Val) {
    v.Obj? && k in v.vals && v.vals[k] == w
  }

  predicate HasField(v: Val, k: string) {
    v.Obj? && k in v.vals
  }

  /** The path ends before its segment i: the value there has no such field. */
  ghost predicate DeadEnd(path: seq<string>, vs: seq<Val>, i: nat) {
    i < |path| && Trail(path[..i], vs) && !HasField(vs[i], path[i])
  }

  lemma {:induction false} TrailTail(path: seq<string>, vs: seq<Val>)
    requires path != [] && Trail(path, vs)
    ensures Trail(path[1..], vs[1..]) && FieldIs(vs[0], path[0], vs[1])
  {
    forall i | 0 <= i < |path| - 1 ensures FieldIs(vs[1..][i], path[1..][i], vs[1..][i + 1]) {
      assert FieldIs(vs[i + 1], path[i + 1], vs[i + 2]);
    }
  }

  lemma {:induction false} DeadEndTail(path: seq<string>, vs: seq<Val>, i: nat)
    requires DeadEnd(path, vs, i) && i > 0
    ensures DeadEnd(path[1..], vs[1..], i - 1) && FieldIs(vs[0], path[0], vs[1])
  {
    TrailTail(path[..i], vs);
    assert path[..i][1..] == path[1..][..i - 1];
  }

  lemma {:induction false} TrailFrom(v: Val, k: string, path: seq<string>, vs: seq<Val>)
    requires vs != [] && FieldIs(v, k, vs[0]) && Trail(path, vs)
    ensures Trail([k] + path, [v] + vs)
  {
    forall i | 0 <= i < |path| + 1 ensures FieldIs(([v] + vs)[i], ([k] + path)[i], ([v] + vs)[i + 1]) {
      if i > 0 { assert FieldIs(vs[i - 1], path[i - 1], vs[i]); }
    }
  }

  /** Every path leads to a value or to a dead end. */
  lemma {:induction false} Leads(v: Val, path: seq<string>) returns (vs: seq<Val>)
    ensures vs != [] && vs[0] == v && (Trail(path, vs) || DeadEnd(path, vs, |vs| - 1))
    decreases |path|
  {
    vs := [v];
    if path != [] && HasField(v, path[0]) {
      var more := Leads(v.vals[path[0]], path[1..]);
      vs := [v] + more;
      var n := |more| - 1;
      if Trail(path[1..], more) {
        TrailFrom(v, path[0], path[1..], more);
        assert [path[0]] + path[1..] == path;
      } else {
        TrailFrom(v, path[0], path[1..][..n], more);
        assert [path[0]] + path[1..][..n] == path[..n + 1];
      }
    } else if path != [] {
      assert DeadEnd(path, vs, 0);
    }
  }

  // ---------- the three walks ----------

  lemma {:induction false} LookupFinds(path: seq<string>, vs: seq<Val>)
    requires path != [] && Trail(path, vs)
    ensures Lookup(vs[0], path) == Some(vs[|path|])
    decreases |path|
  {
    TrailTail(path, vs);
    if |path| > 1 { LookupFinds(path[1..], vs[1..]); }
  }

  lemma {:induction false} LookupStops(path: seq<string>, vs: seq<Val>, i: nat)
    requires DeadEnd(path, vs, i)
    ensures Lookup(vs[0], path).None?
    decreases i
  {
    if i > 0 {
      DeadEndTail(path, vs, i);
      LookupStops(path[1..], vs[1..], i - 1);
    }
  }

  lemma {:induction false} NavigateFinds(path: seq<string>, vs: seq<Val>)
    requires Trail(path, vs)
    ensures Navigate(vs[0], path) == Found(vs[|path|]) && NavigateResolved(vs[0], path) == Some(vs[|path|])
    decreases |path|
  {
    if path != [] {
      TrailTail(path, vs);
      NavigateFinds(path[1..], vs[1..]);
    }
  }

  /** A placeholder blocks the walk of phase 1, anything else lacks the field. */
  lemma {:induction false} NavigateStops(path: seq<string>, vs: seq<Val>, i: nat)
    requires DeadEnd(path, vs, i)
    ensures Navigate(vs[0], path) == if vs[i].Subst? || vs[i].Concat? then Blocked else Missing
    ensures NavigateResolved(vs[0], path).None?
    decreases i
  {
    if i > 0 {
      DeadEndTail(path, vs, i);
      NavigateStops(path[1..], vs[1..], i - 1);
    }
  }

  /** The prior of a path is the one beside its last segment. */
  lemma {:induction false} PriorBeside(path: seq<string>, vs: seq<Val>, k: string)
    requires Trail(path, vs) && vs[|path|].Obj?
    ensures PriorAt(vs[0], path + [k]) == Get(vs[|path|].priors, k)
  {
    var segs := path + [k];
    assert segs[..|segs| - 1] == path;
    if path != [] { LookupFinds(path, vs); }
  }

  lemma {:induction false} TrailIsConcrete(path: seq<string>, vs: seq<Val>, i: nat)
    requires Trail(path, vs) && Concrete(vs[0]) && i <= |path|
    ensures Concrete(vs[i])
    decreases i
  {
    if i > 0 {
      TrailIsConcrete(path, vs, i - 1);
      assert FieldIs(vs[i - 1], path[i - 1], vs[i]);
    }
  }

  // ---------- references to data ----------

  /** A reference that is met for the first time, and not below its own field. */
  predicate LooksAhead(c: Ctx, s: Val) {
    && s.Subst? && !s.knownAbsent && !LooksBelow(c, s)
    && KeyOf(c.lt, s.segs) !in c.cache && KeyOf(c.lt, s.segs) !in c.resolving
  }

  /** A reference gives the data its path leads to; the path's prior counts only
      where an object is found. */
  lemma {:induction false} ReferenceFindsData(c: Ctx, fuel: nat, s: Val, vs: seq<Val>)
    requires LooksAhead(c, s) && fuel > 0 && s.segs != [] && Trail(s.segs, vs) && vs[0] == c.root
    requires Concrete(vs[|s.segs|])
    requires vs[|s.segs|].Obj? ==> FindPrior(c, s.segs, KeyOf(c.lt, s.segs)).None?
    ensures ResolveVal(c, fuel, s) == Ok(vs[|s.segs|])
  {
    var w := vs[|s.segs|];
    LookupFinds(s.segs, vs);
    ResolveLaws.ConcreteHasNoId(w, s.id);
    ResolveLaws.ConcreteResolvesToItself(c.(resolving := c.resolving + {KeyOf(c.lt, s.segs)}), fuel - 1, w);
  }

  /** A reference whose path ends too early is an error, or undefined when optional. */
  lemma {:induction false} ReferenceFindsNothing(c: Ctx, fuel: nat, s: Val, vs: seq<Val>, i: nat)
    requires LooksAhead(c, s) && fuel > 0 && DeadEnd(s.segs, vs, i) && vs[0] == c.root
    ensures ResolveVal(c, fuel, s) == if s.optional then Absent else Fail
  {
    LookupStops(s.segs, vs, i);
  }

  /** The context in which the value of a reference is resolved. */
  function Following(c: Ctx, s: Val): Ctx
    requires s.Subst?
  {
    c.(resolving := c.resolving + {KeyOf(c.lt, s.segs)})
  }

  /** Where what is found comes to nothing, the prior beside it counts, whatever other
      key is spelled like the path. */
  lemma {:induction false} UndefinedTakesItsPrior(c: Ctx, fuel: nat, s: Val, path: seq<string>, k: string, vs: seq<Val>)
    requires LooksAhead(c, s) && fuel > 0 && s.segs == path + [k] && Trail(s.segs, vs) && vs[0] == c.root
    requires !ContainsId(vs[|vs| - 1], s.id) && ResolveVal(Following(c, s), fuel - 1, vs[|vs| - 1]).Absent?
    ensures var parent := vs[|path|];
            && parent.Obj?
            && ResolveVal(c, fuel, s) ==
               if k in parent.priors then ResolveVal(Following(c, s), fuel - 1, parent.priors[k]) else Absent
  {
    LookupFinds(s.segs, vs);
    assert FieldIs(vs[|path|], s.segs[|path|], vs[|path| + 1]);
    TrailFront(path, k, vs);
    PriorBeside(path, vs[..|path| + 1], k);
  }

  lemma {:induction false} TrailFront(path: seq<string>, k: string, vs: seq<Val>)
    requires Trail(path + [k], vs)
    ensures Trail(path, vs[..|path| + 1])
  {
    forall i | 0 <= i < |path| ensures FieldIs(vs[..|path| + 1][i], path[i], vs[..|path| + 1][i + 1]) {
      assert FieldIs(vs[i], (path + [k])[i], vs[i + 1]);
    }
  }
}
