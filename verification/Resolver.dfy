/**
 Phase 2, the resolver of the source: a record whose fields are updated during
 the walk.  Every method computes what the specification says and leaves the
 fields as they were, also when it fails; only the root's walk adds to the cache.
 */
module Resolver {
  import opened Paths
  import opened Values
  import opened Concats
  import Resolve

  class Resolver {
    const lt: LetterTest
    const root: Val
    var priorValues: map<string, Val>
    var resolving: set<string>
    var resolvedCache: map<string, Val>
    var resolvingFieldPath: seq<string>
    var resolvingPrefixPriors: set<string>

    ghost function State(): Resolve.Ctx
      reads this
    {
      Resolve.Ctx(lt, root, priorValues, resolving, resolvedCache, resolvingFieldPath, resolvingPrefixPriors)
    }

    constructor (lt: LetterTest, tree: Val)
      requires tree.Obj?
      ensures State() == Resolve.Start(lt, tree)
      ensures this.lt == lt && this.root == tree
    {
      this.lt := lt;
      this.root := tree;
      this.priorValues := tree.priors;
      this.resolving := {};
      this.resolvedCache := map[];
      this.resolvingFieldPath := [];
      this.resolvingPrefixPriors := {};
    }

    method ResolveVal(v: Val, fuel: nat) returns (r: Res)
      modifies this
      ensures r == Resolve.ResolveVal(old(State()), fuel, v)
      ensures State() == old(State())
      decreases fuel, v, 3
    {
      match v
      case Scalar(_, _, _) => return Ok(v);
      case Subst(_, _, _, _) => r := ResolveSubst(v, fuel);
      case Concat(ps) =>
        var vs := ResolveAll(ps, fuel);
        match vs {
          case Vals(pieces) => r := JoinConcatLoop(pieces);
          case SeqFail => r := Fail;
          case SeqDiverge => r := Diverge;
        }
      case Arr(es) =>
        var vs := ResolveAll(es, fuel);
        match vs {
          case Vals(elems) => r := Ok(Arr(Resolve.Defined(elems)));
          case SeqFail => r := Fail;
          case SeqDiverge => r := Diverge;
        }
      case Obj(_, _, _) =>
        var o := ResolveSubstitutions(v, false, fuel);
        match o {
          case Built(obj, _) => r := Ok(obj);
          case ObjFail => r := Fail;
          case ObjDiverge => r := Diverge;
        }
    }

    /** The loops over concat pieces and array elements. */
    method ResolveAll(vs: seq<Val>, fuel: nat) returns (r: Resolve.SeqRes)
      modifies this
      ensures r == Resolve.ResolveAll(old(State()), fuel, vs)
      ensures State() == old(State())
      decreases fuel, vs, 0
    {
      var resolved: seq<Option<Val>> := [];
      ghost var c := State();
      assert vs[0..] == vs;
      for i := 0 to |vs|
        invariant State() == c
        invariant Onto(resolved, Resolve.ResolveAll(c, fuel, vs[i..])) == Resolve.ResolveAll(c, fuel, vs)
      {
        var v := ResolveVal(vs[i], fuel);
        OntoStep(c, fuel, vs, i, resolved);
        if v.Fail? {
          return Resolve.SeqFail;
        }
        if v.Diverge? {
          return Resolve.SeqDiverge;
        }
        resolved := resolved + [Resolve.OptionOf(v)];
      }
      assert resolved + [] == resolved;
      return Resolve.Vals(resolved);
    }

    /** resolveSubstitutions; "atRoot" says that obj is the root itself. */
    method ResolveSubstitutions(obj: Val, atRoot: bool, fuel: nat) returns (r: Resolve.ObjRes)
      requires obj.Obj?
      modifies this
      ensures r == Resolve.ResolveFields(old(State()), fuel, obj, obj.keys, atRoot, EMPTY_OBJ)
      ensures State().(cache := old(resolvedCache)) == old(State())
      ensures !atRoot ==> resolvedCache == old(resolvedCache)
      ensures r.Built? ==> resolvedCache == r.cache
      decreases fuel, obj, 1
    {
      var result := EMPTY_OBJ;
      ghost var c := State();
      assert obj.keys[0..] == obj.keys;
      for i := 0 to |obj.keys|
        invariant result.Obj?
        invariant State().(cache := c.cache) == c
        invariant !atRoot ==> resolvedCache == c.cache
        invariant Resolve.ResolveFields(State(), fuel, obj, obj.keys[i..], atRoot, result) ==
                  Resolve.ResolveFields(c, fuel, obj, obj.keys, atRoot, EMPTY_OBJ)
      {
        var k := obj.keys[i];
        assert obj.keys[i..][1..] == obj.keys[i + 1..];
        var before := resolvingFieldPath;
        resolvingFieldPath := resolvingFieldPath + [k];
        var v := FinishedField(obj, k, fuel);
        resolvingFieldPath := before;
        match v {
          case Fail => return Resolve.ObjFail;
          case Diverge => return Resolve.ObjDiverge;
          case Absent =>
          case Ok(value) =>
            result := Set(result, k, value);
            if atRoot {
              resolvedCache := resolvedCache[KeyOf(lt, [k]) := value];
            }
        }
      }
      return Resolve.Built(result, resolvedCache);
    }

    /** The value of one field, with finishField's use of its prior. */
    method FinishedField(obj: Val, k: string, fuel: nat) returns (r: Res)
      requires obj.Obj? && resolvingFieldPath != []
      requires resolvingFieldPath[|resolvingFieldPath| - 1] == k
      modifies this
      ensures r == Resolve.ResolveField(
                     old(State()).(field := old(resolvingFieldPath)[..|old(resolvingFieldPath)| - 1]), fuel, obj, k)
      ensures State() == old(State())
      decreases fuel, obj, 0
    {
      ghost var path := resolvingFieldPath;
      assert path[..|path| - 1] + [k] == path;
      r := Absent;
      if k in obj.vals {
        r := ResolveVal(obj.vals[k], fuel);
      }
      if Resolve.WantsPrior(r) && k in obj.priors {
        var prior := ResolveVal(obj.priors[k], fuel);
        r := Resolve.Settle(lt, r, prior);
      }
    }

    method ResolveSubst(s: Val, fuel: nat) returns (r: Res)
      requires s.Subst?
      modifies this
      ensures r == Resolve.ResolveSubst(old(State()), fuel, s)
      ensures State() == old(State())
      decreases fuel, s, 2
    {
      if s.knownAbsent {
        return Resolve.Undefined(s);
      }
      if fuel == 0 {
        return Diverge;
      }
      var key := KeyOf(lt, s.segs);
      if 0 < |resolvingFieldPath| < |s.segs| &&
         KeyOf(lt, s.segs[..|resolvingFieldPath|]) == KeyOf(lt, resolvingFieldPath) {
        r := ResolveBelow(s, fuel);
        return;
      }
      if key !in resolving && key in resolvedCache {
        return Ok(resolvedCache[key]);
      }
      if key in resolving {
        if key in resolvedCache {
          return Ok(resolvedCache[key]);
        }
        r := ResolveBack(s, fuel);
        return;
      }
      resolving := resolving + {key};
      var found := Lookup(root, s.segs);
      if found.None? {
        r := Resolve.Undefined(s);
      } else if ContainsId(found.value, s.id) {
        r := ResolveBack(s, fuel);
      } else {
        r := ResolveVal(found.value, fuel - 1);
        var prior := None;
        if r.Absent? {
          prior := PriorAt(root, s.segs);
        } else if Resolve.WantsPrior(r) {
          prior := FindPrior(s.segs, key);
        }
        if prior.Some? {
          var p := ResolveVal(prior.value, fuel - 1);
          r := Resolve.Settle(lt, r, p);
        }
      }
      resolving := resolving - {key};
    }

    method FindPrior(segs: seq<string>, key: string) returns (r: Option<Val>)
      ensures r == Resolve.FindPrior(State(), segs, key)
    {
      if key in priorValues {
        return Some(priorValues[key]);
      }
      return PriorAt(root, segs);
    }

    method ResolveBack(s: Val, fuel: nat) returns (r: Res)
      requires s.Subst? && fuel > 0
      modifies this
      ensures r == Resolve.ResolveBack(old(State()), fuel, s)
      ensures State() == old(State())
      decreases fuel, s, 1
    {
      var prior := FindPrior(s.segs, KeyOf(lt, s.segs));
      if prior.Some? {
        r := ResolveVal(prior.value, fuel - 1);
      } else {
        r := Resolve.Undefined(s);
      }
    }

    method ResolveBelow(s: Val, fuel: nat) returns (r: Res)
      requires s.Subst? && fuel > 0 && |resolvingFieldPath| < |s.segs|
      modifies this
      ensures r == Resolve.ResolveBelow(old(State()), fuel, s)
      ensures State() == old(State())
      decreases fuel, s, 1
    {
      var guardKey := KeyOf(lt, resolvingFieldPath);
      if guardKey !in resolvingPrefixPriors {
        var prior := FindPrior(resolvingFieldPath, guardKey);
        if prior.Some? {
          resolvingPrefixPriors := resolvingPrefixPriors + {guardKey};
          var p := ResolveVal(prior.value, fuel - 1);
          resolvingPrefixPriors := resolvingPrefixPriors - {guardKey};
          if p.Fail? || p.Diverge? {
            return p;
          }
          if p.Ok? {
            var nav := Resolve.NavigateResolved(p.v, s.segs[|resolvingFieldPath|..]);
            if nav.Some? {
              return Ok(nav.value);
            }
          }
        }
      }
      return Resolve.Undefined(s);
    }
  }

  /** The rest of a run, with what was resolved so far in front. */
  ghost function Onto(done: seq<Option<Val>>, r: Resolve.SeqRes): Resolve.SeqRes {
    if r.Vals? then Resolve.Vals(done + r.vs) else r
  }

  lemma {:induction false} OntoStep(c: Resolve.Ctx, fuel: nat, vs: seq<Val>, i: nat, done: seq<Option<Val>>)
    requires i < |vs|
    ensures var first := Resolve.ResolveVal(c, fuel, vs[i]);
            Onto(done, Resolve.ResolveAll(c, fuel, vs[i..])) ==
            if first.Fail? then Resolve.SeqFail else if first.Diverge? then Resolve.SeqDiverge
            else Onto(done + [Resolve.OptionOf(first)], Resolve.ResolveAll(c, fuel, vs[i + 1..]))
  {
    assert vs[i..][1..] == vs[i + 1..];
    var rest := Resolve.ResolveAll(c, fuel, vs[i + 1..]);
    if rest.Vals? {
      MoveOne(done, Resolve.OptionOf(Resolve.ResolveVal(c, fuel, vs[i])), rest.vs);
    }
  }

  /** ResolveTree: a fresh resolver walks the tree from its root. */
  method ResolveTree(lt: LetterTest, tree: Val, fuel: nat) returns (r: Res)
    requires tree.Obj?
    ensures r == Resolve.ResolveTree(lt, tree, fuel)
  {
    var resolver := new Resolver(lt, tree);
    var o := resolver.ResolveSubstitutions(tree, true, fuel);
    match o {
      case Built(obj, _) => r := Ok(obj);
      case ObjFail => r := Fail;
      case ObjDiverge => r := Diverge;
    }
  }
}
