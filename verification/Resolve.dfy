/**
 Phase 2, the specification: what resolving a tree computes
 (internal/resolver/resolver.go, resolveSubstitutions to resolveConcat), in strict
 mode and without the environment.

 The resolver's fields are the context of a call.  A run may follow substitutions
 forever; the functions carry a budget of substitution steps and answer Diverge
 when it runs out.
 */
module Resolve {
  import opened Paths
  import opened Values
  import opened Merge
  import opened Concats

  /** The resolver's fields, and the document root. */
  datatype Ctx = Ctx(
    lt: LetterTest,
    root: Val,
    top: map<string, Val>,        // priorValues
    resolving: set<string>,       // keys of the substitutions being resolved
    cache: map<string, Val>,      // resolvedCache
    field: seq<string>,           // resolvingFieldPath
    guards: set<string>)          // resolvingPrefixPriors

  datatype SeqRes = Vals(vs: seq<Option<Val>>) | SeqFail | SeqDiverge

  datatype ObjRes = Built(o: Val, cache: map<string, Val>) | ObjFail | ObjDiverge

  function FindPrior(c: Ctx, segs: seq<string>, key: string): Option<Val> {
    if key in c.top then Some(c.top[key]) else PriorAt(c.root, segs)
  }

  /** navigateResolvedVal */
  function NavigateResolved(v: Val, rem: seq<string>): Option<Val>
    decreases |rem|
  {
    if rem == [] then Some(v)
    else if v.Obj? && rem[0] in v.vals then NavigateResolved(v.vals[rem[0]], rem[1..])
    else None
  }

  predicate Settles(r: Res) {
    r.Ok? || r.Absent?
  }

  /** A field whose value came out undefined, or as an object, looks at its prior. */
  predicate WantsPrior(r: Res) {
    r.Absent? || (r.Ok? && r.v.Obj?)
  }

  /** The delayed merge: an undefined value gives way to its prior, two objects
      are merged. */
  function Settle(lt: LetterTest, r: Res, prior: Res): Res
    requires WantsPrior(r)
  {
    if r.Absent? || prior.Fail? || prior.Diverge? then prior
    else if prior.Ok? && prior.v.Obj? then Ok(DeepMerge(lt, r.v, prior.v))
    else r
  }

  /** An undefined reference: an error unless it is optional. */
  function Undefined(s: Val): Res
    requires s.Subst?
  {
    if s.optional then Absent else Fail
  }

  function OptionOf(r: Res): Option<Val> {
    if r.Ok? then Some(r.v) else None
  }

  function Defined(vs: seq<Option<Val>>): seq<Val> {
    if vs == [] then [] else (if vs[0].Some? then [vs[0].value] else []) + Defined(vs[1..])
  }

  function ResolveVal(c: Ctx, fuel: nat, v: Val): Res
    decreases fuel, v, 3
  {
    match v
    case Scalar(_, _, _) => Ok(v)
    case Subst(_, _, _, _) => ResolveSubst(c, fuel, v)
    case Concat(ps) =>
      (match ResolveAll(c, fuel, ps)
       case Vals(vs) => JoinConcat(vs)
       case SeqFail => Fail
       case SeqDiverge => Diverge)
    case Arr(es) =>
      (match ResolveAll(c, fuel, es)
       case Vals(vs) => Ok(Arr(Defined(vs)))
       case SeqFail => Fail
       case SeqDiverge => Diverge)
    case Obj(keys, _, _) =>
      (match ResolveFields(c, fuel, v, keys, false, EMPTY_OBJ)
       case Built(o, _) => Ok(o)
       case ObjFail => Fail
       case ObjDiverge => Diverge)
  }

  function ResolveAll(c: Ctx, fuel: nat, vs: seq<Val>): (r: SeqRes)
    ensures r.Vals? ==> |r.vs| == |vs|
    decreases fuel, vs, 0
  {
    if vs == [] then Vals([])
    else
      var first := ResolveVal(c, fuel, vs[0]);
      if first.Fail? then SeqFail
      else if first.Diverge? then SeqDiverge
      else
        var rest := ResolveAll(c, fuel, vs[1..]);
        if rest.Vals? then Vals([OptionOf(first)] + rest.vs) else rest
  }

  /** One field with the tail of finishField, inside the span of its field path. */
  function ResolveField(c: Ctx, fuel: nat, o: Val, k: string): Res
    requires o.Obj?
    decreases fuel, o, 0
  {
    var c' := c.(field := c.field + [k]);
    var r := if k in o.vals then ResolveVal(c', fuel, o.vals[k]) else Absent;
    if WantsPrior(r) && k in o.priors then Settle(c.lt, r, ResolveVal(c', fuel, o.priors[k])) else r
  }

  /** resolveSubstitutions: only the root's fields are cached. */
  function ResolveFields(c: Ctx, fuel: nat, o: Val, keys: seq<string>, atRoot: bool, acc: Val): (r: ObjRes)
    requires o.Obj? && acc.Obj?
    ensures r.Built? ==> r.o.Obj?
    decreases fuel, o, 1, |keys|
  {
    if keys == [] then Built(acc, c.cache)
    else
      var k := keys[0];
      match ResolveField(c, fuel, o, k)
      case Fail => ObjFail
      case Diverge => ObjDiverge
      case Absent => ResolveFields(c, fuel, o, keys[1..], atRoot, acc)
      case Ok(v) =>
        var c' := if atRoot then c.(cache := c.cache[KeyOf(c.lt, [k]) := v]) else c;
        ResolveFields(c', fuel, o, keys[1..], atRoot, Set(acc, k, v))
  }

  /** The target lies below the field being resolved. */
  predicate LooksBelow(c: Ctx, s: Val)
    requires s.Subst?
  {
    0 < |c.field| < |s.segs| && KeyOf(c.lt, s.segs[..|c.field|]) == KeyOf(c.lt, c.field)
  }

  function ResolveSubst(c: Ctx, fuel: nat, s: Val): Res
    requires s.Subst?
    decreases fuel, s, 2
  {
    var key := KeyOf(c.lt, s.segs);
    if s.knownAbsent then Undefined(s)
    else if fuel == 0 then Diverge
    else if LooksBelow(c, s) then ResolveBelow(c, fuel, s)
    else if key in c.cache then Ok(c.cache[key])
    else if key in c.resolving then ResolveBack(c, fuel, s)
    else
      var c' := c.(resolving := c.resolving + {key});
      var found := Lookup(c.root, s.segs);
      if found.None? then Undefined(s)
      else if ContainsId(found.value, s.id) then ResolveBack(c', fuel, s)
      else
        var r := ResolveVal(c', fuel - 1, found.value);
        var prior := if r.Absent? then PriorAt(c.root, s.segs) else FindPrior(c, s.segs, key);
        if WantsPrior(r) && prior.Some? then Settle(c.lt, r, ResolveVal(c', fuel - 1, prior.value)) else r
  }

  /** s stands inside the value it names. */
  predicate LooksBack(root: Val, s: Val)
    requires s.Subst?
  {
    Lookup(root, s.segs).Some? && ContainsId(Lookup(root, s.segs).value, s.id)
  }

  /** A self-reference: the prior, if there is one. */
  function ResolveBack(c: Ctx, fuel: nat, s: Val): Res
    requires s.Subst? && fuel > 0
    decreases fuel, s, 1
  {
    var prior := FindPrior(c, s.segs, KeyOf(c.lt, s.segs));
    if prior.None? then Undefined(s) else ResolveVal(c, fuel - 1, prior.value)
  }

  /** A reference below the field being resolved: into the field's prior. */
  function ResolveBelow(c: Ctx, fuel: nat, s: Val): Res
    requires s.Subst? && fuel > 0 && |c.field| < |s.segs|
    decreases fuel, s, 1
  {
    var guard := KeyOf(c.lt, c.field);
    var prior := FindPrior(c, c.field, guard);
    if guard in c.guards || prior.None? then Undefined(s)
    else
      var r := ResolveVal(c.(guards := c.guards + {guard}), fuel - 1, prior.value);
      if r.Fail? || r.Diverge? then r
      else
        var nav := if r.Ok? then NavigateResolved(r.v, s.segs[|c.field|..]) else None;
        if nav.Some? then Ok(nav.value) else Undefined(s)
  }

  /** The context that ResolveTree starts with.  The root's priors are seeded
      under their raw keys. */
  function Start(lt: LetterTest, tree: Val): Ctx
    requires tree.Obj?
  {
    Ctx(lt, tree, tree.priors, {}, map[], [], {})
  }

  function ResolveRoot(lt: LetterTest, tree: Val, fuel: nat): ObjRes
    requires tree.Obj?
  {
    ResolveFields(Start(lt, tree), fuel, tree, tree.keys, true, EMPTY_OBJ)
  }

  function ResolveTree(lt: LetterTest, tree: Val, fuel: nat): Res
    requires tree.Obj?
  {
    match ResolveRoot(lt, tree, fuel)
    case Built(o, _) => Ok(o)
    case ObjFail => Fail
    case ObjDiverge => Diverge
  }
}
