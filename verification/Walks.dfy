/**
 Phase 2 on a root of chains: every value refers to its own key and to keys with
 plain data, and no prior refers to its key.  However the root came about, what it
 is resolved to is given field by field.
 */
module Walks {
  import opened Paths
  import opened Values
  import opened Merge
  import opened Concats
  import opened Resolve
  import opened ResolveLaws
  import opened Layers

  /** p stands for the layers that lie below the last assignment. */
  ghost predicate StandsFor(lt: LetterTest, env: Env, p: Option<Val>, below: Option<Res>, k: string) {
    && (p.Some? <==> below.Some?)
    && (p.Some? ==> Piece(env, p.value, k) && Dead(p.value, k) && LayerValue(lt, env, p.value, None) == below.value)
  }

  // ---------- phase 2 inside a field ----------

  ghost predicate EnvKey(c: Ctx, env: Env, j: string)
    requires c.root.Obj? && j in env
  {
    var key := KeyOf(c.lt, [j]);
    && Get(c.root.vals, j) == env[j] && j !in c.root.priors && (env[j].Some? ==> FindPrior(c, [j], key) == None)
    && (key in c.cache ==> env[j] == Some(c.cache[key])) && key !in c.resolving
  }

  ghost predicate InEnv(c: Ctx, env: Env, k: string) {
    && c.root.Obj? && DataEnv(env) && k !in env && c.field != []
    && forall j | j in env :: EnvKey(c, env, j)
  }

  /** A reference to another key gives its data, or nothing. */
  lemma {:induction false} RefForeign(c: Ctx, fuel: nat, env: Env, k: string, s: Val, below: Option<Res>)
    requires InEnv(c, env, k) && s.Subst? && !s.knownAbsent && Foreign(env, s.segs) && fuel > 0
    ensures ResolveVal(c, fuel, s) == RefValue(env, s, below)
  {
    var j := s.segs[0];
    var key := KeyOf(c.lt, [j]);
    assert s.segs == [j] && EnvKey(c, env, j);
    assert Lookup(c.root, [j]) == env[j];
    if key in c.cache {
      assert ResolveSubst(c, fuel, s) == Ok(c.cache[key]);
    } else if env[j].Some? {
      ConcreteHasNoId(env[j].value, s.id);
      ConcreteResolvesToItself(c.(resolving := c.resolving + {key}), fuel - 1, env[j].value);
      assert ResolveSubst(c, fuel, s) == Ok(env[j].value);
    } else {
      assert ResolveSubst(c, fuel, s) == Undefined(s);
    }
  }

  /** Without live references to the key the context plays no part. */
  lemma {:induction false} DeadResolves(c: Ctx, fuel: nat, env: Env, v: Val, k: string)
    requires InEnv(c, env, k) && Piece(env, v, k) && Dead(v, k) && fuel > 0
    ensures ResolveVal(c, fuel, v) == LayerValue(c.lt, env, v, None)
    decreases v, 2
  {
    match v
    case Scalar(_, _, _) =>
    case Obj(keys, _, _) => DeadFieldsResolve(c, fuel, env, v, keys, EMPTY_OBJ, k);
    case Subst(_, _, _, absent) => if !absent { RefForeign(c, fuel, env, k, v, None); }
    case Concat(ps) => DeadResolveAll(c, fuel, env, ps, k);
    case Arr(es) => DeadResolveAll(c, fuel, env, es, k);
  }

  lemma {:induction false} InEnvBelow(c: Ctx, env: Env, k: string, j: string)
    requires InEnv(c, env, k)
    ensures InEnv(c.(field := c.field + [j]), env, k)
  {
    var c' := c.(field := c.field + [j]);
    forall i | i in env ensures EnvKey(c', env, i) {
      assert EnvKey(c, env, i);
    }
  }

  lemma {:induction false} DeadFieldResolves(c: Ctx, fuel: nat, env: Env, o: Val, j: string, k: string)
    requires o.Obj? && InEnv(c, env, k) && Piece(env, o, k) && Dead(o, k) && fuel > 0
    ensures ResolveField(c, fuel, o, j) == LayerField(c.lt, env, o, j, None)
    decreases o, 0, 0
  {
    var c' := c.(field := c.field + [j]);
    InEnvBelow(c, env, k, j);
    if j in o.vals {
      DeadResolves(c', fuel, env, o.vals[j], k);
      FirmValue(c.lt, env, o.vals[j], None);
    }
    if j in o.priors && !Firm(o.vals[j]) { DeadResolves(c', fuel, env, o.priors[j], k); }
  }

  lemma {:induction false} DeadFieldsResolve(c: Ctx, fuel: nat, env: Env, o: Val, keys: seq<string>, acc: Val,
                                             k: string)
    requires o.Obj? && acc.Obj? && InEnv(c, env, k) && Piece(env, o, k) && Dead(o, k) && fuel > 0
    ensures FieldsMatch(ResolveFields(c, fuel, o, keys, false, acc), LayerFields(c.lt, env, o, keys, None, acc))
    decreases o, 1, |keys|
  {
    if keys != [] {
      DeadFieldResolves(c, fuel, env, o, keys[0], k);
      var r := ResolveField(c, fuel, o, keys[0]);
      if Settles(r) {
        DeadFieldsResolve(c, fuel, env, o, keys[1..], if r.Ok? then Set(acc, keys[0], r.v) else acc, k);
      }
    }
  }

  predicate FieldsMatch(a: ObjRes, b: Res) {
    match a
    case Built(o, _) => b == Ok(o)
    case ObjFail => b == Fail
    case ObjDiverge => b == Diverge
  }

  lemma {:induction false} DeadResolveAll(c: Ctx, fuel: nat, env: Env, vs: seq<Val>, k: string)
    requires InEnv(c, env, k) && fuel > 0 && forall i | 0 <= i < |vs| :: Piece(env, vs[i], k) && Dead(vs[i], k)
    ensures ResolveAll(c, fuel, vs) == LayerValues(c.lt, env, vs, None)
    decreases vs, 0
  {
    if vs != [] {
      DeadResolves(c, fuel, env, vs[0], k);
      DeadResolveAll(c, fuel, env, vs[1..], k);
    }
  }

  /** The walk stands in the field k, and what it finds there is one of a chain. */
  ghost predicate InChain(c: Ctx, env: Env, k: string, below: Option<Res>) {
    var key := KeyOf(c.lt, [k]);
    && InEnv(c, env, k) && k in c.root.vals && key !in c.cache && key !in c.resolving
    && StandsFor(c.lt, env, FindPrior(c, [k], key), below, k)
  }

  ghost predicate PartOf(v: Val, whole: Val) {
    forall id :: ContainsId(v, id) ==> ContainsId(whole, id)
  }

  lemma {:induction false} InEnvStill(c: Ctx, env: Env, k: string)
    requires InEnv(c, env, k)
    ensures InEnv(c.(resolving := c.resolving + {KeyOf(c.lt, [k])}), env, k)
  {
    var c' := c.(resolving := c.resolving + {KeyOf(c.lt, [k])});
    forall j | j in env ensures EnvKey(c', env, j) {
      assert EnvKey(c, env, j);
      KeysNeverCollide(c.lt, [j], [k]);
    }
  }

  /** A reference to its own key takes the value of the layer below. */
  lemma {:induction false} RefTakesBelow(c: Ctx, fuel: nat, env: Env, s: Val, k: string, below: Option<Res>)
    requires InChain(c, env, k, below) && s.Subst? && Piece(env, s, k) && PartOf(s, c.root.vals[k]) && fuel > 1
    ensures ResolveVal(c, fuel, s) == LayerValue(c.lt, env, s, below)
  {
    if !s.knownAbsent {
      if s.segs == [k] {
        var key := KeyOf(c.lt, [k]);
        assert Lookup(c.root, [k]) == Some(c.root.vals[k]) && ContainsId(s, s.id);
        var c' := c.(resolving := c.resolving + {key});
        assert ResolveSubst(c, fuel, s) == ResolveBack(c', fuel, s);
        var prior := FindPrior(c, [k], key);
        assert FindPrior(c', [k], key) == prior;
        if prior.Some? {
          InEnvStill(c, env, k);
          DeadResolves(c', fuel - 1, env, prior.value, k);
        }
      } else {
        RefForeign(c, fuel, env, k, s, below);
      }
    }
  }

  lemma {:induction false} LiveResolves(c: Ctx, fuel: nat, env: Env, v: Val, k: string, below: Option<Res>)
    requires InChain(c, env, k, below) && Piece(env, v, k) && PartOf(v, c.root.vals[k]) && fuel > 1
    ensures ResolveVal(c, fuel, v) == LayerValue(c.lt, env, v, below)
    decreases v, 1
  {
    match v
    case Scalar(_, _, _) =>
    case Obj(keys, _, _) => LiveFieldsResolve(c, fuel, env, v, keys, EMPTY_OBJ, k, below);
    case Subst(_, _, _, _) => RefTakesBelow(c, fuel, env, v, k, below);
    case Concat(ps) =>
      forall i | 0 <= i < |ps| ensures PartOf(ps[i], c.root.vals[k]) {
        assert forall id :: ContainsId(ps[i], id) ==> ContainsId(v, id);
      }
      LiveResolveAll(c, fuel, env, ps, k, below);
    case Arr(es) =>
      forall i | 0 <= i < |es| ensures PartOf(es[i], c.root.vals[k]) {
        assert forall id :: ContainsId(es[i], id) ==> ContainsId(v, id);
      }
      LiveResolveAll(c, fuel, env, es, k, below);
  }

  lemma {:induction false} LiveFieldsResolve(c: Ctx, fuel: nat, env: Env, o: Val, keys: seq<string>, acc: Val,
                                             k: string, below: Option<Res>)
    requires o.Obj? && acc.Obj? && InChain(c, env, k, below) && Piece(env, o, k) && PartOf(o, c.root.vals[k]) &&
             fuel > 1
    ensures FieldsMatch(ResolveFields(c, fuel, o, keys, false, acc), LayerFields(c.lt, env, o, keys, below, acc))
    decreases o, 0, |keys|
  {
    if keys != [] {
      var j, c' := keys[0], c.(field := c.field + [keys[0]]);
      InEnvBelow(c, env, k, j);
      assert FindPrior(c', [k], KeyOf(c.lt, [k])) == FindPrior(c, [k], KeyOf(c.lt, [k]));
      if j in o.vals {
        assert forall id :: ContainsId(o.vals[j], id) ==> ContainsId(o, id);
        LiveResolves(c', fuel, env, o.vals[j], k, below);
      }
      if j in o.vals { FirmValue(c.lt, env, o.vals[j], below); }
      if j in o.priors && !Firm(o.vals[j]) {
        DeadResolves(c', fuel, env, o.priors[j], k);
        DeadIgnoresBelow(c.lt, env, o.priors[j], k, below, None);
      }
      var r := ResolveField(c, fuel, o, j);
      assert r == LayerField(c.lt, env, o, j, below);
      if Settles(r) {
        LiveFieldsResolve(c, fuel, env, o, keys[1..], if r.Ok? then Set(acc, j, r.v) else acc, k, below);
      }
    }
  }

  lemma {:induction false} LiveResolveAll(c: Ctx, fuel: nat, env: Env, vs: seq<Val>, k: string, below: Option<Res>)
    requires InChain(c, env, k, below) && fuel > 1
    requires forall i | 0 <= i < |vs| :: Piece(env, vs[i], k) && PartOf(vs[i], c.root.vals[k])
    ensures ResolveAll(c, fuel, vs) == LayerValues(c.lt, env, vs, below)
    decreases vs, 0
  {
    if vs != [] {
      LiveResolves(c, fuel, env, vs[0], k, below);
      LiveResolveAll(c, fuel, env, vs[1..], k, below);
    }
  }

  // ---------- the walk over the root ----------

  /** No key of the root is the printed form of another one. */
  ghost predicate NoMistakenKey(lt: LetterTest, root: Val)
    requires root.Obj?
  {
    forall k | k in root.vals :: KeyOf(lt, [k]) in root.priors ==> KeyOf(lt, [k]) == k
  }

  ghost predicate CachesEnv(c: Ctx, env: Env) {
    forall j | j in env :: KeyOf(c.lt, [j]) in c.cache ==> env[j] == Some(c.cache[KeyOf(c.lt, [j])])
  }

  /** A root whose values and priors are such. */
  ghost predicate Readable(lt: LetterTest, env: Env, root: Val)
    requires root.Obj?
  {
    && DataEnv(env) && KeysMatch(root) && NoMistakenKey(lt, root)
    && (forall j | j in env :: Get(root.vals, j) == env[j] && j !in root.priors)
    && (forall k | k in root.vals && k !in env :: Piece(env, root.vals[k], k))
    && (forall k | k in root.priors ::
        k in root.vals && k !in env && Piece(env, root.priors[k], k) && Dead(root.priors[k], k))
  }

  /** What the prior of the key stands for. */
  function Below(lt: LetterTest, env: Env, root: Val, k: string): Option<Res>
    requires root.Obj?
  {
    if k in root.priors then Some(LayerValue(lt, env, root.priors[k], None)) else None
  }

  /** What the key comes to. */
  function FieldOver(lt: LetterTest, env: Env, root: Val, k: string): Res
    requires root.Obj? && k in root.vals
  {
    if k in env then Ok(root.vals[k])
    else LaidOver(lt, LayerValue(lt, env, root.vals[k], Below(lt, env, root, k)), Below(lt, env, root, k))
  }

  function FieldsOver(lt: LetterTest, env: Env, root: Val): (m: map<string, Res>)
    requires root.Obj?
    ensures m.Keys == root.vals.Keys
  {
    map k | k in root.vals :: FieldOver(lt, env, root, k)
  }

  ghost predicate RootWalk(c: Ctx, env: Env) {
    && c.root.Obj? && Readable(c.lt, env, c.root)
    && c.top == c.root.priors && c.field == [] && c.resolving == {} && CachesEnv(c, env)
  }

  lemma {:induction false} FieldInEnv(c: Ctx, env: Env, k: string)
    requires RootWalk(c, env) && k !in env
    ensures InEnv(c.(field := c.field + [k]), env, k)
  {
    var c' := c.(field := c.field + [k]);
    forall j | j in env ensures EnvKey(c', env, j) {
      assert Get(c.root.vals, j) == env[j] && j !in c.root.priors;
    }
  }

  /** A field, once its value and its prior are known. */
  lemma {:induction false} FieldLaidOver(c: Ctx, fuel: nat, k: string, r: Res, below: Option<Res>)
    requires c.root.Obj? && k in c.root.vals && (k in c.root.priors <==> below.Some?)
    requires ResolveVal(c.(field := c.field + [k]), fuel, c.root.vals[k]) == r
    requires k in c.root.priors ==> ResolveVal(c.(field := c.field + [k]), fuel, c.root.priors[k]) == below.value
    ensures ResolveField(c, fuel, c.root, k) == LaidOver(c.lt, r, below)
  {
  }

  lemma {:induction false} RootPrior(c: Ctx, k: string)
    requires c.root.Obj? && c.top == c.root.priors && (KeyOf(c.lt, [k]) in c.root.priors ==> KeyOf(c.lt, [k]) == k)
    ensures FindPrior(c.(field := [k]), [k], KeyOf(c.lt, [k])) == Get(c.root.priors, k)
  {
  }

  lemma {:induction false} BelowIsConcrete(lt: LetterTest, env: Env, root: Val, k: string)
    requires root.Obj? && Readable(lt, env, root)
    ensures ConcreteLayer(Below(lt, env, root, k)) &&
            StandsFor(lt, env, Get(root.priors, k), Below(lt, env, root, k), k)
  {
    if k in root.priors { LayerIsConcrete(lt, env, root.priors[k], k, None); }
  }

  lemma {:induction false} ChainField(c: Ctx, fuel: nat, env: Env, k: string)
    requires RootWalk(c, env) && k !in env && k in c.root.vals && KeyOf(c.lt, [k]) !in c.cache && fuel > 1
    ensures ResolveField(c, fuel, c.root, k) == FieldOver(c.lt, env, c.root, k) &&
            !FieldOver(c.lt, env, c.root, k).Diverge?
  {
    var c', v, below := c.(field := c.field + [k]), c.root.vals[k], Below(c.lt, env, c.root, k);
    assert c.field + [k] == [k];
    BelowIsConcrete(c.lt, env, c.root, k);
    FieldInEnv(c, env, k);
    RootPrior(c, k);
    LiveResolves(c', fuel, env, v, k, below);
    if k in c.root.priors { DeadResolves(c', fuel, env, c.root.priors[k], k); }
    FieldLaidOver(c, fuel, k, LayerValue(c.lt, env, v, below), below);
    LayerIsConcrete(c.lt, env, v, k, below);
    LaidOverIsConcrete(c.lt, LayerValue(c.lt, env, v, below), below);
  }

  lemma {:induction false} OneRootField(c: Ctx, fuel: nat, env: Env, k: string)
    requires RootWalk(c, env) && k in c.root.vals && KeyOf(c.lt, [k]) !in c.cache && fuel > 1
    ensures ResolveField(c, fuel, c.root, k) == FieldOver(c.lt, env, c.root, k) &&
            !FieldOver(c.lt, env, c.root, k).Diverge?
    ensures FieldOver(c.lt, env, c.root, k).Ok? ==>
            RootWalk(c.(cache := c.cache[KeyOf(c.lt, [k]) := FieldOver(c.lt, env, c.root, k).v]), env)
  {
    if k in env {
      assert Get(c.root.vals, k) == env[k];
      ConcreteResolvesToItself(c.(field := c.field + [k]), fuel, c.root.vals[k]);
    } else {
      ChainField(c, fuel, env, k);
    }
    forall j | j in env ensures KeyOf(c.lt, [j]) == KeyOf(c.lt, [k]) ==> j == k {
      KeysNeverCollide(c.lt, [j], [k]);
    }
  }

  ghost predicate Uncached(c: Ctx, keys: seq<string>, acc: Val)
    requires acc.Obj?
  {
    forall i | 0 <= i < |keys| :: KeyOf(c.lt, [keys[i]]) !in c.cache && keys[i] !in acc.vals
  }

  lemma {:induction false} UncachedStill(c: Ctx, keys: seq<string>, acc: Val, v: Val)
    requires acc.Obj? && keys != [] && Distinct(keys) && Uncached(c, keys, acc)
    ensures Uncached(c.(cache := c.cache[KeyOf(c.lt, [keys[0]]) := v]), keys[1..], Set(acc, keys[0], v))
  {
    forall i | 0 <= i < |keys[1..]|
      ensures KeyOf(c.lt, [keys[1..][i]]) != KeyOf(c.lt, [keys[0]]) && keys[1..][i] == keys[i + 1] {
      KeysNeverCollide(c.lt, [keys[i + 1]], [keys[0]]);
    }
  }

  ghost predicate WalkGives(c: Ctx, fuel: nat, keys: seq<string>, want: map<string, Res>, acc: Val)
    requires c.root.Obj? && acc.Obj?
  {
    var r := ResolveFields(c, fuel, c.root, keys, true, acc);
    if AllSettle(keys, want) then r.Built? && Extends(r.o, keys, want, acc) else r == ObjFail
  }

  /** One field, and what the walk over the others gives. */
  lemma {:induction false} WalkOneMore(c: Ctx, fuel: nat, keys: seq<string>, want: map<string, Res>, acc: Val)
    requires c.root.Obj? && acc.Obj? && keys != [] && Distinct(keys) && keys[0] !in acc.vals && keys[0] in want
    requires ResolveField(c, fuel, c.root, keys[0]) == want[keys[0]] && !want[keys[0]].Diverge?
    requires want[keys[0]].Ok? ==>
               WalkGives(c.(cache := c.cache[KeyOf(c.lt, [keys[0]]) := want[keys[0]].v]), fuel, keys[1..], want,
                         Set(acc, keys[0], want[keys[0]].v))
    requires want[keys[0]].Absent? ==> WalkGives(c, fuel, keys[1..], want, acc)
    ensures WalkGives(c, fuel, keys, want, acc)
  {
    SettleOneMore(keys, want);
    assert keys[0] !in keys[1..];
    if AllSettle(keys, want) {
      ExtendsOneMore(ResolveFields(c, fuel, c.root, keys, true, acc).o, keys, want, acc);
    }
  }

  ghost predicate WalkReady(c: Ctx, env: Env, keys: seq<string>, acc: Val)
    requires acc.Obj?
  {
    && RootWalk(c, env) && Distinct(keys) && Uncached(c, keys, acc)
    && forall i | 0 <= i < |keys| :: keys[i] in c.root.vals
  }

  lemma {:induction false} WalkNext(c: Ctx, fuel: nat, env: Env, keys: seq<string>, acc: Val)
    requires acc.Obj? && WalkReady(c, env, keys, acc) && keys != [] && fuel > 1
    ensures keys[0] in c.root.vals && keys[0] !in acc.vals
    ensures var r := FieldOver(c.lt, env, c.root, keys[0]);
            && ResolveField(c, fuel, c.root, keys[0]) == r && !r.Diverge?
            && (r.Ok? ==> WalkReady(c.(cache := c.cache[KeyOf(c.lt, [keys[0]]) := r.v]), env, keys[1..],
                                    Set(acc, keys[0], r.v)))
    ensures WalkReady(c, env, keys[1..], acc)
  {
    OneRootField(c, fuel, env, keys[0]);
    assert forall i | 0 <= i < |keys[1..]| :: keys[1..][i] == keys[i + 1];
    var r := FieldOver(c.lt, env, c.root, keys[0]);
    if r.Ok? { UncachedStill(c, keys, acc, r.v); }
  }

  lemma {:induction false} WalkIs(c: Ctx, fuel: nat, env: Env, keys: seq<string>, acc: Val)
    requires acc.Obj? && WalkReady(c, env, keys, acc) && fuel > 1
    ensures WalkGives(c, fuel, keys, FieldsOver(c.lt, env, c.root), acc)
    decreases |keys|
  {
    if keys == [] {
      assert acc.keys + [] == acc.keys;
    } else {
      WalkNext(c, fuel, env, keys, acc);
      var r := FieldOver(c.lt, env, c.root, keys[0]);
      if r.Ok? {
        WalkIs(c.(cache := c.cache[KeyOf(c.lt, [keys[0]]) := r.v]), fuel, env, keys[1..], Set(acc, keys[0], r.v));
      } else if r.Absent? {
        WalkIs(c, fuel, env, keys[1..], acc);
      }
      WalkOneMore(c, fuel, keys, FieldsOver(c.lt, env, c.root), acc);
    }
  }

  /** What such a root is resolved to, failures and the order of keys included. */
  lemma {:induction false} RootResolves(lt: LetterTest, env: Env, root: Val, fuel: nat)
    requires root.Obj? && Readable(lt, env, root) && fuel > 1
    ensures Gives(ResolveTree(lt, root, fuel), root.keys, FieldsOver(lt, env, root))
  {
    forall i | 0 <= i < |root.keys| ensures root.keys[i] in root.vals { assert root.keys[i] in root.keys; }
    WalkIs(Start(lt, root), fuel, env, root.keys, EMPTY_OBJ);
    if AllSettle(root.keys, FieldsOver(lt, env, root)) {
      ExtendsNothing(ResolveTree(lt, root, fuel).v, root.keys, FieldsOver(lt, env, root));
    }
  }
}
