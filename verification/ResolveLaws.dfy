/**
 What holds of every run of phase 2: results are concrete, a budget large enough
 changes nothing, and when a run ends.
 */
module ResolveLaws {
  import opened Paths
  import opened Values
  import opened Merge
  import opened MergeLaws
  import opened Concats
  import opened Resolve

  // ---------- results are concrete ----------

  ghost predicate ConcreteMap(m: map<string, Val>) {
    forall k | k in m :: Concrete(m[k])
  }

  ghost predicate ConcreteOptions(vs: seq<Option<Val>>) {
    forall i | 0 <= i < |vs| :: vs[i].Some? ==> Concrete(vs[i].value)
  }

  ghost predicate ConcreteSeq(vs: seq<Val>) {
    forall i | 0 <= i < |vs| :: Concrete(vs[i])
  }

  ghost predicate ConcreteRes(r: Res) {
    r.Ok? ==> Concrete(r.v)
  }

  lemma {:induction false} SetIsConcrete(o: Val, k: string, v: Val)
    requires o.Obj? && Concrete(o) && Concrete(v)
    ensures Concrete(Set(o, k, v))
  {
    var r := Set(o, k, v);
    if k !in o.vals {
      assert forall j :: j in r.keys <==> j in o.keys || j == k;
    }
  }

  lemma {:induction false} DefinedIsConcrete(vs: seq<Option<Val>>)
    requires ConcreteOptions(vs)
    ensures ConcreteSeq(Defined(vs)) && ConcreteSeq(Meaningful(vs))
  {
    if vs != [] {
      DefinedIsConcrete(vs[1..]);
    }
  }

  lemma {:induction false} NumericIsConcrete(o: Val)
    requires o.Obj? && Concrete(o)
    ensures NumericToArray(o).Some? ==> Concrete(NumericToArray(o).value)
  {
  }

  lemma {:induction false} JoinPairIsConcrete(left: Val, right: Val)
    requires Concrete(left) && Concrete(right)
    ensures JoinPair(left, right).Some? ==> Concrete(JoinPair(left, right).value)
  {
    if left.Obj? && right.Obj? { ConcatIsConcrete(left, right); }
    if left.Obj? { NumericIsConcrete(left); }
    if right.Obj? { NumericIsConcrete(right); }
  }

  lemma {:induction false} JoinFromIsConcrete(acc: Val, vs: seq<Val>)
    requires Concrete(acc) && ConcreteSeq(vs)
    ensures JoinFrom(acc, vs).Ok? ==> Concrete(JoinFrom(acc, vs).v)
    decreases vs
  {
    if vs != [] && JoinPair(acc, vs[0]).Some? {
      JoinPairIsConcrete(acc, vs[0]);
      JoinFromIsConcrete(JoinPair(acc, vs[0]).value, vs[1..]);
    }
  }

  lemma {:induction false} JoinIsConcrete(vs: seq<Option<Val>>)
    requires ConcreteOptions(vs)
    ensures JoinConcat(vs).Ok? ==> Concrete(JoinConcat(vs).v)
  {
    DefinedIsConcrete(vs);
    var pieces := Meaningful(vs);
    if pieces != [] {
      JoinFromIsConcrete(pieces[0], pieces[1..]);
    }
  }

  lemma {:induction false} SettleIsConcrete(lt: LetterTest, r: Res, prior: Res)
    requires WantsPrior(r) && (r.Ok? ==> Concrete(r.v)) && (prior.Ok? ==> Concrete(prior.v))
    ensures Settle(lt, r, prior).Ok? ==> Concrete(Settle(lt, r, prior).v)
  {
    if r.Ok? && prior.Ok? && prior.v.Obj? {
      DeepMergeIsConcat(lt, r.v, prior.v, []);
    }
  }

  lemma {:induction false} NavigateIsConcrete(v: Val, rem: seq<string>)
    requires Concrete(v)
    ensures NavigateResolved(v, rem).Some? ==> Concrete(NavigateResolved(v, rem).value)
    decreases |rem|
  {
    if rem != [] && v.Obj? && rem[0] in v.vals {
      NavigateIsConcrete(v.vals[rem[0]], rem[1..]);
    }
  }

  lemma {:induction false} ValIsConcrete(c: Ctx, fuel: nat, v: Val)
    requires ConcreteMap(c.cache)
    ensures ResolveVal(c, fuel, v).Ok? ==> Concrete(ResolveVal(c, fuel, v).v)
    decreases fuel, v, 3
  {
    match v
    case Scalar(_, _, _) =>
    case Subst(_, _, _, _) => SubstIsConcrete(c, fuel, v);
    case Concat(ps) =>
      AllIsConcrete(c, fuel, ps);
      if ResolveAll(c, fuel, ps).Vals? { JoinIsConcrete(ResolveAll(c, fuel, ps).vs); }
    case Arr(es) =>
      AllIsConcrete(c, fuel, es);
      if ResolveAll(c, fuel, es).Vals? { DefinedIsConcrete(ResolveAll(c, fuel, es).vs); }
    case Obj(keys, _, _) => FieldsAreConcrete(c, fuel, v, keys, false, EMPTY_OBJ);
  }

  lemma {:induction false} AllIsConcrete(c: Ctx, fuel: nat, vs: seq<Val>)
    requires ConcreteMap(c.cache)
    ensures ResolveAll(c, fuel, vs).Vals? ==> ConcreteOptions(ResolveAll(c, fuel, vs).vs)
    decreases fuel, vs, 0
  {
    if vs != [] {
      ValIsConcrete(c, fuel, vs[0]);
      AllIsConcrete(c, fuel, vs[1..]);
    }
  }

  lemma {:induction false} FieldIsConcrete(c: Ctx, fuel: nat, o: Val, k: string)
    requires o.Obj? && ConcreteMap(c.cache)
    ensures ResolveField(c, fuel, o, k).Ok? ==> Concrete(ResolveField(c, fuel, o, k).v)
    decreases fuel, o, 0
  {
    var c' := c.(field := c.field + [k]);
    if k in o.vals { ValIsConcrete(c', fuel, o.vals[k]); }
    var r := if k in o.vals then ResolveVal(c', fuel, o.vals[k]) else Absent;
    if WantsPrior(r) && k in o.priors {
      ValIsConcrete(c', fuel, o.priors[k]);
      SettleIsConcrete(c.lt, r, ResolveVal(c', fuel, o.priors[k]));
    }
  }

  lemma {:induction false} FieldsAreConcrete(c: Ctx, fuel: nat, o: Val, keys: seq<string>, atRoot: bool, acc: Val)
    requires o.Obj? && acc.Obj? && Concrete(acc) && ConcreteMap(c.cache)
    ensures var r := ResolveFields(c, fuel, o, keys, atRoot, acc);
            r.Built? ==> Concrete(r.o) && ConcreteMap(r.cache)
    decreases fuel, o, 1, |keys|
  {
    if keys != [] {
      var k := keys[0];
      FieldIsConcrete(c, fuel, o, k);
      var r := ResolveField(c, fuel, o, k);
      if r.Ok? {
        SetIsConcrete(acc, k, r.v);
        var c' := if atRoot then c.(cache := c.cache[KeyOf(c.lt, [k]) := r.v]) else c;
        FieldsAreConcrete(c', fuel, o, keys[1..], atRoot, Set(acc, k, r.v));
      } else if r.Absent? {
        FieldsAreConcrete(c, fuel, o, keys[1..], atRoot, acc);
      }
    }
  }

  lemma {:induction false} BelowIsConcrete(c: Ctx, fuel: nat, s: Val)
    requires s.Subst? && fuel > 0 && LooksBelow(c, s) && ConcreteMap(c.cache)
    ensures ResolveBelow(c, fuel, s).Ok? ==> Concrete(ResolveBelow(c, fuel, s).v)
    decreases fuel, s, 1
  {
    var guard := KeyOf(c.lt, c.field);
    var prior := FindPrior(c, c.field, guard);
    if guard !in c.guards && prior.Some? {
      var c' := c.(guards := c.guards + {guard});
      var r := ResolveVal(c', fuel - 1, prior.value);
      ValIsConcrete(c', fuel - 1, prior.value);
      if r.Ok? { NavigateIsConcrete(r.v, s.segs[|c.field|..]); }
    }
  }

  lemma {:induction false} BackIsConcrete(c: Ctx, fuel: nat, s: Val)
    requires s.Subst? && fuel > 0 && ConcreteMap(c.cache)
    ensures ResolveBack(c, fuel, s).Ok? ==> Concrete(ResolveBack(c, fuel, s).v)
    decreases fuel, s, 1
  {
    var prior := FindPrior(c, s.segs, KeyOf(c.lt, s.segs));
    if prior.Some? { ValIsConcrete(c, fuel - 1, prior.value); }
  }

  lemma {:induction false} SubstIsConcrete(c: Ctx, fuel: nat, s: Val)
    requires s.Subst? && ConcreteMap(c.cache)
    ensures ResolveSubst(c, fuel, s).Ok? ==> Concrete(ResolveSubst(c, fuel, s).v)
    decreases fuel, s, 2
  {
    var key := KeyOf(c.lt, s.segs);
    if s.knownAbsent || fuel == 0 {
    } else if LooksBelow(c, s) {
      BelowIsConcrete(c, fuel, s);
    } else if key in c.cache {
    } else if key in c.resolving {
      BackIsConcrete(c, fuel, s);
    } else {
      var c' := c.(resolving := c.resolving + {key});
      var found := Lookup(c.root, s.segs);
      if found.None? {
      } else if ContainsId(found.value, s.id) {
        BackIsConcrete(c', fuel, s);
      } else {
        ValIsConcrete(c', fuel - 1, found.value);
        var r := ResolveVal(c', fuel - 1, found.value);
        var prior := if r.Absent? then PriorAt(c.root, s.segs) else FindPrior(c, s.segs, key);
        if WantsPrior(r) && prior.Some? {
          ValIsConcrete(c', fuel - 1, prior.value);
          SettleIsConcrete(c.lt, r, ResolveVal(c', fuel - 1, prior.value));
        }
      }
    }
  }

  // ---------- resolving a concrete tree ----------

  lemma {:induction false} DefinedOfConcrete(vs: seq<Val>)
    ensures Defined(Somes(vs)) == vs
  {
    if vs != [] {
      assert Somes(vs)[1..] == Somes(vs[1..]);
      DefinedOfConcrete(vs[1..]);
    }
  }

  function Somes(vs: seq<Val>): seq<Option<Val>> {
    seq(|vs|, i requires 0 <= i < |vs| => Some(vs[i]))
  }

  lemma {:induction false} ConcreteResolvesToItself(c: Ctx, fuel: nat, v: Val)
    requires Concrete(v)
    ensures ResolveVal(c, fuel, v) == Ok(v)
    decreases v, 1
  {
    match v
    case Scalar(_, _, _) =>
    case Arr(es) =>
      ConcreteElements(c, fuel, es);
      DefinedOfConcrete(es);
    case Obj(keys, _, _) =>
      assert keys[..0] == [];
      ConcreteFields(c, fuel, v, 0, false, EMPTY_OBJ);
  }

  lemma {:induction false} ConcreteElements(c: Ctx, fuel: nat, es: seq<Val>)
    requires ConcreteSeq(es)
    ensures ResolveAll(c, fuel, es) == Vals(Somes(es))
    decreases es, 0
  {
    if es == [] {
      assert Somes(es) == [];
    } else {
      ConcreteResolvesToItself(c, fuel, es[0]);
      ConcreteElements(c, fuel, es[1..]);
      assert Somes(es) == [Some(es[0])] + Somes(es[1..]);
    }
  }

  lemma {:induction false} ConcreteFields(c: Ctx, fuel: nat, o: Val, i: nat, atRoot: bool, acc: Val)
    requires o.Obj? && Concrete(o) && i <= |o.keys|
    requires acc.Obj? && acc.keys == o.keys[..i] && acc.priors == map[]
    requires forall k :: Get(acc.vals, k) == if k in o.keys[..i] then Get(o.vals, k) else None
    ensures var r := ResolveFields(c, fuel, o, o.keys[i..], atRoot, acc); r.Built? && r.o == o
    decreases o, 0, |o.keys| - i
  {
    if i == |o.keys| {
      assert o.keys[..i] == o.keys;
      forall k ensures Get(acc.vals, k) == Get(o.vals, k) {
        assert k in o.keys <==> k in o.vals;
      }
      SameMaps(acc.vals, o.vals);
    } else {
      var k := o.keys[i];
      assert k in o.vals && k !in o.keys[..i] && o.keys[i..][1..] == o.keys[i + 1..];
      assert o.keys[..i + 1] == o.keys[..i] + [k];
      assert Get(acc.vals, k) == None;
      ConcreteResolvesToItself(c.(field := c.field + [k]), fuel, o.vals[k]);
      var c' := if atRoot then c.(cache := c.cache[KeyOf(c.lt, [k]) := o.vals[k]]) else c;
      ConcreteFields(c', fuel, o, i + 1, atRoot, Set(acc, k, o.vals[k]));
    }
  }

  /** Whenever strict resolution succeeds the tree holds no placeholder and no
      prior, and resolving it again changes nothing. */
  lemma {:induction false} ResolvedIsFinal(lt: LetterTest, tree: Val, fuel: nat, again: nat)
    requires tree.Obj? && ResolveTree(lt, tree, fuel).Ok?
    ensures var o := ResolveTree(lt, tree, fuel).v;
            Concrete(o) && ConcreteMap(ResolveRoot(lt, tree, fuel).cache) && o.Obj? &&
              ResolveTree(lt, o, again) == Ok(o)
  {
    FieldsAreConcrete(Start(lt, tree), fuel, tree, tree.keys, true, EMPTY_OBJ);
    var o := ResolveTree(lt, tree, fuel).v;
    assert o.keys[..0] == [] && o.keys[0..] == o.keys;
    ConcreteFields(Start(lt, o), again, o, 0, true, EMPTY_OBJ);
  }

  // ---------- small steps ----------

  lemma {:induction false} LastText(vs: seq<Option<Val>>, b: string)
    requires vs == [Some(Text(b))]
    ensures Meaningful(vs) == [Text(b)] && ConcatStrings(vs) == b
  {
    assert vs[1..] == [] && [Text(b)] + [] == [Text(b)] && b + "" == b;
  }

  /** Text after a string, or after nothing at all. */
  lemma {:induction false} JoinText(v: Option<Val>, a: string, b: string)
    requires v == Some(Text(a)) || (v == None && a == "")
    ensures JoinConcat([v, Some(Text(b))]) == Ok(Text(a + b))
  {
    var vs := [v, Some(Text(b))];
    LastText(vs[1..], b);
    assert Meaningful(vs) == (if v.Some? then [Text(a)] else []) + [Text(b)];
    assert ConcatStrings(vs) == a + b;
  }

  lemma {:induction false} LastPiece(c: Ctx, fuel: nat, vs: seq<Val>, b: string)
    requires vs == [Text(b)]
    ensures ResolveAll(c, fuel, vs) == Vals([Some(Text(b))])
  {
    assert vs[1..] == [] && [Some(Text(b))] + [] == [Some(Text(b))];
  }

  lemma {:induction false} TwoPieces(c: Ctx, fuel: nat, v: Val, a: string, b: string)
    requires ResolveVal(c, fuel, v) == Ok(Text(a)) || (ResolveVal(c, fuel, v) == Absent && a == "")
    ensures ResolveVal(c, fuel, Concat([v, Text(b)])) == Ok(Text(a + b))
  {
    var ps, first := [v, Text(b)], OptionOf(ResolveVal(c, fuel, v));
    LastPiece(c, fuel, ps[1..], b);
    assert [first] + [Some(Text(b))] == [first, Some(Text(b))];
    assert ResolveAll(c, fuel, ps) == Vals([first, Some(Text(b))]);
    JoinText(first, a, b);
  }

  /** One field of an object that has no prior and settles at a value. */
  lemma {:induction false} FieldsNext(c: Ctx, fuel: nat, o: Val, k: string, rest: seq<string>, atRoot: bool, acc: Val,
                                      v: Val)
    requires o.Obj? && acc.Obj? && k in o.vals
    requires ResolveVal(c.(field := c.field + [k]), fuel, o.vals[k]) == Ok(v) && (v.Obj? ==> k !in o.priors)
    ensures ResolveFields(c, fuel, o, [k] + rest, atRoot, acc) ==
            ResolveFields(if atRoot then c.(cache := c.cache[KeyOf(c.lt, [k]) := v]) else c, fuel, o, rest, atRoot,
                          Set(acc, k, v))
  {
    assert ([k] + rest)[1..] == rest;
    assert ResolveField(c, fuel, o, k) == Ok(v);
  }

  lemma {:induction false} FieldsDone(c: Ctx, fuel: nat, o: Val, atRoot: bool, acc: Val)
    requires o.Obj? && acc.Obj?
    ensures ResolveFields(c, fuel, o, [], atRoot, acc) == Built(acc, c.cache)
  {
  }

  /** Fields that come to the same, of two objects. */
  lemma {:induction false} SameFields(c: Ctx, fuel: nat, o: Val, p: Val, keys: seq<string>, acc: Val)
    requires o.Obj? && p.Obj? && acc.Obj? && forall i | 0 <= i < |keys| ::
             ResolveField(c, fuel, o, keys[i]) == ResolveField(c, fuel, p, keys[i])
    ensures ResolveFields(c, fuel, o, keys, false, acc) == ResolveFields(c, fuel, p, keys, false, acc)
    decreases |keys|
  {
    if keys != [] {
      var r := ResolveField(c, fuel, o, keys[0]);
      assert forall i | 0 <= i < |keys[1..]| :: keys[1..][i] == keys[i + 1];
      if Settles(r) {
        SameFields(c, fuel, o, p, keys[1..], if r.Ok? then Set(acc, keys[0], r.v) else acc);
      }
    }
  }

  lemma {:induction false} ConcreteHasNoId(v: Val, id: nat)
    requires Concrete(v)
    ensures !ContainsId(v, id)
  {
    match v
    case Arr(es) => forall i | 0 <= i < |es| { ConcreteHasNoId(es[i], id); }
    case Obj(_, vals, _) => forall k | k in vals { ConcreteHasNoId(vals[k], id); }
    case _ =>
  }

  // ---------- a larger budget changes nothing ----------

  lemma {:induction false} ValKeeps(c: Ctx, fuel: nat, more: nat, v: Val)
    requires fuel <= more && !ResolveVal(c, fuel, v).Diverge?
    ensures ResolveVal(c, more, v) == ResolveVal(c, fuel, v)
    decreases fuel, v, 3
  {
    match v
    case Scalar(_, _, _) =>
    case Subst(_, _, _, _) => SubstKeeps(c, fuel, more, v);
    case Concat(ps) => AllKeeps(c, fuel, more, ps);
    case Arr(es) => AllKeeps(c, fuel, more, es);
    case Obj(keys, _, _) => FieldsKeep(c, fuel, more, v, keys, false, EMPTY_OBJ);
  }

  lemma {:induction false} AllKeeps(c: Ctx, fuel: nat, more: nat, vs: seq<Val>)
    requires fuel <= more && !ResolveAll(c, fuel, vs).SeqDiverge?
    ensures ResolveAll(c, more, vs) == ResolveAll(c, fuel, vs)
    decreases fuel, vs, 0
  {
    if vs != [] {
      ValKeeps(c, fuel, more, vs[0]);
      if !ResolveVal(c, fuel, vs[0]).Fail? {
        AllKeeps(c, fuel, more, vs[1..]);
      }
    }
  }

  lemma {:induction false} FieldKeeps(c: Ctx, fuel: nat, more: nat, o: Val, k: string)
    requires o.Obj? && fuel <= more && !ResolveField(c, fuel, o, k).Diverge?
    ensures ResolveField(c, more, o, k) == ResolveField(c, fuel, o, k)
    decreases fuel, o, 0
  {
    var c' := c.(field := c.field + [k]);
    if k in o.vals { ValKeeps(c', fuel, more, o.vals[k]); }
    var r := if k in o.vals then ResolveVal(c', fuel, o.vals[k]) else Absent;
    if WantsPrior(r) && k in o.priors { ValKeeps(c', fuel, more, o.priors[k]); }
  }

  lemma {:induction false} FieldsKeep(c: Ctx, fuel: nat, more: nat, o: Val, keys: seq<string>, atRoot: bool, acc: Val)
    requires o.Obj? && acc.Obj? && fuel <= more && !ResolveFields(c, fuel, o, keys, atRoot, acc).ObjDiverge?
    ensures ResolveFields(c, more, o, keys, atRoot, acc) == ResolveFields(c, fuel, o, keys, atRoot, acc)
    decreases fuel, o, 1, |keys|
  {
    if keys != [] {
      var k := keys[0];
      FieldKeeps(c, fuel, more, o, k);
      var r := ResolveField(c, fuel, o, k);
      if r.Ok? {
        var c' := if atRoot then c.(cache := c.cache[KeyOf(c.lt, [k]) := r.v]) else c;
        FieldsKeep(c', fuel, more, o, keys[1..], atRoot, Set(acc, k, r.v));
      } else if r.Absent? {
        FieldsKeep(c, fuel, more, o, keys[1..], atRoot, acc);
      }
    }
  }

  lemma {:induction false} SubstKeeps(c: Ctx, fuel: nat, more: nat, s: Val)
    requires s.Subst? && fuel <= more && !ResolveSubst(c, fuel, s).Diverge?
    ensures ResolveSubst(c, more, s) == ResolveSubst(c, fuel, s)
    decreases fuel, s, 2
  {
    var key := KeyOf(c.lt, s.segs);
    if s.knownAbsent {
    } else if LooksBelow(c, s) {
      BelowKeeps(c, fuel, more, s);
    } else if key in c.cache {
    } else if key in c.resolving {
      BackKeeps(c, fuel, more, s);
    } else {
      AheadKeeps(c, fuel, more, s);
    }
  }

  lemma {:induction false} BelowKeeps(c: Ctx, fuel: nat, more: nat, s: Val)
    requires s.Subst? && LooksBelow(c, s) && 0 < fuel <= more && !ResolveBelow(c, fuel, s).Diverge?
    ensures ResolveBelow(c, more, s) == ResolveBelow(c, fuel, s)
    decreases fuel, s, 1
  {
    var guard := KeyOf(c.lt, c.field);
    var prior := FindPrior(c, c.field, guard);
    if guard !in c.guards && prior.Some? {
      ValKeeps(c.(guards := c.guards + {guard}), fuel - 1, more - 1, prior.value);
    }
  }

  lemma {:induction false} AheadKeeps(c: Ctx, fuel: nat, more: nat, s: Val)
    requires s.Subst? && !s.knownAbsent && 0 < fuel <= more && !LooksBelow(c, s)
    requires KeyOf(c.lt, s.segs) !in c.cache && KeyOf(c.lt, s.segs) !in c.resolving &&
             !ResolveSubst(c, fuel, s).Diverge?
    ensures ResolveSubst(c, more, s) == ResolveSubst(c, fuel, s)
    decreases fuel, s, 1
  {
    var key := KeyOf(c.lt, s.segs);
    var c' := c.(resolving := c.resolving + {key});
    var found := Lookup(c.root, s.segs);
    if found.Some? && ContainsId(found.value, s.id) {
      BackKeeps(c', fuel, more, s);
    } else if found.Some? {
      ValKeeps(c', fuel - 1, more - 1, found.value);
      var r := ResolveVal(c', fuel - 1, found.value);
      var prior := if r.Absent? then PriorAt(c.root, s.segs) else FindPrior(c, s.segs, key);
      if WantsPrior(r) && prior.Some? { ValKeeps(c', fuel - 1, more - 1, prior.value); }
    }
  }

  lemma {:induction false} BackKeeps(c: Ctx, fuel: nat, more: nat, s: Val)
    requires s.Subst? && 0 < fuel <= more && !ResolveBack(c, fuel, s).Diverge?
    ensures ResolveBack(c, more, s) == ResolveBack(c, fuel, s)
    decreases fuel, s, 0
  {
    var prior := FindPrior(c, s.segs, KeyOf(c.lt, s.segs));
    if prior.Some? { ValKeeps(c, fuel - 1, more - 1, prior.value); }
  }

  /** The budget is no part of the meaning: a run that ends within it ends the
      same way within any larger one. */
  lemma {:induction false} BudgetDoesNotMatter(lt: LetterTest, tree: Val, fuel: nat, more: nat)
    requires tree.Obj? && fuel <= more && !ResolveTree(lt, tree, fuel).Diverge?
    ensures ResolveTree(lt, tree, more) == ResolveTree(lt, tree, fuel)
  {
    FieldsKeep(Start(lt, tree), fuel, more, tree, tree.keys, true, EMPTY_OBJ);
  }
}
