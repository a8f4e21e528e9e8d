/**
 What an array, a concatenation and an object are resolved to, element by element
 and field by field (resolveVal and resolveSubstitutions in
 internal/resolver/resolver.go).
 */
module Elements {
  import opened Paths
  import opened Values
  import opened Concats
  import opened Resolve

  // ---------- which elements stay ----------

  function Options(rs: seq<Res>): (vs: seq<Option<Val>>)
    ensures |vs| == |rs| && forall i | 0 <= i < |rs| :: vs[i] == OptionOf(rs[i])
  {
    seq(|rs|, i requires 0 <= i < |rs| => OptionOf(rs[i]))
  }

  lemma {:induction false} OptionsLast(rs: seq<Res>)
    requires rs != []
    ensures Options(rs) == Options(rs[..|rs| - 1]) + [OptionOf(rs[|rs| - 1])]
  {
  }

  /** The positions of the results that are a value, all of them and in order. */
  ghost predicate Positions(rs: seq<Res>, at: seq<nat>) {
    && (forall j | 0 <= j < |at| :: at[j] < |rs| && rs[at[j]].Ok?)
    && (forall i, j | 0 <= i < j < |at| :: at[i] < at[j])
    && (forall i | 0 <= i < |rs| && rs[i].Ok? :: i in at)
  }

  lemma {:induction false} NextPosition(rs: seq<Res>, r: Res, at: seq<nat>)
    requires Positions(rs, at)
    ensures Positions(rs + [r], if r.Ok? then at + [|rs|] else at)
  {
    var ss, to := rs + [r], if r.Ok? then at + [|rs|] else at;
    assert forall i | 0 <= i < |rs| :: ss[i] == rs[i];
    forall i | 0 <= i < |ss| && ss[i].Ok? ensures i in to {
      if i < |rs| {
        assert i in at;
      } else {
        assert to[|at|] == |rs|;
      }
    }
  }

  /** What the elements are resolved to. */
  ghost function Results(c: Ctx, fuel: nat, vs: seq<Val>): (rs: seq<Res>)
    ensures |rs| == |vs|
  {
    seq(|vs|, i requires 0 <= i < |vs| => ResolveVal(c, fuel, vs[i]))
  }

  ghost predicate AllSettled(rs: seq<Res>) {
    forall i | 0 <= i < |rs| :: Settles(rs[i])
  }

  /** The first element that does not settle decides. */
  ghost predicate FirstUnsettled(rs: seq<Res>, i: nat) {
    i < |rs| && !Settles(rs[i]) && forall j | 0 <= j < i :: Settles(rs[j])
  }

  lemma {:induction false} ResultsOf(c: Ctx, fuel: nat, vs: seq<Val>)
    requires vs != []
    ensures Results(c, fuel, vs)[1..] == Results(c, fuel, vs[1..])
    ensures Results(c, fuel, vs)[0] == ResolveVal(c, fuel, vs[0])
  {
  }

  lemma {:induction false} AllAre(c: Ctx, fuel: nat, vs: seq<Val>)
    requires AllSettled(Results(c, fuel, vs))
    ensures ResolveAll(c, fuel, vs) == Vals(Options(Results(c, fuel, vs)))
  {
    var rs := Results(c, fuel, vs);
    if vs != [] {
      ResultsOf(c, fuel, vs);
      forall i | 0 <= i < |rs[1..]| ensures Settles(rs[1..][i]) { assert rs[1..][i] == rs[i + 1]; }
      AllAre(c, fuel, vs[1..]);
      assert rs[0] == ResolveVal(c, fuel, vs[0]);
    }
    assert ResolveAll(c, fuel, vs).Vals? ==> ResolveAll(c, fuel, vs).vs == Options(rs);
  }

  lemma {:induction false} OneDecides(c: Ctx, fuel: nat, vs: seq<Val>, i: nat)
    requires FirstUnsettled(Results(c, fuel, vs), i)
    ensures ResolveAll(c, fuel, vs) == if Results(c, fuel, vs)[i].Fail? then SeqFail else SeqDiverge
    decreases |vs|
  {
    var rs := Results(c, fuel, vs);
    ResultsOf(c, fuel, vs);
    if i > 0 {
      assert Settles(rs[0]);
      forall j | 0 <= j < i - 1 ensures Settles(rs[1..][j]) { assert rs[1..][j] == rs[j + 1]; }
      assert rs[1..][i - 1] == rs[i];
      OneDecides(c, fuel, vs[1..], i - 1);
    }
  }

  lemma {:induction false} DefinedConcat(a: seq<Option<Val>>, b: seq<Option<Val>>)
    ensures Defined(a + b) == Defined(a) + Defined(b)
  {
    if a == [] {
      assert a + b == b && [] + Defined(b) == Defined(b);
    } else {
      assert (a + b)[1..] == a[1..] + b;
      DefinedConcat(a[1..], b);
      Assoc(if a[0].Some? then [a[0].value] else [], Defined(a[1..]), Defined(b));
    }
  }

  /** The values at those positions. */
  ghost predicate ValuesAt(rs: seq<Res>, at: seq<nat>, es: seq<Val>) {
    Positions(rs, at) && |es| == |at| && forall j | 0 <= j < |at| :: rs[at[j]] == Ok(es[j])
  }

  lemma {:induction false} LaterValue(rs: seq<Res>, r: Res, at: seq<nat>, es: seq<Val>)
    requires ValuesAt(rs, at, es) && r.Ok?
    ensures ValuesAt(rs + [r], at + [|rs|], es + [r.v])
  {
    var ss, to, fs := rs + [r], at + [|rs|], es + [r.v];
    NextPosition(rs, r, at);
    forall j | 0 <= j < |to| ensures ss[to[j]] == Ok(fs[j]) {
      if j < |at| { assert ss[at[j]] == rs[at[j]]; }
    }
  }

  lemma {:induction false} NoLaterValue(rs: seq<Res>, r: Res, at: seq<nat>, es: seq<Val>)
    requires ValuesAt(rs, at, es) && r.Absent?
    ensures ValuesAt(rs + [r], at, es)
  {
    NextPosition(rs, r, at);
    forall j | 0 <= j < |at| ensures (rs + [r])[at[j]] == Ok(es[j]) { assert (rs + [r])[at[j]] == rs[at[j]]; }
  }

  lemma {:induction false} DefinedAre(rs: seq<Res>) returns (at: seq<nat>)
    requires AllSettled(rs)
    ensures ValuesAt(rs, at, Defined(Options(rs)))
  {
    if rs == [] {
      at := [];
    } else {
      var init, last := rs[..|rs| - 1], rs[|rs| - 1];
      assert rs == init + [last];
      at := DefinedAre(init);
      OptionsLast(rs);
      DefinedConcat(Options(init), [OptionOf(last)]);
      OneDefined(OptionOf(last));
      if last.Ok? {
        LaterValue(init, last, at, Defined(Options(init)));
        at := at + [|init|];
      } else {
        NoLaterValue(init, last, at, Defined(Options(init)));
        assert Defined(Options(init)) + [] == Defined(Options(init));
      }
    }
  }

  lemma {:induction false} OneDefined(v: Option<Val>)
    ensures Defined([v]) == if v.Some? then [v.value] else []
  {
    assert [v][1..] == [];
    assert Defined([v]) == (if v.Some? then [v.value] else []) + [];
  }

  // ---------- arrays and concatenations ----------

  /** The elements of a resolved array are what those elements come to that are not
      undefined, all of them and in order. */
  lemma {:induction false} ArrayElements(c: Ctx, fuel: nat, es: seq<Val>) returns (at: seq<nat>)
    requires AllSettled(Results(c, fuel, es))
    ensures var r := ResolveVal(c, fuel, Arr(es));
            r.Ok? && r.v.Arr? && ValuesAt(Results(c, fuel, es), at, r.v.elems)
  {
    AllAre(c, fuel, es);
    at := DefinedAre(Results(c, fuel, es));
  }

  /** An array fails, or runs out of budget, with its first element that does. */
  lemma {:induction false} ArrayFails(c: Ctx, fuel: nat, es: seq<Val>, i: nat)
    requires FirstUnsettled(Results(c, fuel, es), i)
    ensures ResolveVal(c, fuel, Arr(es)) == Results(c, fuel, es)[i]
  {
    OneDecides(c, fuel, es, i);
  }

  /** A concatenation joins what its pieces come to, undefined ones left out. */
  lemma {:induction false} ConcatPieces(c: Ctx, fuel: nat, ps: seq<Val>, vs: seq<Option<Val>>)
    requires AllSettled(Results(c, fuel, ps)) && |vs| == |ps|
    requires forall i | 0 <= i < |ps| :: vs[i] == OptionOf(Results(c, fuel, ps)[i])
    ensures ResolveVal(c, fuel, Concat(ps)) == JoinConcat(vs)
  {
    AllAre(c, fuel, ps);
    assert vs == Options(Results(c, fuel, ps));
  }

  lemma {:induction false} ConcatFails(c: Ctx, fuel: nat, ps: seq<Val>, i: nat)
    requires FirstUnsettled(Results(c, fuel, ps), i)
    ensures ResolveVal(c, fuel, Concat(ps)) == Results(c, fuel, ps)[i]
  {
    OneDecides(c, fuel, ps, i);
  }

  // ---------- objects ----------

  /** What the fields of an object inside the tree come to. */
  ghost function FieldResults(c: Ctx, fuel: nat, o: Val, keys: seq<string>): (rs: seq<Res>)
    requires o.Obj?
    ensures |rs| == |keys|
  {
    seq(|keys|, i requires 0 <= i < |keys| => ResolveField(c, fuel, o, keys[i]))
  }

  ghost predicate FieldAt(keys: seq<string>, rs: seq<Res>, at: seq<nat>, r: Val, j: nat)
    requires |keys| == |rs| && r.Obj? && j < |at| && j < |r.keys|
  {
    at[j] < |keys| && r.keys[j] == keys[at[j]] && r.keys[j] in r.vals && rs[at[j]] == Ok(r.vals[r.keys[j]])
  }

  ghost predicate FieldsAt(keys: seq<string>, rs: seq<Res>, at: seq<nat>, r: Val)
    requires |keys| == |rs|
  {
    && Positions(rs, at) && r.Obj? && r.priors == map[] && |r.keys| == |at|
    && (forall j | 0 <= j < |at| :: FieldAt(keys, rs, at, r, j))
    && (forall k | k in r.vals :: k in r.keys)
  }

  lemma {:induction false} NotThereYet(keys: seq<string>, rs: seq<Res>, at: seq<nat>, r: Val, k: string)
    requires |keys| == |rs| && FieldsAt(keys, rs, at, r) && k !in keys
    ensures k !in r.keys && k !in r.vals
  {
    forall j | 0 <= j < |r.keys| ensures r.keys[j] != k { assert FieldAt(keys, rs, at, r, j); }
  }

  lemma {:induction false} StillAt(keys: seq<string>, rs: seq<Res>, at: seq<nat>, r: Val, k: string, x: Res, j: nat)
    requires |keys| == |rs| && r.Obj? && j < |at| && |r.keys| == |at| && FieldAt(keys, rs, at, r, j) && r.keys[j] != k
    ensures FieldAt(keys + [k], rs + [x], at, r, j)
    ensures x.Ok? && k !in r.vals ==> FieldAt(keys + [k], rs + [x], at + [|rs|], Set(r, k, x.v), j)
  {
  }

  lemma {:induction false} NextField(keys: seq<string>, rs: seq<Res>, at: seq<nat>, r: Val, k: string, x: Res)
    requires |keys| == |rs| && FieldsAt(keys, rs, at, r) && k !in keys && Settles(x)
    ensures FieldsAt(keys + [k], rs + [x], if x.Ok? then at + [|rs|] else at, if x.Ok? then Set(r, k, x.v) else r)
  {
    NextPosition(rs, x, at);
    NotThereYet(keys, rs, at, r, k);
    var to, o := if x.Ok? then at + [|rs|] else at, if x.Ok? then Set(r, k, x.v) else r;
    forall j | 0 <= j < |to| ensures FieldAt(keys + [k], rs + [x], to, o, j) {
      if j < |at| {
        assert FieldAt(keys, rs, at, r, j) && r.keys[j] in r.keys;
        StillAt(keys, rs, at, r, k, x, j);
      }
    }
    forall i | i in o.vals ensures i in o.keys {
      if i != k { assert i in r.keys; }
    }
  }

  lemma {:induction false} WalkFields(c: Ctx, fuel: nat, o: Val, done: seq<string>, keys: seq<string>, at: seq<nat>,
                                      acc: Val)
    returns (to: seq<nat>)
    requires o.Obj? && acc.Obj? && Distinct(done + keys) && AllSettled(FieldResults(c, fuel, o, done + keys))
    requires FieldsAt(done, FieldResults(c, fuel, o, done), at, acc)
    ensures var r := ResolveFields(c, fuel, o, keys, false, acc);
            r.Built? && FieldsAt(done + keys, FieldResults(c, fuel, o, done + keys), to, r.o)
    decreases |keys|
  {
    if keys == [] {
      assert done + keys == done;
      to := at;
    } else {
      var k, x := keys[0], ResolveField(c, fuel, o, keys[0]);
      var all := done + keys;
      assert all == (done + [k]) + keys[1..] && all[|done|] == k;
      assert FieldResults(c, fuel, o, all)[|done|] == x && Settles(x);
      assert forall i | 0 <= i < |done| :: all[i] == done[i] && all[i] != all[|done|];
      assert FieldResults(c, fuel, o, done + [k]) == FieldResults(c, fuel, o, done) + [x];
      NextField(done, FieldResults(c, fuel, o, done), at, acc, k, x);
      to := WalkFields(c, fuel, o, done + [k], keys[1..], if x.Ok? then at + [|done|] else at,
                       if x.Ok? then Set(acc, k, x.v) else acc);
    }
  }

  /** An object has what its fields come to, those that are not undefined, under the
      same keys and in the same order. */
  lemma {:induction false} ObjectFields(c: Ctx, fuel: nat, o: Val) returns (at: seq<nat>)
    requires o.Obj? && KeysMatch(o) && AllSettled(FieldResults(c, fuel, o, o.keys))
    ensures var r := ResolveVal(c, fuel, o);
            r.Ok? && FieldsAt(o.keys, FieldResults(c, fuel, o, o.keys), at, r.v)
  {
    NoFieldsYet(c, fuel, o);
    at := WalkFields(c, fuel, o, [], o.keys, [], EMPTY_OBJ);
    ObjectWalk(c, fuel, o);
  }

  lemma {:induction false} NoFieldsYet(c: Ctx, fuel: nat, o: Val)
    requires o.Obj?
    ensures FieldsAt([], FieldResults(c, fuel, o, []), [], EMPTY_OBJ) && [] + o.keys == o.keys
  {
  }

  lemma {:induction false} ObjectWalk(c: Ctx, fuel: nat, o: Val)
    requires o.Obj?
    ensures var r := ResolveFields(c, fuel, o, o.keys, false, EMPTY_OBJ);
            r.Built? ==> ResolveVal(c, fuel, o) == Ok(r.o)
  {
  }
}
