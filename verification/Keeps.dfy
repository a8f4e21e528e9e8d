/**
 Which assignments keep what lies below them, decided by the look of the value
 (foldOrSkipPrior in internal/resolver/foldselfref.go saves a value in place of the
 prior unless it takes the prior up).
 */
module Keeps {
  import opened Paths
  import opened Values
  import opened Merge
  import opened Concats
  import opened Resolve
  import opened Assignments
  import opened Layers
  import opened Chains
  import opened Walks
  import Joins

  predicate AllSeparators(ps: seq<Val>) {
    forall i | 0 <= i < |ps| :: IsSeparator(ps[i])
  }

  /** At most one piece, whitespace apart. */
  predicate AtMostOne(ps: seq<Val>) {
    ps == [] || (if IsSeparator(ps[0]) then AtMostOne(ps[1..]) else AllSeparators(ps[1..]))
  }

  /** A reference to the key is the last piece, or the last but one. */
  predicate TakesUp(ps: seq<Val>, k: string) {
    ps != [] && ((Bare(ps[0], k) && AtMostOne(ps[1..])) || TakesUp(ps[1..], k))
  }

  /** A scalar or an array hides what lies below; a reference to the key, or a
      concatenation with one near its end, takes it up. */
  predicate KeepsByForm(v: Val, k: string) {
    Firm(v) || Bare(v, k) || (v.Concat? && TakesUp(v.parts, k))
  }

  // ---------- concatenations ----------

  /** l has every key of b, and an object wherever b has one. */
  predicate Holds(l: Val, b: Val)
    requires l.Obj? && b.Obj?
    decreases b
  {
    forall j | j in b.vals :: j in l.vals && (b.vals[j].Obj? ==> l.vals[j].Obj? && Holds(l.vals[j], b.vals[j]))
  }

  lemma {:induction false} HoldsItself(b: Val)
    requires b.Obj?
    ensures Holds(b, b)
  {
    forall j | j in b.vals && b.vals[j].Obj? { HoldsItself(b.vals[j]); }
  }

  lemma {:induction false} HoldsCovers(l: Val, b: Val)
    requires l.Obj? && b.Obj? && Holds(l, b)
    ensures Covers(l, b)
    decreases b
  {
    forall j | j in b.vals && b.vals[j].Obj? { HoldsCovers(l.vals[j], b.vals[j]); }
  }

  lemma {:induction false} ConcatHolds(a: Val, b: Val)
    requires a.Obj? && b.Obj?
    ensures Holds(MergeObjectConcat(a, b), b)
    decreases b
  {
    var r := MergeObjectConcat(a, b);
    forall j | j in b.vals ensures j in r.vals && (b.vals[j].Obj? ==> r.vals[j].Obj? && Holds(r.vals[j], b.vals[j])) {
      ConcatValue(a, b, j);
      if b.vals[j].Obj? {
        HoldsItself(b.vals[j]);
        if j in a.vals && a.vals[j].Obj? { ConcatHolds(a.vals[j], b.vals[j]); }
      }
    }
  }

  lemma {:induction false} ConcatCovers(l: Val, c: Val, b: Val)
    requires l.Obj? && c.Obj? && b.Obj? && Holds(l, b)
    ensures Covers(MergeObjectConcat(l, c), b)
    decreases b
  {
    var r := MergeObjectConcat(l, c);
    forall j | j in b.vals ensures j in r.vals && (r.vals[j].Obj? && b.vals[j].Obj? ==> Covers(r.vals[j], b.vals[j])) {
      ConcatValue(l, c, j);
      if b.vals[j].Obj? {
        HoldsCovers(l.vals[j], b.vals[j]);
        if j in c.vals && c.vals[j].Obj? { ConcatCovers(l.vals[j], c.vals[j], b.vals[j]); }
      }
    }
  }

  lemma {:induction false} JoinSplit(acc: Val, vs: seq<Val>, us: seq<Val>)
    ensures JoinFrom(acc, vs + us) ==
            if JoinFrom(acc, vs).Ok? then JoinFrom(JoinFrom(acc, vs).v, us) else JoinFrom(acc, vs)
    decreases vs
  {
    if vs == [] {
      assert vs + us == us;
    } else {
      assert (vs + us)[0] == vs[0] && (vs + us)[1..] == vs[1..] + us;
      if JoinPair(acc, vs[0]).Some? { JoinSplit(JoinPair(acc, vs[0]).value, vs[1..], us); }
    }
  }

  lemma {:induction false} JoinOne(acc: Val, v: Val)
    ensures JoinFrom(acc, [v]) == if JoinPair(acc, v).Some? then Ok(JoinPair(acc, v).value) else Fail
  {
    assert [v][1..] == [];
  }

  /** One piece more. */
  lemma {:induction false} AfterIt(l: Val, b: Val, post: seq<Val>)
    requires |post| <= 1 && b.Obj? && (l.Obj? ==> Holds(l, b)) && !l.Scalar? && !l.Subst? && !l.Concat?
    ensures var r := JoinFrom(l, post); r.Ok? && r.v.Obj? ==> Covers(r.v, b)
  {
    if post == [] {
      if l.Obj? { HoldsCovers(l, b); }
    } else {
      assert post == [post[0]];
      JoinOne(l, post[0]);
      if l.Obj? && post[0].Obj? { ConcatCovers(l, post[0], b); }
    }
  }

  lemma {:induction false} JoinKeeps(pre: seq<Val>, b: Val, post: seq<Val>)
    requires b.Obj? && |post| <= 1
    ensures var all := pre + [b] + post;
            var r := JoinFrom(all[0], all[1..]);
            r.Ok? && r.v.Obj? ==> Covers(r.v, b)
  {
    var all := pre + [b] + post;
    HoldsItself(b);
    if pre == [] {
      assert all[0] == b && all[1..] == post;
      AfterIt(b, b, post);
    } else {
      assert all[0] == pre[0] && all[1..] == pre[1..] + [b] + post;
      JoinSplit(pre[0], pre[1..] + [b], post);
      JoinSplit(pre[0], pre[1..], [b]);
      var acc := JoinFrom(pre[0], pre[1..]);
      if acc.Ok? {
        JoinOne(acc.v, b);
        if acc.v.Obj? { ConcatHolds(acc.v, b); }
        if JoinPair(acc.v, b).Some? { AfterIt(JoinPair(acc.v, b).value, b, post); }
      }
    }
  }

  /** Whitespace gives no piece, and at most one piece gives at most one. */
  lemma {:induction false} FewPieces(lt: LetterTest, env: Env, ps: seq<Val>, below: Option<Res>)
    requires AtMostOne(ps) && LayerValues(lt, env, ps, below).Vals?
    ensures |Meaningful(LayerValues(lt, env, ps, below).vs)| <= 1
    ensures AllSeparators(ps) ==> Meaningful(LayerValues(lt, env, ps, below).vs) == []
    decreases ps
  {
    if ps != [] {
      var rest := LayerValues(lt, env, ps[1..], below).vs;
      assert LayerValues(lt, env, ps, below).vs[1..] == rest;
      if AllSeparators(ps[1..]) { SeparatorsAreFew(ps[1..]); }
      FewPieces(lt, env, ps[1..], below);
      if AllSeparators(ps) { assert ps[1..] == [] || IsSeparator(ps[1..][0]); }
    }
  }

  lemma {:induction false} SeparatorsAreFew(ps: seq<Val>)
    requires AllSeparators(ps)
    ensures AtMostOne(ps)
  {
    if ps != [] { SeparatorsAreFew(ps[1..]); }
  }

  /** The value below is one of the pieces, with at most one behind it. */
  lemma {:induction false} BelowIsPiece(lt: LetterTest, env: Env, ps: seq<Val>, k: string, b: Val)
    returns (pre: seq<Val>, post: seq<Val>)
    requires k !in env && TakesUp(ps, k) && b.Obj? && LayerValues(lt, env, ps, Some(Ok(b))).Vals?
    ensures |post| <= 1 && Meaningful(LayerValues(lt, env, ps, Some(Ok(b))).vs) == pre + [b] + post
    decreases ps
  {
    var below := Some(Ok(b));
    var first, rest := OptionOf(LayerValue(lt, env, ps[0], below)), LayerValues(lt, env, ps[1..], below).vs;
    var here := if first.Some? && !IsSeparator(first.value) then [first.value] else [];
    assert LayerValues(lt, env, ps, below).vs == [first] + rest && ([first] + rest)[1..] == rest;
    if Bare(ps[0], k) && AtMostOne(ps[1..]) {
      FewPieces(lt, env, ps[1..], below);
      pre, post := [], Meaningful(rest);
      assert here == [b] && here + post == pre + [b] + post;
    } else {
      var p;
      p, post := BelowIsPiece(lt, env, ps[1..], k, b);
      pre := here + p;
      assert here + (p + [b] + post) == pre + [b] + post;
    }
  }

  /** A reference near the end: undefined only where the layer below is, failing
      where it fails. */
  lemma {:induction false} TakesUpRest(lt: LetterTest, env: Env, ps: seq<Val>, k: string, below: Res)
    requires k !in env && TakesUp(ps, k) && !below.Diverge?
    ensures below.Fail? ==> !LayerValues(lt, env, ps, Some(below)).Vals?
    ensures below.Ok? && LayerValues(lt, env, ps, Some(below)).Vals? ==>
              exists i | 0 <= i < |ps| :: LayerValues(lt, env, ps, Some(below)).vs[i] == Some(below.v)
    decreases ps
  {
    if !(Bare(ps[0], k) && AtMostOne(ps[1..])) { TakesUpRest(lt, env, ps[1..], k, below); }
    var r := LayerValues(lt, env, ps, Some(below));
    if r.Vals? && below.Ok? {
      if Bare(ps[0], k) && AtMostOne(ps[1..]) {
        assert LayerValue(lt, env, ps[0], Some(below)) == below;
        assert r.vs == [Some(below.v)] + LayerValues(lt, env, ps[1..], Some(below)).vs;
        assert r.vs[0] == Some(below.v);
      } else {
        var i :| 0 <= i < |ps[1..]| && LayerValues(lt, env, ps[1..], Some(below)).vs[i] == Some(below.v);
        assert r.vs[i + 1] == Some(below.v);
      }
    }
  }

  lemma {:induction false} SomethingThere(vs: seq<Option<Val>>, i: nat)
    requires i < |vs| && vs[i].Some?
    ensures JoinConcat(vs) != Absent
  {
    JoinEnds(vs);
    if Meaningful(vs) == [] { NothingMeaningful(vs, i); }
  }

  lemma {:induction false} NothingMeaningful(vs: seq<Option<Val>>, i: nat)
    requires i < |vs| && vs[i].Some? && Meaningful(vs) == []
    ensures IsSeparator(vs[i].value)
  {
    if i > 0 { NothingMeaningful(vs[1..], i - 1); }
  }

  // ---------- a reference further from the end ----------

  /** { j { x = text } } */
  function Nested(j: string, x: string, text: string): (r: Val)
    ensures r.Obj?
  {
    Obj([j], map[j := Obj([x], map[x := Text(text)], map[])], map[])
  }

  /** { j = text } */
  function Flat(j: string, text: string): (r: Val)
    ensures r.Obj?
  {
    Obj([j], map[j := Text(text)], map[])
  }

  /** k = ${k} { j = 1 } { j { y = 2 } }  over  { j { x = 1 } }  hides x for good: the
      second piece drops it, the third makes j an object again. */
  lemma {:induction false} FarReferenceHides(j: string, x: string, y: string)
    requires x != y
    ensures var b := Nested(j, x, "1");
            var r := JoinConcat([Some(b), Some(Flat(j, "1")), Some(Nested(j, y, "2"))]);
            r.Ok? && r.v.Obj? && !Covers(r.v, b)
  {
    var b, c, d := Nested(j, x, "1"), Flat(j, "1"), Nested(j, y, "2");
    var vs := [Some(b), Some(c), Some(d)];
    assert vs[1..] == [Some(c), Some(d)] && vs[1..][1..] == [Some(d)] && vs[1..][1..][1..] == [];
    assert Meaningful([Some(d)]) == [d] by { assert [d] + [] == [d]; }
    assert Meaningful(vs[1..]) == [c, d] by { assert [c] + [d] == [c, d]; }
    assert Meaningful(vs) == [b, c, d] by { assert [b] + [c, d] == [b, c, d]; }
    var bc := MergeObjectConcat(b, c);
    ConcatValue(b, c, j);
    ConcatValue(bc, d, j);
    assert [b, c, d][0].Obj? && [b, c, d][1..] == [c, d] && [c, d][1..] == [d] && [d][1..] == [];
    assert JoinFrom(bc, [d]) == Ok(MergeObjectConcat(bc, d));
    assert JoinConcat(vs) == Ok(MergeObjectConcat(bc, d));
    assert j in b.vals && x in b.vals[j].vals;
  }

  // ---------- decided by form ----------

  lemma {:induction false} ConcatKeeps(lt: LetterTest, env: Env, v: Val, k: string, below: Option<Res>)
    requires k !in env && v.Concat? && TakesUp(v.parts, k) && ConcreteLayer(below)
    ensures Shows(LayerValue(lt, env, v, below), below)
  {
    if below.Some? {
      TakesUpRest(lt, env, v.parts, k, below.value);
      var r := LayerValues(lt, env, v.parts, below);
      if r.Vals? && below.value.Ok? {
        var i :| 0 <= i < |v.parts| && r.vs[i] == Some(below.value.v);
        SomethingThere(r.vs, i);
        if below.value.v.Obj? {
          var pre, post := BelowIsPiece(lt, env, v.parts, k, below.value.v);
          JoinKeeps(pre, below.value.v, post);
        }
      }
    }
  }

  /** Such a value keeps the layer below it, whatever that is. */
  lemma {:induction false} FormKeeps(lt: LetterTest, env: Env, v: Val, k: string, below: Option<Res>)
    requires k !in env && KeepsByForm(v, k) && ConcreteLayer(below)
    ensures Shows(LayerValue(lt, env, v, below), below)
  {
    if v.Concat? {
      ConcatKeeps(lt, env, v, k, below);
    } else if v.Subst? {
      if below.Some? { ShowsItself(below.value); }
    }
  }

  /** Every overwritten value is merged at once, keeps by its form, or is an object
      literal with nothing below it, or only a scalar. */
  predicate KeptByForm(k: string, vs: seq<Val>) {
    vs == [] ||
    (&& KeptByForm(k, vs[..|vs| - 1])
     && (|vs| == 1 || Merged(vs) || KeepsByForm(vs[|vs| - 1], k) || (vs[|vs| - 1].Obj? && vs[|vs| - 2].Scalar?)))
  }

  /** A chain in which every save can be seen to keep what lies below. */
  lemma {:induction false} FormsAreKept(lt: LetterTest, env: Env, k: string, vs: seq<Val>)
    requires DataEnv(env) && k !in env && AllRaw(lt, env, k, vs) && KeptByForm(k, vs)
    ensures Kept(lt, env, k, vs)
  {
    if vs != [] {
      var us, v := vs[..|vs| - 1], vs[|vs| - 1];
      FormsAreKept(lt, env, k, us);
      StackIsConcrete(lt, env, k, us);
      if KeepsByForm(v, k) {
        FormKeeps(lt, env, v, k, Stacked(lt, env, k, us));
      } else if |vs| > 1 && !Merged(vs) {
        assert us[|us| - 1].Scalar?;
        LiteralOverScalar(lt, env, k, us, v);
      }
    }
  }

  lemma {:induction false} LiteralOverScalar(lt: LetterTest, env: Env, k: string, us: seq<Val>, v: Val)
    requires us != [] && us[|us| - 1].Scalar? && v.Obj?
    ensures var below := Stacked(lt, env, k, us); Shows(LayerValue(lt, env, v, below), below)
  {
    var below := Stacked(lt, env, k, us);
    Joins.NeverAbsent(lt, env, v, v.keys, below, EMPTY_OBJ);
  }

  /** An object literal over an object that is not one yet keeps it exactly when it
      covers it, or fails. */
  lemma {:induction false} LiteralKeepsExactly(lt: LetterTest, env: Env, k: string, us: seq<Val>, v: Val, b: Val)
    requires us != [] && !us[|us| - 1].Obj? && v.Obj? && Stacked(lt, env, k, us) == Some(Ok(b)) && b.Obj?
    ensures var x := LayerValue(lt, env, v, Some(Ok(b)));
            KeepsLayer(lt, env, k, us + [v]) <==> (x.Ok? ==> x.v.Obj? && Covers(x.v, b))
  {
    assert (us + [v])[..|us + [v]| - 1] == us;
    Joins.NeverAbsent(lt, env, v, v.keys, Some(Ok(b)), EMPTY_OBJ);
  }

  /** For literals of data that is decided by the two values alone. */
  lemma {:induction false} DataKeepsExactly(lt: LetterTest, env: Env, k: string, us: seq<Val>, v: Val, b: Val)
    requires us != [] && !us[|us| - 1].Obj? && v.Obj? && Concrete(v) && Stacked(lt, env, k, us) == Some(Ok(b)) && b.Obj?
    ensures KeepsLayer(lt, env, k, us + [v]) <==> Covers(v, b)
  {
    ConcreteLayerValue(lt, env, v, Some(Ok(b)));
    LiteralKeepsExactly(lt, env, k, us, v, b);
  }

  /** Documents in which this can be seen at every key: building and resolving them is
      the layer-by-layer evaluation. */
  lemma {:induction false} PlainChainsAreLayers(lt: LetterTest, env: Env, fields: seq<Field>, fuel: nat)
    requires EnvOf(env, fields) && Links(lt, env, fields) && NoMistakenKey(lt, AssignAll(lt, fields).obj) && fuel > 1
    requires forall k | k !in env :: var vs := AssignedTo(fields, k); vs != [] ==> KeptByForm(k, vs[..|vs| - 1])
    requires forall k :: ChainFits(lt, env, fields, k)
    ensures Gives(ResolveTree(lt, AssignAll(lt, fields).obj, fuel), KeysOf(fields), LayeredAll(lt, env, fields))
  {
    forall k ensures ChainKept(lt, env, fields, k) {
      var vs := AssignedTo(fields, k);
      if k !in env && vs != [] { FormsAreKept(lt, env, k, vs[..|vs| - 1]); }
    }
    ChainsAreLayers(lt, env, fields, fuel);
  }
}
