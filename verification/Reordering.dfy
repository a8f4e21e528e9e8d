/**
 Values whose objects list their fields in another order, at any depth: merging,
 joining and settling them gives such values again.
 */
module Reordering {
  import opened Paths
  import opened Values
  import opened Merge
  import opened MergeLaws
  import opened Concats
  import opened Resolve
  import opened ResolveLaws

  ghost predicate BothOrNone(a: Option<Val>, b: Option<Val>) {
    (a.Some? <==> b.Some?) && (a.Some? ==> Reordered(a.value, b.value))
  }

  lemma {:induction false} ReorderedTransitive(a: Val, b: Val, c: Val)
    requires Reordered(a, b) && Reordered(b, c)
    ensures Reordered(a, c)
  {
    match a
    case Arr(es) => forall i | 0 <= i < |es| { ReorderedTransitive(es[i], b.elems[i], c.elems[i]); }
    case Concat(ps) => forall i | 0 <= i < |ps| { ReorderedTransitive(ps[i], b.parts[i], c.parts[i]); }
    case Obj(_, vals, priors) =>
      forall k | k in vals { ReorderedTransitive(vals[k], b.vals[k], c.vals[k]); }
      forall k | k in priors { ReorderedTransitive(priors[k], b.priors[k], c.priors[k]); }
    case _ =>
  }

  lemma {:induction false} ReorderedSymmetric(a: Val, b: Val)
    requires Reordered(a, b)
    ensures Reordered(b, a)
  {
    match a
    case Arr(es) => forall i | 0 <= i < |es| { ReorderedSymmetric(es[i], b.elems[i]); }
    case Concat(ps) => forall i | 0 <= i < |ps| { ReorderedSymmetric(ps[i], b.parts[i]); }
    case Obj(_, vals, priors) =>
      forall k | k in vals { ReorderedSymmetric(vals[k], b.vals[k]); }
      forall k | k in priors { ReorderedSymmetric(priors[k], b.priors[k]); }
    case _ =>
  }

  // ---------- merges and joins ----------

  lemma {:induction false} ConcatReordered(a: Val, b: Val, c: Val, d: Val)
    requires a.Obj? && c.Obj? && Reordered(a, b) && Reordered(c, d)
    ensures Reordered(MergeObjectConcat(a, c), MergeObjectConcat(b, d))
  {
    var l, r := MergeObjectConcat(a, c), MergeObjectConcat(b, d);
    forall k ensures BothOrNone(Get(l.vals, k), Get(r.vals, k)) {
      ConcatValue(a, c, k);
      ConcatValue(b, d, k);
      if k in a.vals && k in c.vals && a.vals[k].Obj? && c.vals[k].Obj? {
        ConcatReordered(a.vals[k], b.vals[k], c.vals[k], d.vals[k]);
      }
    }
    assert forall k :: k in l.vals <==> k in r.vals by {
      forall k ensures k in l.vals <==> k in r.vals {
        assert BothOrNone(Get(l.vals, k), Get(r.vals, k));
      }
    }
    forall k | k in l.vals ensures Reordered(l.vals[k], r.vals[k]) {
      assert BothOrNone(Get(l.vals, k), Get(r.vals, k));
    }
  }

  lemma {:induction false} DeepReordered(lt: LetterTest, a: Val, b: Val, c: Val, d: Val)
    requires a.Obj? && c.Obj? && Reordered(a, b) && Reordered(c, d)
    requires Concrete(a) && Concrete(b) && Concrete(c) && Concrete(d)
    ensures Reordered(DeepMerge(lt, a, c), DeepMerge(lt, b, d))
  {
    DeepMergeIsConcat(lt, a, c, []);
    DeepMergeIsConcat(lt, b, d, []);
    ConcatReordered(c, d, a, b);
    ReorderedSymmetric(DeepMerge(lt, b, d), MergeObjectConcat(d, b));
    ReorderedTransitive(DeepMerge(lt, a, c), MergeObjectConcat(c, a), MergeObjectConcat(d, b));
    ReorderedTransitive(DeepMerge(lt, a, c), MergeObjectConcat(d, b), DeepMerge(lt, b, d));
  }

  lemma {:induction false} NumericReordered(a: Val, b: Val)
    requires a.Obj? && Reordered(a, b) && KeysMatch(a) && KeysMatch(b)
    ensures BothOrNone(NumericToArray(a), NumericToArray(b))
  {
    EligibleKeysAre(a.keys);
    EligibleKeysAre(b.keys);
    var l, r := EligibleKeys(a.keys), EligibleKeys(b.keys);
    SortIsAscending(l);
    SortIsAscending(r);
    assert forall k :: k in a.keys <==> k in b.keys by {
      assert forall k :: k in a.keys <==> k in a.vals;
      assert forall k :: k in b.keys <==> k in b.vals;
    }
    AscendingIsUnique(SortByValue(l), SortByValue(r));
    ReorderedItself(EMPTY_OBJ);
  }

  lemma {:induction false} ListsReordered(a: seq<Val>, b: seq<Val>, c: seq<Val>, d: seq<Val>)
    requires Reordered(Arr(a), Arr(b)) && Reordered(Arr(c), Arr(d))
    ensures Reordered(Arr(a + c), Arr(b + d))
  {
    forall i | 0 <= i < |a + c| ensures Reordered((a + c)[i], (b + d)[i]) {
      if i < |a| {
        assert Reordered(a[i], b[i]);
      } else {
        assert Reordered(c[i - |a|], d[i - |a|]);
      }
    }
  }

  lemma {:induction false} JoinPairReordered(a: Val, b: Val, c: Val, d: Val)
    requires Reordered(a, b) && Reordered(c, d) && Concrete(a) && Concrete(b) && Concrete(c) && Concrete(d)
    ensures BothOrNone(JoinPair(a, c), JoinPair(b, d))
  {
    if a.Obj? && c.Obj? {
      ConcatReordered(a, b, c, d);
    } else if a.Arr? && c.Arr? {
      ListsReordered(a.elems, b.elems, c.elems, d.elems);
    } else if a.Obj? && c.Arr? {
      NumericReordered(a, b);
      if NumericToArray(a).Some? {
        ListsReordered(NumericToArray(a).value.elems, NumericToArray(b).value.elems, c.elems, d.elems);
      }
    } else if a.Arr? && c.Obj? {
      NumericReordered(c, d);
      if NumericToArray(c).Some? {
        ListsReordered(a.elems, b.elems, NumericToArray(c).value.elems, NumericToArray(d).value.elems);
      }
    }
  }

  ghost predicate SameRes(a: Res, b: Res) {
    match a
    case Ok(v) => b.Ok? && Reordered(v, b.v) && Concrete(v) && Concrete(b.v)
    case _ => a == b && !a.Diverge?
  }

  ghost predicate SameList(a: seq<Val>, b: seq<Val>) {
    |a| == |b| && forall i | 0 <= i < |a| :: Reordered(a[i], b[i]) && Concrete(a[i]) && Concrete(b[i])
  }

  ghost predicate SameOptions(a: seq<Option<Val>>, b: seq<Option<Val>>) {
    && |a| == |b| && ConcreteOptions(a) && ConcreteOptions(b)
    && forall i | 0 <= i < |a| :: BothOrNone(a[i], b[i])
  }

  lemma {:induction false} JoinFromReordered(a: Val, b: Val, vs: seq<Val>, us: seq<Val>)
    requires Reordered(a, b) && Concrete(a) && Concrete(b) && SameList(vs, us)
    ensures SameRes(JoinFrom(a, vs), JoinFrom(b, us))
    decreases vs
  {
    if vs != [] {
      JoinPairReordered(a, b, vs[0], us[0]);
      JoinPairIsConcrete(a, vs[0]);
      JoinPairIsConcrete(b, us[0]);
      if JoinPair(a, vs[0]).Some? {
        JoinFromReordered(JoinPair(a, vs[0]).value, JoinPair(b, us[0]).value, vs[1..], us[1..]);
      }
    }
  }

  lemma {:induction false} SameListOneMore(v: Val, u: Val, a: seq<Val>, b: seq<Val>)
    requires SameList(a, b) && Reordered(v, u) && Concrete(v) && Concrete(u)
    ensures SameList([v] + a, [u] + b)
  {
  }

  lemma {:induction false} OptionHead(vs: seq<Option<Val>>, us: seq<Option<Val>>)
    requires SameOptions(vs, us) && vs != []
    ensures SameOptions(vs[1..], us[1..]) && BothOrNone(vs[0], us[0])
    ensures vs[0].Some? ==> Concrete(vs[0].value) && Concrete(us[0].value)
    ensures vs[0].Some? ==>
            IsSeparator(vs[0].value) == IsSeparator(us[0].value) && StringOf(vs[0].value) == StringOf(us[0].value)
  {
  }

  lemma {:induction false} DefinedReordered(vs: seq<Option<Val>>, us: seq<Option<Val>>)
    requires SameOptions(vs, us)
    ensures SameList(Defined(vs), Defined(us))
  {
    if vs != [] {
      OptionHead(vs, us);
      DefinedReordered(vs[1..], us[1..]);
      var a, b := Defined(vs[1..]), Defined(us[1..]);
      if vs[0].Some? {
        SameListOneMore(vs[0].value, us[0].value, a, b);
      } else {
        assert [] + a == a && [] + b == b;
      }
    }
  }

  lemma {:induction false} MeaningfulReordered(vs: seq<Option<Val>>, us: seq<Option<Val>>)
    requires SameOptions(vs, us)
    ensures SameList(Meaningful(vs), Meaningful(us))
  {
    if vs != [] {
      OptionHead(vs, us);
      MeaningfulReordered(vs[1..], us[1..]);
      var a, b := Meaningful(vs[1..]), Meaningful(us[1..]);
      if vs[0].Some? && !IsSeparator(vs[0].value) {
        SameListOneMore(vs[0].value, us[0].value, a, b);
      } else {
        assert [] + a == a && [] + b == b;
      }
    }
  }

  lemma {:induction false} StringsReordered(vs: seq<Option<Val>>, us: seq<Option<Val>>)
    requires SameOptions(vs, us)
    ensures ConcatStrings(vs) == ConcatStrings(us) && HasSeparator(vs) == HasSeparator(us)
  {
    if vs != [] {
      OptionHead(vs, us);
      StringsReordered(vs[1..], us[1..]);
      SeparatorHere(vs);
      SeparatorHere(us);
    }
  }

  lemma {:induction false} SeparatorHere(vs: seq<Option<Val>>)
    requires vs != []
    ensures HasSeparator(vs) <==> (vs[0].Some? && IsSeparator(vs[0].value)) || HasSeparator(vs[1..])
  {
    if HasSeparator(vs[1..]) {
      var i :| 0 <= i < |vs[1..]| && vs[1..][i].Some? && IsSeparator(vs[1..][i].value);
      assert vs[i + 1] == vs[1..][i];
    }
    if HasSeparator(vs) {
      var i :| 0 <= i < |vs| && vs[i].Some? && IsSeparator(vs[i].value);
      assert i > 0 ==> vs[1..][i - 1] == vs[i];
    }
  }

  lemma {:induction false} JoinReordered(vs: seq<Option<Val>>, us: seq<Option<Val>>)
    requires SameOptions(vs, us)
    ensures SameRes(JoinConcat(vs), JoinConcat(us))
  {
    MeaningfulReordered(vs, us);
    StringsReordered(vs, us);
    var a, b := Meaningful(vs), Meaningful(us);
    assert HasContainer(a) == HasContainer(b);
    if a != [] && HasContainer(a) {
      JoinFromReordered(a[0], b[0], a[1..], b[1..]);
    }
  }

  lemma {:induction false} SettleObjects(lt: LetterTest, a: Val, b: Val, p: Val, q: Val)
    requires a.Obj? && p.Obj? && Reordered(a, b) && Reordered(p, q)
    requires Concrete(a) && Concrete(b) && Concrete(p) && Concrete(q)
    ensures SameRes(Ok(DeepMerge(lt, a, p)), Ok(DeepMerge(lt, b, q)))
  {
    DeepReordered(lt, a, b, p, q);
    DeepMergeIsConcat(lt, a, p, []);
    DeepMergeIsConcat(lt, b, q, []);
  }

  lemma {:induction false} SettleReordered(lt: LetterTest, a: Res, b: Res, p: Res, q: Res)
    requires SameRes(a, b) && SameRes(p, q) && WantsPrior(a)
    ensures WantsPrior(b) && SameRes(Settle(lt, a, p), Settle(lt, b, q))
  {
    if a.Ok? && p.Ok? && p.v.Obj? {
      SettleObjects(lt, a.v, b.v, p.v, q.v);
    }
  }
}
