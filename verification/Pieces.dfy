/**
 What a value concatenation comes to, told from its pieces one by one
 (resolveConcat, joinPair and concatStrings in internal/resolver/resolver.go):
 text is kept with the whitespace between its pieces, containers are joined pair
 by pair with that whitespace dropped.
 */
module Pieces {
  import opened Paths
  import opened Values
  import opened Fold
  import opened Merge
  import opened Concats

  predicate Container(v: Val) {
    v.Arr? || v.Obj?
  }

  /** Scalars, whitespace and undefined pieces. */
  predicate OnlyText(vs: seq<Option<Val>>) {
    forall i | 0 <= i < |vs| :: vs[i].Some? ==> vs[i].value.Scalar?
  }

  // ---------- text ----------

  /** Two results of text, one behind the other. */
  function Both(a: Res, b: Res): Res {
    if a.Absent? then b
    else if b.Absent? then a
    else if a.Ok? && b.Ok? && a.v.Scalar? && b.v.Scalar? then Ok(Text(a.v.raw + b.v.raw))
    else Fail
  }

  lemma {:induction false} MeaningfulText(vs: seq<Option<Val>>)
    requires OnlyText(vs)
    ensures forall i | 0 <= i < |Meaningful(vs)| :: Meaningful(vs)[i].Scalar?
    ensures Meaningful(vs) != [] || HasSeparator(vs) <==> exists i | 0 <= i < |vs| :: vs[i].Some?
  {
    if vs != [] {
      MeaningfulText(vs[1..]);
      if HasSeparator(vs) && !(vs[0].Some? && IsSeparator(vs[0].value)) {
        var i :| 0 <= i < |vs| && vs[i].Some? && IsSeparator(vs[i].value);
        assert vs[1..][i - 1] == vs[i];
      }
      if i :| 0 <= i < |vs[1..]| && vs[1..][i].Some? {
        assert vs[i + 1].Some?;
      }
      if i :| 0 <= i < |vs| && vs[i].Some? && i > 0 {
        assert vs[1..][i - 1].Some?;
      }
      if HasSeparator(vs[1..]) {
        var i :| 0 <= i < |vs[1..]| && vs[1..][i].Some? && IsSeparator(vs[1..][i].value);
        assert vs[i + 1].Some? && IsSeparator(vs[i + 1].value);
      }
    }
  }

  lemma {:induction false} TextIs(vs: seq<Option<Val>>)
    requires OnlyText(vs)
    ensures JoinConcat(vs) ==
            if exists i | 0 <= i < |vs| :: vs[i].Some? then Ok(Text(ConcatStrings(vs))) else Absent
  {
    MeaningfulText(vs);
  }

  lemma {:induction false} StringsConcat(a: seq<Option<Val>>, b: seq<Option<Val>>)
    ensures ConcatStrings(a + b) == ConcatStrings(a) + ConcatStrings(b)
  {
    if a == [] {
      assert a + b == b && "" + ConcatStrings(b) == ConcatStrings(b);
    } else {
      assert (a + b)[1..] == a[1..] + b;
      StringsConcat(a[1..], b);
    }
  }

  lemma {:induction false} NothingWritten(vs: seq<Option<Val>>)
    requires forall i | 0 <= i < |vs| :: vs[i].None?
    ensures ConcatStrings(vs) == ""
  {
    if vs != [] { NothingWritten(vs[1..]); }
  }

  lemma {:induction false} SomewhereInConcat(a: seq<Option<Val>>, b: seq<Option<Val>>)
    ensures (exists i | 0 <= i < |a + b| :: (a + b)[i].Some?) <==>
            (exists i | 0 <= i < |a| :: a[i].Some?) || (exists i | 0 <= i < |b| :: b[i].Some?)
  {
    if i :| 0 <= i < |a + b| && (a + b)[i].Some? {
      if i >= |a| { assert b[i - |a|].Some?; }
    }
    if i :| 0 <= i < |a| && a[i].Some? {
      assert (a + b)[i].Some?;
    }
    if i :| 0 <= i < |b| && b[i].Some? {
      assert (a + b)[|a| + i].Some?;
    }
  }

  /** Text splits anywhere: what the two halves come to is written one after the other. */
  lemma {:induction false} TextSplits(a: seq<Option<Val>>, b: seq<Option<Val>>)
    requires OnlyText(a) && OnlyText(b)
    ensures JoinConcat(a + b) == Both(JoinConcat(a), JoinConcat(b))
  {
    TextIs(a);
    TextIs(b);
    assert OnlyText(a + b);
    TextIs(a + b);
    StringsConcat(a, b);
    SomewhereInConcat(a, b);
    if JoinConcat(a).Absent? {
      NothingWritten(a);
      assert "" + ConcatStrings(b) == ConcatStrings(b);
    }
    if JoinConcat(b).Absent? {
      NothingWritten(b);
      assert ConcatStrings(a) + "" == ConcatStrings(a);
    }
  }

  /** A single piece of text is its raw text, whitespace between pieces too. */
  lemma {:induction false} OnePiece(raw: string, typ: ScalarType, separator: bool)
    ensures JoinConcat([Some(Scalar(raw, typ, separator))]) == Ok(Text(raw))
    ensures JoinConcat([None]) == Absent && JoinConcat([]) == Absent
  {
    var v := Scalar(raw, typ, separator);
    var vs := [Some(v)];
    assert OnlyText(vs) && vs[0].Some? && vs[1..] == [] && raw + "" == raw;
    TextIs(vs);
    var none: seq<Option<Val>> := [None];
    assert none[1..] == [] && Meaningful(none) == [] + [];
  }

  // ---------- containers ----------

  /** Nothing but undefined pieces and whitespace. */
  predicate Empty(vs: seq<Option<Val>>) {
    forall i | 0 <= i < |vs| :: vs[i].Some? ==> IsSeparator(vs[i].value)
  }

  lemma {:induction false} MeaningfulConcat(a: seq<Option<Val>>, b: seq<Option<Val>>)
    ensures Meaningful(a + b) == Meaningful(a) + Meaningful(b)
  {
    if a == [] {
      assert a + b == b && [] + Meaningful(b) == Meaningful(b);
    } else {
      assert (a + b)[1..] == a[1..] + b;
      MeaningfulConcat(a[1..], b);
      Assoc(if a[0].Some? && !IsSeparator(a[0].value) then [a[0].value] else [], Meaningful(a[1..]), Meaningful(b));
    }
  }

  lemma {:induction false} EmptyMeans(vs: seq<Option<Val>>)
    ensures Meaningful(vs) == [] <==> Empty(vs)
  {
    if vs != [] {
      EmptyMeans(vs[1..]);
      if Empty(vs[1..]) && !(vs[0].Some? && !IsSeparator(vs[0].value)) {
        forall i | 0 <= i < |vs| && vs[i].Some? ensures IsSeparator(vs[i].value) {
          if i > 0 { assert vs[1..][i - 1] == vs[i]; }
        }
      }
      if Empty(vs) {
        forall i | 0 <= i < |vs[1..]| && vs[1..][i].Some? ensures IsSeparator(vs[1..][i].value) {
          assert vs[i + 1] == vs[1..][i];
        }
      }
    }
  }

  lemma {:induction false} JoinLast(acc: Val, vs: seq<Val>, v: Val)
    ensures JoinFrom(acc, vs + [v]) ==
            if !JoinFrom(acc, vs).Ok? then JoinFrom(acc, vs)
            else if JoinPair(JoinFrom(acc, vs).v, v).Some? then Ok(JoinPair(JoinFrom(acc, vs).v, v).value)
            else Fail
    decreases |vs|
  {
    if vs == [] {
      assert vs + [v] == [v] && [v][1..] == [];
    } else {
      assert (vs + [v])[1..] == vs[1..] + [v];
      if JoinPair(acc, vs[0]).Some? { JoinLast(JoinPair(acc, vs[0]).value, vs[1..], v); }
    }
  }

  /** What is neither defined nor text between containers does not matter. */
  lemma {:induction false} EmptyIsSkipped(vs: seq<Option<Val>>, us: seq<Option<Val>>)
    requires Empty(us) && HasContainer(Meaningful(vs))
    ensures JoinConcat(vs + us) == JoinConcat(vs) == JoinConcat(us + vs)
  {
    MeaningfulConcat(vs, us);
    MeaningfulConcat(us, vs);
    EmptyMeans(us);
    assert Meaningful(vs) + [] == Meaningful(vs) && [] + Meaningful(vs) == Meaningful(vs);
  }

  /** A container stands for itself, whatever is empty in front of it. */
  lemma {:induction false} FirstContainer(vs: seq<Option<Val>>, v: Val)
    requires Empty(vs) && Container(v)
    ensures JoinConcat(vs + [Some(v)]) == Ok(v)
  {
    MeaningfulConcat(vs, [Some(v)]);
    EmptyMeans(vs);
    OneMeaningful(v);
    assert [] + [v] == [v] && [v][0] == v && [v][1..] == [];
    assert Meaningful(vs + [Some(v)]) == [v] && HasContainer([v]);
  }

  lemma {:induction false} OneMeaningful(v: Val)
    requires !IsSeparator(v)
    ensures Meaningful([Some(v)]) == [v]
  {
    var vs := [Some(v)];
    assert vs[1..] == [] && [v] + [] == [v];
  }

  /** One more piece behind containers is joined with what they come to. */
  lemma {:induction false} NextPiece(vs: seq<Option<Val>>, v: Val)
    requires HasContainer(Meaningful(vs)) && !IsSeparator(v)
    ensures JoinConcat(vs + [Some(v)]) ==
            if !JoinConcat(vs).Ok? then JoinConcat(vs)
            else if JoinPair(JoinConcat(vs).v, v).Some? then Ok(JoinPair(JoinConcat(vs).v, v).value)
            else Fail
  {
    var m := Meaningful(vs);
    MeaningfulConcat(vs, [Some(v)]);
    OneMeaningful(v);
    var i :| 0 <= i < |m| && (m[i].Arr? || m[i].Obj?);
    assert (m + [v])[i] == m[i];
    assert (m + [v])[0] == m[0] && (m + [v])[1..] == m[1..] + [v];
    JoinLast(m[0], m[1..], v);
  }

  /** A container behind text is a type error. */
  lemma {:induction false} TextThenContainer(vs: seq<Option<Val>>, v: Val)
    requires OnlyText(vs) && !Empty(vs) && Container(v)
    ensures JoinConcat(vs + [Some(v)]) == Fail
  {
    var m := Meaningful(vs);
    MeaningfulConcat(vs, [Some(v)]);
    OneMeaningful(v);
    EmptyMeans(vs);
    MeaningfulText(vs);
    assert (m + [v])[|m|] == v;
    assert (m + [v])[0] == m[0] && (m + [v])[1..] == m[1..] + [v];
    ScalarsStayScalar(m[0], m[1..]);
    JoinLast(m[0], m[1..], v);
  }

  lemma {:induction false} ScalarsStayScalar(acc: Val, vs: seq<Val>)
    requires !Container(acc) && forall i | 0 <= i < |vs| :: vs[i].Scalar?
    ensures JoinFrom(acc, vs).Ok? && !Container(JoinFrom(acc, vs).v)
    decreases |vs|
  {
    if vs != [] {
      assert forall i | 0 <= i < |vs[1..]| :: vs[1..][i] == vs[i + 1];
      ScalarsStayScalar(JoinPair(acc, vs[0]).value, vs[1..]);
    }
  }

  // ---------- two containers ----------

  /** Two pieces with nothing but whitespace between them. */
  lemma {:induction false} TwoPieces(a: Val, gap: seq<Option<Val>>, b: Val)
    requires Container(a) && !IsSeparator(b) && Empty(gap)
    ensures JoinConcat([Some(a)] + gap + [Some(b)]) == if JoinPair(a, b).Some? then Ok(JoinPair(a, b).value) else Fail
  {
    var vs := [Some(a)];
    FirstContainer([], a);
    assert [] + [Some(a)] == vs;
    OneMeaningful(a);
    assert Meaningful(vs)[0] == a;
    EmptyIsSkipped(vs, gap);
    MeaningfulConcat(vs, gap);
    EmptyMeans(gap);
    assert [a] + [] == [a];
    assert HasContainer(Meaningful(vs + gap)) by { assert Meaningful(vs + gap)[0] == a; }
    NextPiece(vs + gap, b);
  }

  /** Two arrays: the elements of the first, then those of the second. */
  lemma {:induction false} ArraysJoin(es: seq<Val>, gap: seq<Option<Val>>, fs: seq<Val>)
    requires Empty(gap)
    ensures JoinConcat([Some(Arr(es))] + gap + [Some(Arr(fs))]) == Ok(Arr(es + fs))
  {
    TwoPieces(Arr(es), gap, Arr(fs));
  }

  /** Two objects: at every key the second wins, objects are joined in turn, and the
      keys of the first come first. */
  lemma {:induction false} ObjectsJoin(a: Val, gap: seq<Option<Val>>, b: Val)
    requires a.Obj? && b.Obj? && Empty(gap)
    ensures var r := JoinConcat([Some(a)] + gap + [Some(b)]);
            && r.Ok? && r.v.Obj? && r.v.priors == map[] && r.v.keys == a.keys + NewKeys(a, b.keys)
            && r.v.vals.Keys == a.vals.Keys + b.vals.Keys
            && forall k | k in r.v.vals ::
                 if k !in b.vals then r.v.vals[k] == a.vals[k]
                 else if k in a.vals && a.vals[k].Obj? && b.vals[k].Obj?
                 then Ok(r.v.vals[k]) == JoinConcat([Some(a.vals[k])] + gap + [Some(b.vals[k])])
                 else r.v.vals[k] == b.vals[k]
  {
    TwoPieces(a, gap, b);
    var r := MergeObjectConcat(a, b);
    forall k | k in r.vals
      ensures if k !in b.vals then r.vals[k] == a.vals[k]
              else if k in a.vals && a.vals[k].Obj? && b.vals[k].Obj?
              then Ok(r.vals[k]) == JoinConcat([Some(a.vals[k])] + gap + [Some(b.vals[k])])
              else r.vals[k] == b.vals[k] {
      ConcatValue(a, b, k);
      if k in a.vals && k in b.vals && a.vals[k].Obj? && b.vals[k].Obj? { TwoPieces(a.vals[k], gap, b.vals[k]); }
    }
  }

  /** An object behind an array, or in front of it, gives the values of its integer
      keys by ascending number, in its place; without one it is a type error. */
  lemma {:induction false} ArrayBesideObject(es: seq<Val>, gap: seq<Option<Val>>, o: Val)
    requires o.Obj? && KeysMatch(o) && Empty(gap)
    ensures var behind := JoinConcat([Some(Arr(es))] + gap + [Some(o)]);
            var before := JoinConcat([Some(o)] + gap + [Some(Arr(es))]);
            if forall k | k in o.vals :: !Eligible(k) then behind == Fail && before == Fail
            else exists order, fs ::
              ListsInOrder(o, order, fs) && behind == Ok(Arr(es + fs)) && before == Ok(Arr(fs + es))
  {
    TwoPieces(Arr(es), gap, o);
    TwoPieces(o, gap, Arr(es));
    NumericToArrayIs(o);
    if exists k :: k in o.vals && Eligible(k) {
      var fs := NumericToArray(o).value.elems;
      assert ListsInOrder(o, SortByValue(EligibleKeys(o.keys)), fs);
    }
  }

  /** A container beside text is a type error. */
  lemma {:induction false} ContainerThenText(a: Val, gap: seq<Option<Val>>, raw: string, typ: ScalarType)
    requires Container(a) && Empty(gap)
    ensures JoinConcat([Some(a)] + gap + [Some(Scalar(raw, typ, false))]) == Fail
  {
    TwoPieces(a, gap, Scalar(raw, typ, false));
  }
}
