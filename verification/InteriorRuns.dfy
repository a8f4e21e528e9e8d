/**
 Arrays that grow inside object literals in a row, and a reference that the deep
 merge does not see because it stands inside an array.
 */
module InteriorRuns {
  import opened Paths
  import opened Values
  import opened Fold
  import opened MergeLaws
  import opened Concats
  import opened Resolve
  import opened ResolveLaws
  import opened Assignments
  import opened Layers
  import opened Interiors
  import Pieces

  // ---------- arrays ----------

  /** ${?o.l} [x] */
  function Added(o: string, l: string, id: nat, x: seq<Val>): Val {
    Concat([Subst(id, [o, l], true, false), Arr(x)])
  }

  /** An array, and arrays put behind it. */
  function Arrays(o: string, l: string, first: seq<Val>, more: seq<seq<Val>>): (vs: seq<Val>)
    ensures |vs| == |more| + 1
  {
    [Arr(first)] + seq(|more|, i requires 0 <= i < |more| => Added(o, l, i, more[i]))
  }

  function Flattened(more: seq<seq<Val>>): seq<Val> {
    if more == [] then [] else Flattened(more[..|more| - 1]) + more[|more| - 1]
  }

  ghost predicate AllData(more: seq<seq<Val>>) {
    forall i | 0 <= i < |more| :: ConcreteSeq(more[i])
  }

  lemma {:induction false} AddedIs(lt: LetterTest, o: string, l: string, id: nat, x: seq<Val>, es: seq<Val>)
    requires ConcreteSeq(x)
    ensures var v := Added(o, l, id, x);
            && Written(v, [o, l]) && Direct(v) && !Needs(v, [o, l]) && Looks(lt, v, [o, l])
            && ValueOver(lt, v, Some(Ok(Arr(es)))) == Ok(Arr(es + x)) && forall j :: ContainsId(v, j) <==> j == id
  {
    var v, s, a, below := Added(o, l, id, x), Subst(id, [o, l], true, false), Arr(x), Some(Ok(Arr(es)));
    var ps := v.parts;
    assert ps == [s, a] && ps[1..] == [a] && [a][1..] == [];
    DataBit(lt, a, [o, l], below);
    ConcreteHasNoSentinel(a);
    assert Bit(ps[0], [o, l]) && Bit(ps[1], [o, l]) && Direct(ps[0]) && Mentions(lt, ps[0], KeyOf(lt, [o, l]));
    forall j ensures ContainsId(v, j) <==> j == id {
      ConcreteHasNoId(a, j);
      assert ContainsId(ps[0], j) <==> j == id;
    }
    assert LayerValues(lt, map[], [a], below) == Vals([Some(a)]) by { assert [Some(a)] + [] == [Some(a)]; }
    assert LayerValues(lt, map[], ps, below) == Vals([Some(Arr(es)), Some(a)]) by {
      assert [Some(Arr(es))] + [Some(a)] == [Some(Arr(es)), Some(a)];
    }
    Pieces.ArraysJoin(es, [], x);
    assert [Some(Arr(es))] + [] + [Some(a)] == [Some(Arr(es)), Some(a)];
  }

  lemma {:induction false} ArraysAre(lt: LetterTest, o: string, l: string, first: seq<Val>, more: seq<seq<Val>>, i: nat)
    requires ConcreteSeq(first) && AllData(more) && i <= |more|
    ensures var v := Arrays(o, l, first, more)[i];
            Written(v, [o, l]) && !Needs(v, [o, l]) && (Looks(lt, v, [o, l]) ==> Direct(v))
    ensures forall j :: ContainsId(Arrays(o, l, first, more)[i], j) <==> i > 0 && j == i - 1
  {
    var v := Arrays(o, l, first, more)[i];
    if i == 0 {
      assert Concrete(v);
      DataBit(lt, v, [o, l], None);
      ConcreteHasNoSentinel(v);
      forall j ensures !ContainsId(v, j) { ConcreteHasNoId(v, j); }
    } else {
      assert v == Added(o, l, i - 1, more[i - 1]);
      AddedIs(lt, o, l, i - 1, more[i - 1], []);
    }
  }

  lemma {:induction false} ArraysSeen(lt: LetterTest, path: seq<string>, vs: seq<Val>)
    requires forall i | 0 <= i < |vs| :: Looks(lt, vs[i], path) ==> Direct(vs[i])
    ensures Seen(lt, path, vs)
  {
    if |vs| > 1 { ArraysSeen(lt, path, vs[..|vs| - 1]); }
  }

  lemma {:induction false} ArraysLayer(lt: LetterTest, o: string, l: string, first: seq<Val>, more: seq<seq<Val>>)
    requires ConcreteSeq(first) && AllData(more)
    ensures var vs, es := Arrays(o, l, first, more), first + Flattened(more);
            LayersBelow(lt, [o, l], vs) == Some(Ok(Arr(es))) && Layer(lt, [o, l], vs) == Ok(Arr(es))
  {
    var vs := Arrays(o, l, first, more);
    if more == [] {
      assert vs == [Arr(first)] && vs[..0] == [] && first + [] == first && Concrete(Arr(first));
      DataBit(lt, Arr(first), [o, l], None);
    } else {
      var init, x := more[..|more| - 1], more[|more| - 1];
      ArraysLayer(lt, o, l, first, init);
      assert vs[..|vs| - 1] == Arrays(o, l, first, init) && vs[|vs| - 1] == Added(o, l, |more| - 1, x);
      AddedIs(lt, o, l, |more| - 1, x, first + Flattened(init));
      Assoc(first, Flattened(init), x);
    }
  }

  /** For any number of literals o { l = [..] }, o { l = ${?o.l} [..] }, ..: the field is
      all their elements in order. */
  lemma {:induction false} ArraysAccumulate(lt: LetterTest, o: string, l: string, first: seq<Val>, more: seq<seq<Val>>,
                                            fuel: nat)
    requires ConcreteSeq(first) && AllData(more) && fuel > 2
    ensures ResolveTree(lt, AssignAll(lt, Rows(o, l, Arrays(o, l, first, more))).obj, fuel) ==
            Ok(Literal(o, Literal(l, Arr(first + Flattened(more)))))
  {
    var vs, path, all := Arrays(o, l, first, more), [o, l], first + Flattened(more);
    forall i | 0 <= i < |vs|
      ensures Written(vs[i], path) && (Looks(lt, vs[i], path) ==> Direct(vs[i])) &&
              forall j :: ContainsId(vs[i], j) <==> i > 0 && j == i - 1 {
      ArraysAre(lt, o, l, first, more, i);
    }
    ArraysSeen(lt, path, vs);
    ArraysLayer(lt, o, l, first, more);
    if |vs| > 1 {
      FinalIsLayer(lt, path, vs);
      EarlierArrays(lt, o, l, first, more, all);
    }
    RowsAreLayers(lt, o, l, vs, Arr(all), fuel);
  }

  lemma {:induction false} EarlierArrays(lt: LetterTest, o: string, l: string, first: seq<Val>, more: seq<seq<Val>>,
                                         all: seq<Val>)
    requires ConcreteSeq(first) && AllData(more) && more != []
    requires Final(lt, [o, l], Arrays(o, l, first, more)) == Ok(Arr(all))
    ensures Settles(Earlier(lt, [o, l], Arrays(o, l, first, more)))
  {
    var vs := Arrays(o, l, first, more);
    var init := vs[..|vs| - 1];
    var e := init[|init| - 1];
    if |more| == 1 {
      assert e == Arr(first) && Concrete(e);
      DataBit(lt, e, [o, l], Some(Ok(Arr(all))));
    } else {
      assert e == Added(o, l, |more| - 2, more[|more| - 2]);
      AddedIs(lt, o, l, |more| - 2, more[|more| - 2], all);
    }
  }

  // ---------- a reference inside an array ----------

  /** o { l = x }, o { l = ${?o.l} y }, o { l = [ ${?o.l} ] } */
  function Wrapped(o: string, l: string, x: seq<Val>, y: seq<Val>): seq<Val> {
    [Arr(x), Added(o, l, 0, y), Boxed(o, l)]
  }

  function Boxed(o: string, l: string): Val {
    Arr([Subst(1, [o, l], true, false)])
  }

  lemma {:induction false} BoxedIs(lt: LetterTest, o: string, l: string, es: seq<Val>)
    ensures var v := Boxed(o, l);
            && Written(v, [o, l]) && !Direct(v) && ValueOver(lt, v, Some(Ok(Arr(es)))) == Ok(Arr([Arr(es)]))
            && forall j :: ContainsId(v, j) <==> j == 1
  {
    var s, below := Subst(1, [o, l], true, false), Some(Ok(Arr(es)));
    assert [s][0] == s && [s][1..] == [] && Bit([s][0], [o, l]);
    assert LayerValues(lt, map[], [s], below) == Vals([Some(Arr(es))]) by {
      assert [Some(Arr(es))] + [] == [Some(Arr(es))];
    }
    var ds := [Some(Arr(es))];
    assert ds[1..] == [] && Defined(ds) == [Arr(es)] + Defined([]) && [Arr(es)] + [] == [Arr(es)];
    forall j ensures ContainsId(Boxed(o, l), j) <==> j == 1 { assert ContainsId([s][0], j) <==> j == 1; }
  }

  /** Added to nothing. */
  lemma {:induction false} AddedAlone(lt: LetterTest, o: string, l: string, id: nat, y: seq<Val>)
    requires ConcreteSeq(y)
    ensures ValueOver(lt, Added(o, l, id, y), None) == Ok(Arr(y))
  {
    var s, a := Subst(id, [o, l], true, false), Arr(y);
    var ps := [s, a];
    assert ps[1..] == [a] && [a][1..] == [];
    DataBit(lt, a, [o, l], None);
    assert LayerValues(lt, map[], [a], None) == Vals([Some(a)]) by { assert [Some(a)] + [] == [Some(a)]; }
    assert LayerValues(lt, map[], ps, None) == Vals([None, Some(a)]) by {
      assert [None] + [Some(a)] == [None, Some(a)];
    }
    Pieces.FirstContainer([None], a);
    assert [None] + [Some(a)] == [None, Some(a)];
  }

  lemma {:induction false} WrappedKept(lt: LetterTest, o: string, l: string, x: seq<Val>, y: seq<Val>)
    requires ConcreteSeq(x) && ConcreteSeq(y)
    ensures var vs, path := Wrapped(o, l, x, y), [o, l];
            Kept(lt, path, vs) == Some(Ok(Arr(y))) && LayersBelow(lt, path, vs[..2]) == Some(Ok(Arr(x + y)))
    ensures Kept(lt, [o, l], Wrapped(o, l, x, y)[..2]) == Some(Ok(Arr(x)))
  {
    var vs, path, a, b := Wrapped(o, l, x, y), [o, l], Arr(x), Added(o, l, 0, y);
    assert vs[..2] == [a, b] && vs[..2][..1] == [a] && [a][..0] == [] && Concrete(a);
    DataBit(lt, a, path, None);
    AddedIs(lt, o, l, 0, y, x);
    AddedAlone(lt, o, l, 0, y);
    BoxedIs(lt, o, l, y);
    assert Kept(lt, path, [a]) == None && LayersBelow(lt, path, [a]) == Some(Ok(a));
    assert Kept(lt, path, vs[..2]) == KeptUnder(lt, path, b, a, None);
    assert Kept(lt, path, vs) == KeptUnder(lt, path, vs[2], b, Kept(lt, path, vs[..2]));
  }

  lemma {:induction false} WrappedWritten(lt: LetterTest, o: string, l: string, x: seq<Val>, y: seq<Val>)
    requires ConcreteSeq(x) && ConcreteSeq(y)
    ensures AllWritten(o, l, Wrapped(o, l, x, y)) && OwnReferences(Wrapped(o, l, x, y))
  {
    assert Concrete(Arr(x));
    ConcreteHasNoSentinel(Arr(x));
    AddedIs(lt, o, l, 0, y, x);
    BoxedIs(lt, o, l, y);
  }

  /** A value that looks back only inside an array is not seen to do so: the array holds
      y where the layers have x and y, the same exactly when x is empty. */
  lemma {:induction false} InnerReferenceLosesFirst(lt: LetterTest, o: string, l: string, x: seq<Val>, y: seq<Val>,
                                                    fuel: nat)
    requires ConcreteSeq(x) && ConcreteSeq(y) && fuel > 2
    ensures var vs := Wrapped(o, l, x, y);
            var r, want := ResolveTree(lt, AssignAll(lt, Rows(o, l, vs)).obj, fuel), Layer(lt, [o, l], vs);
            && r == Ok(Literal(o, Literal(l, Arr([Arr(y)])))) && want == Ok(Arr([Arr(x + y)]))
            && (Arr([Arr(y)]) == want.v <==> x == [])
  {
    var vs, path := Wrapped(o, l, x, y), [o, l];
    WrappedWritten(lt, o, l, x, y);
    WrappedKept(lt, o, l, x, y);
    BoxedIs(lt, o, l, y);
    BoxedIs(lt, o, l, x + y);
    AddedIs(lt, o, l, 0, y, [Arr(y)]);
    assert vs[..2][1] == Added(o, l, 0, y) && Final(lt, path, vs) == Ok(Arr([Arr(y)]));
    assert Settles(Earlier(lt, path, vs));
    RowsResolve(lt, o, l, vs, fuel);
    if Arr([Arr(y)]) == Arr([Arr(x + y)]) {
      assert [Arr(y)][0] == [Arr(x + y)][0];
      assert |y| == |x + y|;
    }
    if x == [] { assert x + y == y; }
  }
}
