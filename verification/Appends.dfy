/**
 `+=`: any number of appends after an array, or after nothing, comes to that array
 followed by the appended values (AppendToConcat in internal/parser/ast.go and the
 chain of priors behind it).
 */
module Appends {
  import opened Paths
  import opened Values
  import opened Merge
  import opened Concats
  import opened Resolve
  import opened ResolveLaws
  import opened Assignments
  import opened Layers
  import opened Walks
  import opened Chains
  import opened Keeps
  import opened Losses

  /** key = [es], if there is such a first field, then key += x for each x. */
  function Run(key: string, first: Option<seq<Val>>, xs: seq<Val>): seq<Field> {
    if xs == [] then if first.Some? then [Field(key, Arr(first.value), false, 0)] else []
    else Run(key, first, xs[..|xs| - 1]) + [Field(key, xs[|xs| - 1], true, |xs|)]
  }

  function ElementsOf(first: Option<seq<Val>>): seq<Val> {
    if first.Some? then first.value else []
  }

  function Appended(key: string, x: Val, id: nat): Val {
    Desugared(Field(key, x, true, id))
  }

  lemma {:induction false} AppendIsRaw(key: string, x: Val, id: nat)
    requires Concrete(x)
    ensures Raw(map[], Appended(key, x, id), key) && !Demands(Appended(key, x, id), key)
  {
    ConcreteIsRaw(map[], Arr([x]), key);
    var ps := Appended(key, x, id).parts;
    assert ps == [Subst(id, [key], true, false), Arr([x])];
    assert Raw(map[], ps[1], key) && !Demands(ps[0], key);
  }

  /** A chain of arrays and appends to them. */
  ghost predicate OnlyArrays(k: string, vs: seq<Val>) {
    forall i | 0 <= i < |vs| :: Raw(map[], vs[i], k) && !vs[i].Obj? && KeepsByForm(vs[i], k)
  }

  /** Such a chain is one, and every save in it keeps what lies below. */
  lemma {:induction false} ArraysChain(lt: LetterTest, k: string, vs: seq<Val>)
    requires OnlyArrays(k, vs)
    ensures AllRaw(lt, map[], k, vs) && AllFit(lt, map[], k, vs) && KeptByForm(k, vs)
  {
    if vs != [] { ArraysChain(lt, k, vs[..|vs| - 1]); }
  }

  lemma {:induction false} OnlyArraysNext(k: string, vs: seq<Val>, v: Val)
    requires OnlyArrays(k, vs) && Raw(map[], v, k) && !v.Obj? && KeepsByForm(v, k)
    ensures OnlyArrays(k, vs + [v])
  {
  }

  lemma {:induction false} AppendKeeps(key: string, x: Val, id: nat)
    ensures KeepsByForm(Appended(key, x, id), key)
  {
    var ps := Appended(key, x, id).parts;
    assert Bare(ps[0], key) && ps[1..] == [Arr([x])] && [Arr([x])][1..] == [];
    assert AtMostOne(ps[1..]);
  }

  lemma {:induction false} RunAssigns(key: string, first: Option<seq<Val>>, xs: seq<Val>, k: string)
    requires ConcreteSeq(ElementsOf(first)) && ConcreteSeq(xs)
    ensures OnlyArrays(k, AssignedTo(Run(key, first, xs), k))
  {
    if xs == [] {
      if first.Some? {
        var f := Field(key, Arr(first.value), false, 0);
        ConcreteIsRaw(map[], Arr(first.value), k);
        OneMore([], f, k);
        assert [] + [f] == Run(key, first, xs) && AssignedTo([], k) == [];
      }
    } else {
      var before, x := xs[..|xs| - 1], xs[|xs| - 1];
      RunAssigns(key, first, before, k);
      OneMore(Run(key, first, before), Field(key, x, true, |xs|), k);
      AppendIsRaw(key, x, |xs|);
      AppendKeeps(key, x, |xs|);
      if k == key {
        OnlyArraysNext(k, AssignedTo(Run(key, first, before), k), Appended(key, x, |xs|));
      } else {
        assert AssignedTo(Run(key, first, before), k) + [] == AssignedTo(Run(key, first, before), k);
      }
    }
  }

  lemma {:induction false} RunIsLinks(lt: LetterTest, key: string, first: Option<seq<Val>>, xs: seq<Val>)
    requires ConcreteSeq(ElementsOf(first)) && ConcreteSeq(xs)
    ensures Links(lt, map[], Run(key, first, xs)) && forall k :: ChainFits(lt, map[], Run(key, first, xs), k)
    ensures forall k :: KeptByForm(k, AssignedTo(Run(key, first, xs), k))
  {
    forall k
      ensures AllRaw(lt, map[], k, AssignedTo(Run(key, first, xs), k)) && ChainFits(lt, map[], Run(key, first, xs), k)
      ensures KeptByForm(k, AssignedTo(Run(key, first, xs), k)) {
      RunAssigns(key, first, xs, k);
      ArraysChain(lt, k, AssignedTo(Run(key, first, xs), k));
    }
  }

  // ---------- one append ----------

  lemma {:induction false} LastMeaningful(vs: seq<Option<Val>>, v: Val)
    requires vs == [Some(v)] && v.Arr?
    ensures Meaningful(vs) == [v]
  {
    assert vs[1..] == [] && [v] + [] == [v];
  }

  lemma {:induction false} JoinArrays(below: Option<Val>, es: seq<Val>, x: Val)
    requires below == Some(Arr(es)) || (below == None && es == [])
    ensures JoinConcat([below, Some(Arr([x]))]) == Ok(Arr(es + [x]))
  {
    var vs, last := [below, Some(Arr([x]))], Arr([x]);
    LastMeaningful(vs[1..], last);
    if below.Some? {
      var pieces := [Arr(es), last];
      assert Meaningful(vs) == [Arr(es)] + [last] && [Arr(es)] + [last] == pieces;
      assert pieces[0].Arr? && pieces[1..] == [last] && [last][1..] == [];
      assert JoinPair(Arr(es), last) == Some(Arr(es + [x]));
      assert JoinFrom(Arr(es), [last]) == Ok(Arr(es + [x]));
    } else {
      assert Meaningful(vs) == [last] && [last][0].Arr? && [last][1..] == [];
      assert es + [x] == [x];
    }
  }

  /** What a += leaves: the array below it, one element longer. */
  lemma {:induction false} AppendLayer(lt: LetterTest, id: nat, key: string, x: Val, below: Option<Res>, es: seq<Val>)
    requires Concrete(x) && (below == Some(Ok(Arr(es))) || (below == None && es == []))
    ensures LayerValue(lt, map[], Appended(key, x, id), below) == Ok(Arr(es + [x]))
  {
    var s, v := Subst(id, [key], true, false), Arr([x]);
    var ps, first := [s, v], OptionOf(LayerValue(lt, map[], s, below));
    ConcreteLayerValue(lt, map[], v, below);
    LastLayer(lt, ps[1..], v, below);
    assert LayerValues(lt, map[], ps, below) == Vals([first] + [Some(v)]);
    assert [first] + [Some(v)] == [first, Some(v)];
    JoinArrays(first, es, x);
  }

  lemma {:induction false} LastLayer(lt: LetterTest, vs: seq<Val>, v: Val, below: Option<Res>)
    requires vs == [v] && LayerValue(lt, map[], v, below) == Ok(v)
    ensures LayerValues(lt, map[], vs, below) == Vals([Some(v)])
  {
    assert vs[1..] == [] && [Some(v)] + [] == [Some(v)];
  }

  // ---------- any number of them ----------

  /** The assignments come to the array acc, or to nothing as there are none. */
  ghost predicate ComesTo(lt: LetterTest, k: string, vs: seq<Val>, acc: seq<Val>) {
    if vs == [] then acc == []
    else Stacked(lt, map[], k, vs) == Some(Ok(Arr(acc))) && Layered(lt, map[], k, vs) == Ok(Arr(acc))
  }

  lemma {:induction false} OneLayer(lt: LetterTest, k: string, vs: seq<Val>, v: Val, es: seq<Val>)
    requires LayerValue(lt, map[], v, Stacked(lt, map[], k, vs)) == Ok(Arr(es)) && !Demands(v, k)
    ensures ComesTo(lt, k, vs + [v], es)
  {
    var us := vs + [v];
    assert us[..|us| - 1] == vs && us[|us| - 1] == v;
  }

  lemma {:induction false} FirstArray(lt: LetterTest, key: string, es: seq<Val>)
    requires ConcreteSeq(es)
    ensures ComesTo(lt, key, AssignedTo([Field(key, Arr(es), false, 0)], key), es)
  {
    var f := Field(key, Arr(es), false, 0);
    OneMore([], f, key);
    assert [] + [f] == [f];
    ConcreteIsRaw(map[], Arr(es), key);
    ConcreteLayerValue(lt, map[], Arr(es), Stacked(lt, map[], key, []));
    OneLayer(lt, key, [], Arr(es), es);
  }

  lemma {:induction false} AppendOne(lt: LetterTest, key: string, fields: seq<Field>, x: Val, id: nat, acc: seq<Val>)
    requires Concrete(x) && ComesTo(lt, key, AssignedTo(fields, key), acc)
    ensures ComesTo(lt, key, AssignedTo(fields + [Field(key, x, true, id)], key), acc + [x])
  {
    var vs := AssignedTo(fields, key);
    OneMore(fields, Field(key, x, true, id), key);
    AppendLayer(lt, id, key, x, Stacked(lt, map[], key, vs), acc);
    AppendIsRaw(key, x, id);
    OneLayer(lt, key, vs, Appended(key, x, id), acc + [x]);
  }

  lemma {:induction false} RunStep(lt: LetterTest, key: string, first: Option<seq<Val>>, before: seq<Val>, x: Val,
                                   acc: seq<Val>)
    requires Concrete(x) && ComesTo(lt, key, AssignedTo(Run(key, first, before), key), acc)
    ensures ComesTo(lt, key, AssignedTo(Run(key, first, before + [x]), key), acc + [x])
  {
    var xs := before + [x];
    assert xs[..|xs| - 1] == before && xs[|xs| - 1] == x;
    AppendOne(lt, key, Run(key, first, before), x, |xs|, acc);
  }

  lemma {:induction false} RunStarts(lt: LetterTest, key: string, first: Option<seq<Val>>)
    requires ConcreteSeq(ElementsOf(first))
    ensures ComesTo(lt, key, AssignedTo(Run(key, first, []), key), ElementsOf(first))
  {
    if first.Some? { FirstArray(lt, key, first.value); }
  }

  lemma {:induction false} RunStacksUp(lt: LetterTest, key: string, first: Option<seq<Val>>, xs: seq<Val>)
    requires ConcreteSeq(ElementsOf(first)) && ConcreteSeq(xs)
    ensures ComesTo(lt, key, AssignedTo(Run(key, first, xs), key), ElementsOf(first) + xs)
  {
    var es := ElementsOf(first);
    if xs == [] {
      assert es + xs == es;
      RunStarts(lt, key, first);
    } else {
      var before, x := xs[..|xs| - 1], xs[|xs| - 1];
      RunStacksUp(lt, key, first, before);
      RunStep(lt, key, first, before, x, es + before);
      assert before + [x] == xs && es + xs == (es + before) + [x];
    }
  }

  lemma {:induction false} RunHasOneKey(key: string, first: Option<seq<Val>>, xs: seq<Val>)
    ensures KeysOf(Run(key, first, xs)) == if first.Some? || xs != [] then [key] else []
  {
    var fields := Run(key, first, xs);
    if xs != [] {
      RunHasOneKey(key, first, xs[..|xs| - 1]);
      assert fields[..|fields| - 1] == Run(key, first, xs[..|xs| - 1]);
      assert [] + [key] == [key] && key in [key];
    } else if first.Some? {
      assert fields[..0] == [] && [] + [key] == [key];
    }
  }

  /** Whatever the key is spelled like: its printed form is no other key of the root. */
  lemma {:induction false} OneKeyIsItself(lt: LetterTest, key: string, fields: seq<Field>)
    requires KeysOf(fields) == [key] && Links(lt, map[], fields)
    ensures NoMistakenKey(lt, AssignAll(lt, fields).obj)
  {
    var root := AssignAll(lt, fields).obj;
    RootKeys(lt, fields);
    forall k | k in root.vals ensures k == key {
      assert k in root.keys;
    }
    forall k | k in root.priors ensures k == key {
      RawIsBuildable(lt, map[], k, AssignedTo(fields, k));
      RunStacks(lt, map[], fields, k);
      KeysAreAssigned(fields, k);
    }
  }

  lemma {:induction false} RunIsLayered(lt: LetterTest, key: string, first: Option<seq<Val>>, xs: seq<Val>)
    requires ConcreteSeq(ElementsOf(first)) && ConcreteSeq(xs) && (first.Some? || xs != [])
    ensures LayeredField(lt, map[], Run(key, first, xs), key) == Ok(Arr(ElementsOf(first) + xs))
  {
    var fields := Run(key, first, xs);
    RunStacksUp(lt, key, first, xs);
    RunHasOneKey(key, first, xs);
    assert [key][0] == key;
    KeysAreAssigned(fields, key);
  }

  /** Any number of += after an array, or after nothing, yields that array followed
      by the appended values in order. */
  lemma {:induction false} AppendsAccumulate(lt: LetterTest, key: string, first: Option<seq<Val>>, xs: seq<Val>,
                                             fuel: nat)
    requires ConcreteSeq(ElementsOf(first)) && ConcreteSeq(xs) && (first.Some? || xs != []) && fuel > 1
    ensures ResolveTree(lt, AssignAll(lt, Run(key, first, xs)).obj, fuel) ==
            Ok(Obj([key], map[key := Arr(ElementsOf(first) + xs)], map[]))
  {
    var fields := Run(key, first, xs);
    RunIsLinks(lt, key, first, xs);
    RunHasOneKey(key, first, xs);
    OneKeyIsItself(lt, key, fields);
    RunIsLayered(lt, key, first, xs);
    PlainChainsAreLayers(lt, map[], fields, fuel);
    assert [key][0] == key;
    OnlyResult(ResolveTree(lt, AssignAll(lt, fields).obj, fuel), key, LayeredAll(lt, map[], fields),
               Arr(ElementsOf(first) + xs));
  }

  lemma {:induction false} OnlyResult(r: Res, key: string, want: map<string, Res>, v: Val)
    requires Gives(r, [key], want) && key in want && want[key] == Ok(v)
    ensures r == Ok(Obj([key], map[key := v], map[]))
  {
    assert [key][1..] == [] && [key] + [] == [key] && OkKeys([key], want) == [key];
    forall k ensures k in [key] <==> k == key {
    }
    assert AllSettle([key], want);
    SameMaps(r.v.vals, map[key := v]);
  }
}
