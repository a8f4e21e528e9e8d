/**
 Where phase 1 loses a layer.  Only one prior is kept for a key; saving a value
 that does not take the prior up replaces it (foldOrSkipPrior in
 internal/resolver/foldselfref.go).  Whether anything is lost by a save shows in
 what a plain reference to the key reads afterwards.
 */
module Losses {
  import opened Paths
  import opened Values
  import opened Fold
  import opened Merge
  import opened MergeLaws
  import opened Concats
  import opened Resolve
  import opened Assignments
  import opened Layers
  import opened Joins
  import opened Walks
  import opened Chains

  // ---------- one assignment more ----------

  lemma {:induction false} OneMore(fields: seq<Field>, f: Field, j: string)
    ensures AssignedTo(fields + [f], j) == AssignedTo(fields, j) + (if f.key == j then [Desugared(f)] else [])
  {
    assert (fields + [f])[..|fields|] == fields;
  }

  /** key = ${key} */
  function ReadBack(k: string, id: nat): Field {
    Field(k, Subst(id, [k], false, false), false, 0)
  }

  lemma {:induction false} ReadBackCoded(lt: LetterTest, env: Env, k: string, vs: seq<Val>, id: nat)
    requires DataEnv(env) && k !in env && AllRaw(lt, env, k, vs)
    ensures var us := vs + [Subst(id, [k], false, false)];
            && Coded(lt, env, k, us) == (if Saved(lt, env, k, vs).Some? then Saved(lt, env, k, vs).value else Fail)
            && Layered(lt, env, k, us) ==
              (if Stacked(lt, env, k, vs).Some? then Stacked(lt, env, k, vs).value else Fail)
  {
    var s := Subst(id, [k], false, false);
    var us := vs + [s];
    assert us[..|us| - 1] == vs && us[|us| - 1] == s;
    RawIsBuildable(lt, env, k, vs);
    SavedIsConcrete(lt, env, k, vs);
    StackIsConcrete(lt, env, k, vs);
    LaidOverItself(lt, Saved(lt, env, k, vs));
    LaidOverItself(lt, Stacked(lt, env, k, vs));
    StoredObject(lt, k, us);
  }

  lemma {:induction false} LaidOverItself(lt: LetterTest, below: Option<Res>)
    requires ConcreteLayer(below)
    ensures below.Some? ==> LaidOver(lt, below.value, below) == below.value
  {
    if below.Some? {
      ShowsItself(below.value);
      ShowsExactly(lt, below.value, below);
    }
  }

  /** Two outcomes that differ at one key at most. */
  lemma {:induction false} GivesExactly(r: Res, keys: seq<string>, want: map<string, Res>, other: map<string, Res>,
                                        k: string)
    requires Gives(r, keys, want) && k in keys && k in want && k in other && !want[k].Diverge? && !other[k].Diverge?
    requires want.Keys == other.Keys && forall j | j in want && j != k :: want[j] == other[j] && Settles(want[j])
    requires forall j | j in keys :: j in want
    ensures Gives(r, keys, other) <==> want[k] == other[k]
  {
    if want[k] == other[k] {
      assert want == other;
    } else {
      assert AllSettle(keys, want) <==> Settles(want[k]);
      assert AllSettle(keys, other) <==> Settles(other[k]);
      if Settles(want[k]) && Settles(other[k]) {
        assert Wanted(want, k) != Wanted(other, k);
      }
    }
  }

  /** Everything but the key is in order: other chains kept their layers and settle. */
  ghost predicate OthersInOrder(lt: LetterTest, env: Env, fields: seq<Field>, k: string) {
    forall j | j != k && AssignedTo(fields, j) != [] ::
      ChainKept(lt, env, fields, j) && ChainFits(lt, env, fields, j) && Settles(LayeredField(lt, env, fields, j))
  }

  /** After a run whose saves, the last assignment's apart, kept their layers, one
      more reference to the key reads the layers exactly when the last assignment's
      save keeps what lies below it too. */
  lemma {:induction false} ReadsBackExactly(lt: LetterTest, env: Env, fields: seq<Field>, k: string, id: nat, fuel: nat)
    requires var doc := fields + [ReadBack(k, id)];
             EnvOf(env, doc) && Links(lt, env, doc) && NoMistakenKey(lt, AssignAll(lt, doc).obj) &&
               OthersInOrder(lt, env, doc, k)
    requires fuel > 1 && k !in env && AssignedTo(fields, k) != [] && ChainKept(lt, env, fields, k) &&
             ChainFits(lt, env, fields, k)
    ensures var doc := fields + [ReadBack(k, id)];
            Gives(ResolveTree(lt, AssignAll(lt, doc).obj, fuel), KeysOf(doc), LayeredAll(lt, env, doc)) <==>
            KeepsLayer(lt, env, k, AssignedTo(fields, k))
  {
    var doc, vs := fields + [ReadBack(k, id)], AssignedTo(fields, k);
    var want, other := CodedAll(lt, env, doc), LayeredAll(lt, env, doc);
    LinksBuild(lt, env, doc);
    BuiltAndResolved(lt, env, doc, fuel);
    OneMore(fields, ReadBack(k, id), k);
    RunStacks(lt, env, doc, k);
    assert (vs + [Subst(id, [k], false, false)])[..|vs|] == vs;
    ReadBackCoded(lt, env, k, vs, id);
    SavedExactly(lt, env, k, vs);
    SavedIsConcrete(lt, env, k, vs);
    StackIsConcrete(lt, env, k, vs);
    OthersAgree(lt, env, doc, k);
    KeysAreAssigned(doc, k);
    GivesExactly(ResolveTree(lt, AssignAll(lt, doc).obj, fuel), KeysOf(doc), want, other, k);
  }

  lemma {:induction false} OthersAgree(lt: LetterTest, env: Env, doc: seq<Field>, k: string)
    requires EnvOf(env, doc) && Links(lt, env, doc) && OthersInOrder(lt, env, doc, k)
    ensures var want, other := CodedAll(lt, env, doc), LayeredAll(lt, env, doc);
            && want.Keys == other.Keys && (forall j | j in KeysOf(doc) :: j in want)
            && forall j | j in want && j != k :: want[j] == other[j] && Settles(want[j])
  {
    forall j | j in KeysOf(doc) && j != k
      ensures CodedField(lt, env, doc, j) == LayeredField(lt, env, doc, j) && Settles(CodedField(lt, env, doc, j)) {
      KeysAreAssigned(doc, j);
      KeptField(lt, env, doc, j, true);
    }
  }

  // ---------- what came before is forgotten ----------

  /** A value that does not refer to its key and is not merged with the one before
      it forgets that one: the next assignment sees the same whatever came first. */
  lemma {:induction false} DelayedLayersAreForgotten(lt: LetterTest, env: Env, k: string, before: seq<Val>, u: Val,
                                                     w: Val)
    requires k !in env && AllRaw(lt, env, k, before + [u, w]) && Dead(u, k) && !Merged(before + [u])
    ensures Coded(lt, env, k, before + [u, w]) == Coded(lt, env, k, [u, w])
  {
    var vs := before + [u];
    var all, two := before + [u, w], [u, w];
    assert vs[..|vs| - 1] == before && vs[|vs| - 1] == u && all[..|all| - 1] == vs && two[..1] == [u];
    assert all[|all| - 2] == u && all[|all| - 1] == w;
    DeadDemandsNothing(u, k);
    StoredObject(lt, k, vs);
    DeadIgnoresBelow(lt, env, u, k, Saved(lt, env, k, before), None);
    assert Saved(lt, env, k, [u]) == Saved(lt, env, k, vs) == Some(LayerValue(lt, env, u, None)) by {
      assert [u][..0] == [] && Stored(lt, k, [u]) == u;
    }
    assert Stored(lt, k, all) == Stored(lt, k, two) by {
      assert Stored(lt, k, vs) == u && Stored(lt, k, [u]) == u;
    }
  }

  /** Two object literals after a value that comes to an object but is not one yet:
      the code gives the merge of the two, the layers have that object's keys too. */
  lemma {:induction false} LaterObjectsForget(lt: LetterTest, env: Env, k: string, before: seq<Val>, v: Val, w: Val,
                                              b: Val)
    requires DataEnv(env) && Raw(env, v, k) && Raw(env, w, k) && Dead(v, k) && Dead(w, k) &&
             Joinable(lt, env, k, w, v) && Fits(env, w, v)
    requires SeenObject(lt, env, v) && Seen(lt, env, w).Ok?
    requires before != [] && !before[|before| - 1].Obj? && Stacked(lt, env, k, before) == Some(Ok(b)) && b.Obj?
    ensures SeenObject(lt, env, w)
    ensures Coded(lt, env, k, before + [v, w]) == Ok(DeepMerge(lt, Seen(lt, env, w).v, Seen(lt, env, v).v))
    ensures Layered(lt, env, k, before + [v, w]) ==
            Ok(DeepMerge(lt, Seen(lt, env, w).v, DeepMerge(lt, Seen(lt, env, v).v, b)))
  {
    TwoLiteralsCoded(lt, env, k, before, v, w);
    TwoLiteralsLayered(lt, env, k, before, v, w, b);
  }

  /** The literal v replaces the prior, and w is merged with it at once. */
  lemma {:induction false} TwoLiteralsCoded(lt: LetterTest, env: Env, k: string, before: seq<Val>, v: Val, w: Val)
    requires DataEnv(env) && Raw(env, v, k) && Raw(env, w, k) && Dead(v, k) && Dead(w, k) &&
             Joinable(lt, env, k, w, v) && Fits(env, w, v)
    requires SeenObject(lt, env, v) && Seen(lt, env, w).Ok? && before != [] && !before[|before| - 1].Obj?
    ensures SeenObject(lt, env, w) &&
            Coded(lt, env, k, before + [v, w]) == Ok(DeepMerge(lt, Seen(lt, env, w).v, Seen(lt, env, v).v))
  {
    var vs, all := before + [v], before + [v, w];
    var below := Some(Seen(lt, env, v));
    assert vs[..|vs| - 1] == before && vs[|vs| - 1] == v && all[..|all| - 1] == vs && all[|all| - 1] == w;
    StoredObject(lt, k, before);
    StoredObject(lt, k, vs);
    DeadDemandsNothing(v, k);
    DeadIgnoresBelow(lt, env, v, k, Saved(lt, env, k, before), None);
    assert Saved(lt, env, k, vs) == below;
    LayerIsConcrete(lt, env, v, k, None);
    DeadIgnoresBelow(lt, env, w, k, below, None);
    JoinedLayer(lt, env, k, w, v, below, None, Seen(lt, env, v).v, [k]);
    assert Stored(lt, k, all) == DeepMergeAt(lt, w, v, [k], true);
    MergedLaidOver(lt, Seen(lt, env, w).v, Seen(lt, env, v).v);
  }

  lemma {:induction false} TwoLiteralsLayered(lt: LetterTest, env: Env, k: string, before: seq<Val>, v: Val, w: Val,
                                              b: Val)
    requires Raw(env, v, k) && Raw(env, w, k) && Dead(v, k) && Dead(w, k) && SeenObject(lt, env, v) &&
             SeenObject(lt, env, w)
    requires before != [] && Stacked(lt, env, k, before) == Some(Ok(b)) && b.Obj?
    ensures Layered(lt, env, k, before + [v, w]) ==
            Ok(DeepMerge(lt, Seen(lt, env, w).v, DeepMerge(lt, Seen(lt, env, v).v, b)))
  {
    var vs, all, x := before + [v], before + [v, w], Seen(lt, env, v).v;
    assert vs[..|vs| - 1] == before && vs[|vs| - 1] == v && all[..|all| - 1] == vs && all[|all| - 1] == w;
    DeadIgnoresBelow(lt, env, v, k, Some(Ok(b)), None);
    DeadIgnoresBelow(lt, env, w, k, Stacked(lt, env, k, vs), None);
    ObjectsLaidOver(lt, x, b);
    ObjectsLaidOver(lt, Seen(lt, env, w).v, DeepMerge(lt, x, b));
  }

  // ---------- what three layers lose ----------

  /** Merged over c, and that over b, d and c show or hide all of b. */
  predicate Buries(d: Val, c: Val, b: Val)
    requires d.Obj? && c.Obj? && b.Obj?
    decreases b, 1
  {
    forall j | j in b.vals :: BuriesAt(d, c, b, j)
  }

  predicate BuriesAt(d: Val, c: Val, b: Val, j: string)
    requires d.Obj? && c.Obj? && b.Obj? && j in b.vals
    decreases b, 0
  {
    if j !in c.vals then j in d.vals && (d.vals[j].Obj? && b.vals[j].Obj? ==> Covers(d.vals[j], b.vals[j]))
    else if !c.vals[j].Obj? || !b.vals[j].Obj? then true
    else if j !in d.vals then Covers(c.vals[j], b.vals[j])
    else d.vals[j].Obj? ==> Buries(d.vals[j], c.vals[j], b.vals[j])
  }

  lemma {:induction false} SameNewKeys(d: Val, a: seq<string>, b: seq<string>)
    requires d.Obj?
    ensures NewKeys(d, a + b) == NewKeys(d, a) <==> forall j | j in b :: j in d.vals
  {
    NewKeysConcat(d, a, b);
    NothingNew(d, b);
    if NewKeys(d, a) + NewKeys(d, b) == NewKeys(d, a) { assert |NewKeys(d, b)| == 0; }
    if NewKeys(d, b) == [] { assert NewKeys(d, a) + [] == NewKeys(d, a); }
  }

  /** The keys of both merges are the same exactly when b has no key of its own. */
  lemma {:induction false} BuriedKeys(lt: LetterTest, d: Val, c: Val, b: Val)
    requires d.Obj? && c.Obj? && b.Obj? && Concrete(d) && Concrete(c) && Concrete(b)
    ensures DeepMerge(lt, d, c).keys == DeepMerge(lt, d, DeepMerge(lt, c, b)).keys <==>
            forall j | j in b.vals :: j in c.vals || j in d.vals
  {
    var m, added := DeepMerge(lt, c, b), NewKeys(c, b.keys);
    DeepMergeIsConcat(lt, c, b, []);
    DeepMergeIsConcat(lt, d, c, []);
    DeepMergeIsConcat(lt, d, m, []);
    NewKeysAre(c, b.keys);
    SameNewKeys(d, c.keys, added);
    assert forall j :: j in b.keys <==> j in b.vals;
    SamePrefix(d.keys, NewKeys(d, c.keys), NewKeys(d, c.keys + added));
  }

  lemma {:induction false} SamePrefix(a: seq<string>, b: seq<string>, c: seq<string>)
    ensures a + b == a + c <==> b == c
  {
    if a + b == a + c { assert b == (a + b)[|a|..] && c == (a + c)[|a|..]; }
  }

  lemma {:induction false} BuriedAt(lt: LetterTest, d: Val, c: Val, b: Val, j: string)
    requires d.Obj? && c.Obj? && b.Obj? && Concrete(d) && Concrete(c) && Concrete(b)
    ensures Get(DeepMerge(lt, d, c).vals, j) == Get(DeepMerge(lt, d, DeepMerge(lt, c, b)).vals, j) <==>
            (j in b.vals ==> BuriesAt(d, c, b, j))
    decreases b, 0
  {
    DeepMergeIsConcat(lt, c, b, []);
    MergedAtKey(lt, c, b, j);
    MergedAtKey(lt, d, c, j);
    MergedAtKey(lt, d, DeepMerge(lt, c, b), j);
    if j in b.vals && b.vals[j].Obj? {
      if j in c.vals && c.vals[j].Obj? {
        CoversExactly(lt, c.vals[j], b.vals[j], []);
        if j in d.vals && d.vals[j].Obj? { BuriedExactly(lt, d.vals[j], c.vals[j], b.vals[j]); }
      } else if j !in c.vals && j in d.vals && d.vals[j].Obj? {
        CoversExactly(lt, d.vals[j], b.vals[j], []);
      }
    }
  }

  lemma {:induction false} SameObjects(a: Val, b: Val)
    requires a.Obj? && b.Obj? && a.priors == b.priors
    ensures a == b <==> a.keys == b.keys && forall j :: Get(a.vals, j) == Get(b.vals, j)
  {
    if forall j :: Get(a.vals, j) == Get(b.vals, j) { SameMaps(a.vals, b.vals); }
  }

  /** Leaving b out changes nothing exactly when it is buried. */
  lemma {:induction false} BuriedExactly(lt: LetterTest, d: Val, c: Val, b: Val)
    requires d.Obj? && c.Obj? && b.Obj? && Concrete(d) && Concrete(c) && Concrete(b)
    ensures DeepMerge(lt, d, c) == DeepMerge(lt, d, DeepMerge(lt, c, b)) <==> Buries(d, c, b)
    decreases b, 1
  {
    MergedIsData(lt, c, b);
    MergedIsData(lt, d, c);
    MergedIsData(lt, d, DeepMerge(lt, c, b));
    forall j ensures Get(DeepMerge(lt, d, c).vals, j) == Get(DeepMerge(lt, d, DeepMerge(lt, c, b)).vals, j) <==>
      (j in b.vals ==> BuriesAt(d, c, b, j)) {
      BuriedAt(lt, d, c, b, j);
    }
    BuriedKeys(lt, d, c, b);
    if Buries(d, c, b) {
      forall j | j in b.vals ensures j in c.vals || j in d.vals { assert BuriesAt(d, c, b, j); }
    }
    SameObjects(DeepMerge(lt, d, c), DeepMerge(lt, d, DeepMerge(lt, c, b)));
  }

  // ---------- the documents ----------

  /** ${?k} b */
  function Extending(k: string, id: nat, b: Val): Val {
    Concat([Subst(id, [k], true, false), b])
  }

  /** k = ${?k} b, k = c, k = d */
  function ThreeLayers(k: string, id: nat, b: Val, c: Val, d: Val): seq<Field> {
    [Field(k, Extending(k, id, b), false, 0), Field(k, c, false, 0), Field(k, d, false, 0)]
  }

  lemma {:induction false} ThreeAssigned(k: string, id: nat, b: Val, c: Val, d: Val, j: string)
    ensures AssignedTo(ThreeLayers(k, id, b, c, d), j) == if j == k then [Extending(k, id, b)] + [c, d] else []
    ensures KeysOf(ThreeLayers(k, id, b, c, d)) == [k]
  {
    var fields := ThreeLayers(k, id, b, c, d);
    var one, two := fields[..1], fields[..2];
    assert one[..0] == [] && two[..1] == one && fields[..|fields| - 1] == two;
    assert AssignedTo(one, j) == (if j == k then [Extending(k, id, b)] else []) && KeysOf(one) == [k];
    assert AssignedTo(two, j) == (if j == k then [Extending(k, id, b)] + [c] else []) && KeysOf(two) == [k];
    assert [Extending(k, id, b)] + [c] + [d] == [Extending(k, id, b)] + [c, d];
  }

  lemma {:induction false} OnlyObject(vs: seq<Option<Val>>, o: Val)
    requires vs == [None, Some(o)] && o.Obj?
    ensures JoinConcat(vs) == Ok(o)
  {
    assert vs[1..] == [Some(o)] && vs[1..][1..] == [];
    assert [o] + [] == [o] && [] + [o] == [o];
    assert Meaningful(vs[1..]) == [o];
    assert Meaningful(vs) == [o] && [o][0].Obj? && [o][1..] == [];
  }

  lemma {:induction false} FirstLayer(lt: LetterTest, k: string, id: nat, b: Val)
    requires b.Obj? && Concrete(b)
    ensures var v := Extending(k, id, b); Raw(map[], v, k) && Stacked(lt, map[], k, [v]) == Some(Ok(b))
  {
    var v, ps := Extending(k, id, b), Extending(k, id, b).parts;
    ConcreteLayerValue(lt, map[], b, None);
    ConcreteIsRaw(map[], b, k);
    assert ps[1..] == [b] && [b][1..] == [];
    assert LayerValues(lt, map[], [b], None) == Vals([Some(b)]) by { assert [Some(b)] + [] == [Some(b)]; }
    assert LayerValues(lt, map[], ps, None) == Vals([None, Some(b)]) by {
      assert [None] + [Some(b)] == [None, Some(b)];
    }
    OnlyObject([None, Some(b)], b);
    assert [v][..0] == [] && !Demands(ps[0], k) && !Demands(ps[1], k);
    assert Raw(map[], ps[0], k) && Raw(map[], ps[1], k);
  }

  lemma {:induction false} ThreeStored(lt: LetterTest, k: string, id: nat, b: Val, c: Val, d: Val)
    requires b.Obj? && c.Obj? && d.Obj? && Concrete(b) && Concrete(c) && Concrete(d)
    ensures Buildable(lt, map[], k, [Extending(k, id, b)] + [c, d])
  {
    var v := Extending(k, id, b);
    var one, two, all := [v], [v] + [c], [v] + [c, d];
    assert one[..0] == [] && two[..1] == one && all[..2] == two;
    FirstLayer(lt, k, id, b);
    FreshHasNoSentinel(v);
    ConcreteIsData(c);
    DataJoins(lt, map[], k, d, c);
    ConcreteIsRaw(map[], c, k);
    ConcreteIsRaw(map[], d, k);
    ConcreteHasNoSentinel(c);
    JoinedPiece(lt, map[], k, d, c, [k]);
    assert Stored(lt, k, one) == v && Stored(lt, k, two) == c && Stored(lt, k, all) == DeepMergeAt(lt, d, c, [k], true);
    assert Buildable(lt, map[], k, one[..0]);
    assert Buildable(lt, map[], k, one);
    assert Buildable(lt, map[], k, two);
  }

  lemma {:induction false} ThreeCoded(lt: LetterTest, k: string, id: nat, b: Val, c: Val, d: Val)
    requires b.Obj? && c.Obj? && d.Obj? && Concrete(b) && Concrete(c) && Concrete(d)
    ensures var vs := [Extending(k, id, b)] + [c, d];
            && Coded(lt, map[], k, vs) == Ok(DeepMerge(lt, d, c))
            && Layered(lt, map[], k, vs) == Ok(DeepMerge(lt, d, DeepMerge(lt, c, b)))
  {
    FirstLayer(lt, k, id, b);
    ConcreteIsData(c);
    DataJoins(lt, map[], k, d, c);
    ConcreteIsRaw(map[], c, k);
    ConcreteIsRaw(map[], d, k);
    ConcreteLayerValue(lt, map[], c, None);
    ConcreteLayerValue(lt, map[], d, None);
    LaterObjectsForget(lt, map[], k, [Extending(k, id, b)], c, d, b);
  }

  lemma {:induction false} OneKeyIsPlain(lt: LetterTest, fields: seq<Field>, k: string)
    requires KeysOf(fields) == [k] && !NeedsQuoting(lt, k)
    ensures NoMistakenKey(lt, AssignAll(lt, fields).obj)
  {
    PlainKey(lt, k);
    RootKeys(lt, fields);
    var root := AssignAll(lt, fields).obj;
    forall j | j in root.vals ensures j == k {
      assert j in root.keys;
    }
  }

  lemma {:induction false} OneKeyGives(r: Res, k: string, want: map<string, Res>, v: Val)
    requires Gives(r, [k], want) && k in want && want[k] == Ok(v)
    ensures r.Ok? && r.v.Obj? && Get(r.v.vals, k) == Some(v)
  {
    assert k in [k] && [k][0] == k;
  }

  /** A document of one key. */
  lemma {:induction false} OneKeyResolves(lt: LetterTest, fields: seq<Field>, k: string, v: Val, fuel: nat)
    requires EnvOf(map[], fields) && Builds(lt, map[], fields) && KeysOf(fields) == [k] && !NeedsQuoting(lt, k) &&
             fuel > 1
    requires CodedField(lt, map[], fields, k) == Ok(v)
    ensures var r := ResolveTree(lt, AssignAll(lt, fields).obj, fuel);
            r.Ok? && r.v.Obj? && Get(r.v.vals, k) == Some(v)
  {
    OneKeyIsPlain(lt, fields, k);
    BuiltAndResolved(lt, map[], fields, fuel);
    assert k in KeysOf(fields) by { assert [k][0] == k; }
    OneKeyGives(ResolveTree(lt, AssignAll(lt, fields).obj, fuel), k, CodedAll(lt, map[], fields), v);
  }

  /** Every document k = ${?k} b, k = c, k = d of data: b is left out, and the result
      is that of the layers exactly when c and d bury it. */
  lemma {:induction false} ThirdLayerLosesFirst(lt: LetterTest, k: string, id: nat, b: Val, c: Val, d: Val, fuel: nat)
    requires b.Obj? && c.Obj? && d.Obj? && Concrete(b) && Concrete(c) && Concrete(d) && !NeedsQuoting(lt, k) && fuel > 1
    ensures var fields := ThreeLayers(k, id, b, c, d);
            var r, want := ResolveTree(lt, AssignAll(lt, fields).obj, fuel), LayeredField(lt, map[], fields, k);
            && r.Ok? && r.v.Obj? && Get(r.v.vals, k) == Some(DeepMerge(lt, d, c))
            && want == Ok(DeepMerge(lt, d, DeepMerge(lt, c, b)))
            && (Get(r.v.vals, k) == Some(want.v) <==> Buries(d, c, b))
  {
    var fields := ThreeLayers(k, id, b, c, d);
    ThreeAssigned(k, id, b, c, d, k);
    forall j ensures Buildable(lt, map[], j, AssignedTo(fields, j)) {
      ThreeAssigned(k, id, b, c, d, j);
      ThreeStored(lt, k, id, b, c, d);
    }
    ThreeCoded(lt, k, id, b, c, d);
    OneKeyResolves(lt, fields, k, DeepMerge(lt, d, c), fuel);
    BuriedExactly(lt, d, c, b);
  }
}
