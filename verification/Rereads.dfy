/**
 A reference inside an object literal that a further literal follows.  The two are
 merged while the reference is still unresolved, and by the time it is resolved
 the prior it looks back at is a later one.
 */
module Rereads {
  import opened Paths
  import opened Values
  import opened Fold
  import opened Merge
  import opened MergeLaws
  import opened Concats
  import opened Resolve
  import opened Layers
  import opened Joins
  import opened Chains

  /** ${k} */
  function Ref(k: string, id: nat): Val {
    Subst(id, [k], false, false)
  }

  /** { h = ${k} } */
  function Holding(k: string, h: string, id: nat): (r: Val)
    ensures r.Obj?
  {
    Obj([h], map[h := Ref(k, id)], map[])
  }

  function OneField(h: string, v: Val): (r: Val)
    ensures r.Obj?
  {
    Obj([h], map[h := v], map[])
  }

  /** What the first two assignments mean: p with itself as the field h. */
  function WithItself(lt: LetterTest, h: string, p: Val): (r: Val)
    requires p.Obj?
    ensures r.Obj?
  {
    DeepMerge(lt, OneField(h, p), p)
  }

  /** Its field h: p, over the one p has there. */
  function Inside(lt: LetterTest, h: string, p: Val): (r: Val)
    requires p.Obj?
    ensures r.Obj?
  {
    if h in p.vals && p.vals[h].Obj? then DeepMerge(lt, p, p.vals[h]) else p
  }

  ghost predicate DataObjects(p: Val, z: Val) {
    p.Obj? && z.Obj? && Concrete(p) && Concrete(z)
  }

  // ---------- how deep the field h goes ----------

  function Depth(v: Val, h: string): nat {
    if v.Obj? && h in v.vals then 1 + Depth(v.vals[h], h) else 0
  }

  /** Merging over something makes it no less deep. */
  lemma {:induction false} MergedDepth(lt: LetterTest, a: Val, b: Val, h: string)
    requires a.Obj? && b.Obj? && Concrete(a) && Concrete(b)
    ensures Depth(DeepMerge(lt, a, b), h) >= Depth(a, h)
  {
    if h in a.vals {
      MergedAtKey(lt, a, b, h);
      if h in b.vals && a.vals[h].Obj? && b.vals[h].Obj? { MergedDepth(lt, a.vals[h], b.vals[h], h); }
    }
  }

  lemma {:induction false} WithItselfIs(lt: LetterTest, h: string, p: Val)
    requires p.Obj? && Concrete(p)
    ensures var s, q := WithItself(lt, h, p), Inside(lt, h, p);
            Concrete(s) && Concrete(q) && Get(s.vals, h) == Some(q) && Depth(s, h) == 1 + Depth(q, h)
  {
    var o := OneField(h, p);
    assert [h][0] == h && Concrete(o);
    DeepMergeIsConcat(lt, o, p, []);
    MergedAtKey(lt, o, p, h);
    if h in p.vals && p.vals[h].Obj? { DeepMergeIsConcat(lt, p, p.vals[h], []); }
  }

  // ---------- two literals ----------

  lemma {:induction false} HoldingJoins(k: string, h: string, id: nat, p: Val, lt: LetterTest)
    requires p.Obj? && Concrete(p)
    ensures Raw(map[], Holding(k, h, id), k) && Joinable(lt, map[], k, Holding(k, h, id), p) &&
            Fits(map[], Holding(k, h, id), p)
  {
    assert [h][0] == h;
    assert Raw(map[], Ref(k, id), k);
    ConcreteIsRaw(map[], p, k);
    ConcreteHasNoSentinel(p);
    forall j | j in p.vals ensures Dead(p.vals[j], k) && Dead(p.vals[j], j) { ConcreteIsRaw(map[], p.vals[j], j); }
  }

  lemma {:induction false} HoldingLayer(lt: LetterTest, k: string, h: string, id: nat, b: Val)
    ensures LayerValue(lt, map[], Holding(k, h, id), Some(Ok(b))) == Ok(OneField(h, b))
  {
    var o, below := Holding(k, h, id), Some(Ok(b));
    assert LayerField(lt, map[], o, h, below) == Ok(b);
    assert [h][1..] == [] && [] + [h] == [h];
    assert LayerFields(lt, map[], o, [], below, OneField(h, b)) == Ok(OneField(h, b));
  }

  /** What phase 1 stores after the first two assignments. */
  function StoredTwo(lt: LetterTest, k: string, h: string, id: nat, p: Val): (r: Val)
    requires p.Obj?
    ensures r.Obj?
  {
    DeepMergeAt(lt, Holding(k, h, id), p, [k], true)
  }

  lemma {:induction false} TwoAre(lt: LetterTest, k: string, h: string, id: nat, p: Val, j: string)
    requires p.Obj? && Concrete(p)
    ensures var s := StoredTwo(lt, k, h, id, p);
            && Get(s.vals, j) == (if j == h then Some(Ref(k, id)) else Get(p.vals, j))
            && Get(s.priors, j) == (if j == h then Get(p.vals, h) else None)
  {
    HoldingJoins(k, h, id, p, lt);
    DeepValue(lt, Holding(k, h, id), p, [k], true, j);
    JoinedPrior(lt, map[], k, Holding(k, h, id), p, [k], j);
  }

  lemma {:induction false} TwoSaved(lt: LetterTest, k: string, h: string, id: nat, p: Val)
    requires p.Obj? && Concrete(p)
    ensures LayerValue(lt, map[], StoredTwo(lt, k, h, id, p), Some(Ok(p))) == Ok(WithItself(lt, h, p))
    ensures Unfolded(map[], StoredTwo(lt, k, h, id, p), k)
  {
    HoldingJoins(k, h, id, p, lt);
    HoldingLayer(lt, k, h, id, p);
    ConcreteLayerValue(lt, map[], p, None);
    JoinedLayer(lt, map[], k, Holding(k, h, id), p, Some(Ok(p)), None, p, [k]);
    JoinedPiece(lt, map[], k, Holding(k, h, id), p, [k]);
  }

  function Three(k: string, h: string, id: nat, p: Val, z: Val): seq<Val> {
    [p, Holding(k, h, id), z]
  }

  lemma {:induction false} Prefixes(k: string, h: string, id: nat, p: Val, z: Val)
    ensures var vs := Three(k, h, id, p, z);
            vs[..2] == [p, Holding(k, h, id)] && vs[..2][..1] == [p] && vs[..2][..1][..0] == []
  {
  }

  lemma {:induction false} OneSaved(lt: LetterTest, k: string, p: Val)
    requires Concrete(p)
    ensures Stored(lt, k, [p]) == p && Saved(lt, map[], k, [p]) == Some(Ok(p)) == Stacked(lt, map[], k, [p])
    ensures AllRaw(lt, map[], k, [p]) && AllFit(lt, map[], k, [p]) && Kept(lt, map[], k, [p])
  {
    assert [p][..0] == [];
    ConcreteLayerValue(lt, map[], p, None);
    ConcreteIsRaw(map[], p, k);
    assert AllRaw(lt, map[], k, []) && AllFit(lt, map[], k, []) && Kept(lt, map[], k, []);
  }

  /** The first two assignments are a chain that keeps its layers. */
  lemma {:induction false} TwoKept(lt: LetterTest, k: string, h: string, id: nat, p: Val)
    requires p.Obj? && Concrete(p)
    ensures var two, s := [p, Holding(k, h, id)], Some(Ok(WithItself(lt, h, p)));
            && Stored(lt, k, two) == StoredTwo(lt, k, h, id, p) &&
              Saved(lt, map[], k, two) == s == Stacked(lt, map[], k, two)
            && AllRaw(lt, map[], k, two) && AllFit(lt, map[], k, two) && Kept(lt, map[], k, two) &&
              Buildable(lt, map[], k, two)
  {
    var two := [p, Holding(k, h, id)];
    assert two[..1] == [p];
    OneSaved(lt, k, p);
    HoldingJoins(k, h, id, p, lt);
    TwoSaved(lt, k, h, id, p);
    HoldingLayer(lt, k, h, id, p);
    ObjectsLaidOver(lt, OneField(h, p), p);
    RawIsBuildable(lt, map[], k, two);
  }

  /** The layers: z over what the first two mean. */
  lemma {:induction false} ThreeLayered(lt: LetterTest, k: string, h: string, id: nat, p: Val, z: Val)
    requires DataObjects(p, z)
    ensures Layered(lt, map[], k, Three(k, h, id, p, z)) == Ok(DeepMerge(lt, z, WithItself(lt, h, p)))
  {
    Prefixes(k, h, id, p, z);
    TwoKept(lt, k, h, id, p);
    ConcreteLayerValue(lt, map[], z, Some(Ok(WithItself(lt, h, p))));
    ObjectsLaidOver(lt, z, WithItself(lt, h, p));
  }

  // ---------- z hides the reference ----------

  /** What Joinable and Fits ask at one key. */
  ghost predicate JoinsHere(lt: LetterTest, k: string, z: Val, e: Val, j: string)
    requires z.Obj? && e.Obj? && j in e.vals
  {
    if j !in z.vals then Dead(e.vals[j], k)
    else if z.vals[j].Obj? && e.vals[j].Obj? then
      && Joinable(lt, map[], k, z.vals[j], e.vals[j]) && Fits(map[], z.vals[j], e.vals[j])
      && (j in e.priors ==> NoObject(Seen(lt, map[], e.priors[j])))
    else (Firm(z.vals[j]) || Loose(lt, map[], k, e, j)) && (!z.vals[j].Obj? ==> Defines(map[], z.vals[j]))
  }

  lemma {:induction false} ThirdJoinsAt(lt: LetterTest, k: string, h: string, id: nat, p: Val, z: Val, j: string)
    requires DataObjects(p, z) && h in z.vals && !z.vals[h].Obj? && j in StoredTwo(lt, k, h, id, p).vals
    ensures JoinsHere(lt, k, z, StoredTwo(lt, k, h, id, p), j)
  {
    TwoAre(lt, k, h, id, p, j);
    if j in z.vals { ConcreteDefines(map[], z.vals[j]); }
    if j != h {
      ConcreteIsRaw(map[], p.vals[j], k);
      ConcreteIsRaw(map[], p.vals[j], j);
      ConcreteIsData(p.vals[j]);
      if j in z.vals && z.vals[j].Obj? && p.vals[j].Obj? { DataJoins(lt, map[], k, z.vals[j], p.vals[j]); }
    }
  }

  lemma {:induction false} ThirdJoins(lt: LetterTest, k: string, h: string, id: nat, p: Val, z: Val)
    requires DataObjects(p, z) && h in z.vals && !z.vals[h].Obj?
    ensures Joinable(lt, map[], k, z, StoredTwo(lt, k, h, id, p)) && Fits(map[], z, StoredTwo(lt, k, h, id, p))
  {
    var e := StoredTwo(lt, k, h, id, p);
    TwoSaved(lt, k, h, id, p);
    forall j | j in e.vals ensures JoinsHere(lt, k, z, e, j) { ThirdJoinsAt(lt, k, h, id, p, z, j); }
  }

  lemma {:induction false} HiddenAgrees(lt: LetterTest, k: string, h: string, id: nat, p: Val, z: Val)
    requires DataObjects(p, z) && h in z.vals && !z.vals[h].Obj?
    ensures var vs := Three(k, h, id, p, z);
            Coded(lt, map[], k, vs) == Layered(lt, map[], k, vs) && Buildable(lt, map[], k, vs)
  {
    var vs := Three(k, h, id, p, z);
    Prefixes(k, h, id, p, z);
    TwoKept(lt, k, h, id, p);
    ThirdJoins(lt, k, h, id, p, z);
    ConcreteIsRaw(map[], z, k);
    assert AllRaw(lt, map[], k, vs) && AllFit(lt, map[], k, vs);
    CodedIsLayered(lt, map[], k, vs, true);
    RawIsBuildable(lt, map[], k, vs);
  }

  // ---------- z leaves it, or puts an object over it ----------

  function StoredThree(lt: LetterTest, k: string, h: string, id: nat, p: Val, z: Val): (r: Val)
    requires p.Obj? && z.Obj?
    ensures r.Obj?
  {
    DeepMergeAt(lt, z, StoredTwo(lt, k, h, id, p), [k], true)
  }

  /** Apart from h, its values are those of z merged over p. */
  lemma {:induction false} ThreeValue(lt: LetterTest, k: string, h: string, id: nat, p: Val, z: Val, j: string)
    requires DataObjects(p, z) && (h in z.vals ==> z.vals[h].Obj?)
    ensures Get(StoredThree(lt, k, h, id, p, z).vals, j) ==
            if j != h then Get(DeepMergeAt(lt, z, p, [k], true).vals, j)
            else if h in z.vals then Some(z.vals[h])
            else Some(Ref(k, id))
  {
    TwoAre(lt, k, h, id, p, j);
    DeepValue(lt, z, StoredTwo(lt, k, h, id, p), [k], true, j);
    DeepValue(lt, z, p, [k], true, j);
    if j in z.vals { ConcreteHasNoSentinel(z.vals[j]); }
  }

  lemma {:induction false} ThreePrior(lt: LetterTest, k: string, h: string, id: nat, p: Val, z: Val, j: string)
    requires DataObjects(p, z) && (h in z.vals ==> z.vals[h].Obj?)
    ensures Get(StoredThree(lt, k, h, id, p, z).priors, j) ==
            if j != h then Get(DeepMergeAt(lt, z, p, [k], true).priors, j)
            else if h in z.vals then Some(Ref(k, id))
            else Get(p.vals, h)
  {
    var e := StoredTwo(lt, k, h, id, p);
    TwoAre(lt, k, h, id, p, j);
    assert Get(StoredThree(lt, k, h, id, p, z).priors, j) == DeepPrior(lt, z, e, [k], true, j);
    assert Get(DeepMergeAt(lt, z, p, [k], true).priors, j) == DeepPrior(lt, z, p, [k], true, j);
    if j == h && h in z.vals { RefBecomesPrior(lt, k, h, id, p, z); }
  }

  /** Apart from h, it is z merged over p; at h the reference is the value, or the
      prior of the object that z has there. */
  lemma {:induction false} ThreeAre(lt: LetterTest, k: string, h: string, id: nat, p: Val, z: Val, j: string)
    requires DataObjects(p, z) && (h in z.vals ==> z.vals[h].Obj?)
    ensures var s, t := StoredThree(lt, k, h, id, p, z), DeepMergeAt(lt, z, p, [k], true);
            && Get(s.vals, j) ==
               (if j != h then Get(t.vals, j) else if h in z.vals then Some(z.vals[h]) else Some(Ref(k, id)))
            && Get(s.priors, j) ==
               (if j != h then Get(t.priors, j) else if h in z.vals then Some(Ref(k, id)) else Get(p.vals, h))
  {
    ThreeValue(lt, k, h, id, p, z, j);
    ThreePrior(lt, k, h, id, p, z, j);
  }

  lemma {:induction false} RefBecomesPrior(lt: LetterTest, k: string, h: string, id: nat, p: Val, z: Val)
    requires DataObjects(p, z) && h in z.vals && z.vals[h].Obj?
    ensures var e := StoredTwo(lt, k, h, id, p);
            h in e.vals && !BothObjects(z, e, h) && CollisionPrior(lt, z, e, [k], true, h) == Some(Ref(k, id))
    ensures !ContainsSentinel(z.vals[h])
  {
    TwoAre(lt, k, h, id, p, h);
    ConcreteHasNoSentinel(z.vals[h]);
    ConcreteHasNoSelfRef(lt, z.vals[h], h);
    SavedWhole(lt, map[], Ref(k, id), k, [k] + [h], None);
  }

  /** A field of z merged over p settles, whatever lies below. */
  lemma {:induction false} DataOverData(lt: LetterTest, k: string, p: Val, z: Val, below: Option<Res>, j: string)
    requires DataObjects(p, z) && ConcreteLayer(below) && (j in z.vals || j in p.vals)
    ensures var t := DeepMergeAt(lt, z, p, [k], true);
            Settles(LayerField(lt, map[], t, j, below)) && Piece(map[], t, k) && Dead(t, k) && !ContainsSentinel(t)
  {
    var t := DeepMergeAt(lt, z, p, [k], true);
    ConcreteIsData(p);
    DataJoins(lt, map[], k, z, p);
    DataMerged(lt, map[], k, z, p, [k]);
    DataIsDead(map[], t, k);
    ConcreteIsRaw(map[], z, k);
    ConcreteLayerValue(lt, map[], p, None);
    JoinedField(lt, map[], k, z, p, below, None, p, [k], j);
    if j in z.vals { ConcreteLayerValue(lt, map[], z.vals[j], below); }
  }

  lemma {:induction false} ThreeKeysMatch(lt: LetterTest, k: string, h: string, id: nat, p: Val, z: Val)
    requires DataObjects(p, z)
    ensures KeysMatch(StoredThree(lt, k, h, id, p, z)) &&
            StoredThree(lt, k, h, id, p, z).vals.Keys == z.vals.Keys + p.vals.Keys + {h}
  {
    assert [h][0] == h;
    JoinedKeys(lt, Holding(k, h, id), p, [k]);
    JoinedKeys(lt, z, StoredTwo(lt, k, h, id, p), [k]);
  }

  // ---------- z leaves the reference where it is ----------

  /** The reference, once more over what p has there. */
  function Reread(lt: LetterTest, h: string, p: Val): (r: Val)
    requires p.Obj?
    ensures r.Obj?
  {
    var s := WithItself(lt, h, p);
    if h in p.vals && p.vals[h].Obj? then DeepMerge(lt, s, p.vals[h]) else s
  }

  lemma {:induction false} RereadIsDeeper(lt: LetterTest, h: string, p: Val)
    requires p.Obj? && Concrete(p)
    ensures Concrete(Reread(lt, h, p)) && Depth(Reread(lt, h, p), h) > Depth(Inside(lt, h, p), h)
  {
    WithItselfIs(lt, h, p);
    if h in p.vals && p.vals[h].Obj? {
      DeepMergeIsConcat(lt, WithItself(lt, h, p), p.vals[h], []);
      MergedDepth(lt, WithItself(lt, h, p), p.vals[h], h);
    }
  }

  lemma {:induction false} LeftReference(lt: LetterTest, k: string, h: string, id: nat, p: Val, z: Val)
    requires DataObjects(p, z) && h !in z.vals
    ensures LayerField(lt, map[], StoredThree(lt, k, h, id, p, z), h, Some(Ok(WithItself(lt, h, p)))) ==
            Ok(Reread(lt, h, p))
  {
    var s, below := WithItself(lt, h, p), Some(Ok(WithItself(lt, h, p)));
    ThreeAre(lt, k, h, id, p, z, h);
    if h in p.vals { ConcreteLayerValue(lt, map[], p.vals[h], below); }
    FieldIs(lt, map[], StoredThree(lt, k, h, id, p, z), h, below, Ok(s),
            if h in p.vals then Some(Ok(p.vals[h])) else None);
  }

  /** The other fields are those of z merged over p. */
  lemma {:induction false} OtherField(lt: LetterTest, k: string, h: string, id: nat, p: Val, z: Val, below: Option<Res>,
                                      j: string)
    requires DataObjects(p, z) && (h in z.vals ==> z.vals[h].Obj?) && j != h
    ensures LayerField(lt, map[], StoredThree(lt, k, h, id, p, z), j, below) ==
            LayerField(lt, map[], DeepMergeAt(lt, z, p, [k], true), j, below)
  {
    ThreeAre(lt, k, h, id, p, z, j);
  }

  lemma {:induction false} LeftField(lt: LetterTest, k: string, h: string, id: nat, p: Val, z: Val, j: string)
    requires DataObjects(p, z) && h !in z.vals && j in z.vals.Keys + p.vals.Keys + {h}
    ensures Settles(LayerField(lt, map[], StoredThree(lt, k, h, id, p, z), j, Some(Ok(WithItself(lt, h, p)))))
  {
    if j != h {
      WithItselfIs(lt, h, p);
      OtherField(lt, k, h, id, p, z, Some(Ok(WithItself(lt, h, p))), j);
      DataOverData(lt, k, p, z, Some(Ok(WithItself(lt, h, p))), j);
    } else {
      LeftReference(lt, k, h, id, p, z);
    }
  }

  lemma {:induction false} SettledObject(s: Val, h: string, want: map<string, Res>, r: Res)
    requires s.Obj? && KeysMatch(s) && want.Keys == s.vals.Keys && (forall j | j in want :: Settles(want[j])) &&
             Gives(r, s.keys, want) && h in want
    ensures r.Ok? && r.v.Obj? && Get(r.v.vals, h) == OptionOf(want[h])
  {
    forall i | 0 <= i < |s.keys| ensures s.keys[i] in want { assert s.keys[i] in s.keys; }
    assert h in s.keys;
  }

  lemma {:induction false} LeftLayer(lt: LetterTest, k: string, h: string, id: nat, p: Val, z: Val)
    requires DataObjects(p, z) && h !in z.vals
    ensures var r := LayerValue(lt, map[], StoredThree(lt, k, h, id, p, z), Some(Ok(WithItself(lt, h, p))));
            r.Ok? && r.v.Obj? && Get(r.v.vals, h) == Some(Reread(lt, h, p))
  {
    var s, below := StoredThree(lt, k, h, id, p, z), Some(Ok(WithItself(lt, h, p)));
    ThreeKeysMatch(lt, k, h, id, p, z);
    forall j | j in s.vals { LeftField(lt, k, h, id, p, z, j); }
    ObjectGives(lt, map[], s, below);
    LeftReference(lt, k, h, id, p, z);
    SettledObject(s, h, FieldMap(lt, map[], s, below), LayerValue(lt, map[], s, below));
  }

  lemma {:induction false} LeftUnfolded(lt: LetterTest, k: string, h: string, id: nat, p: Val, z: Val)
    requires DataObjects(p, z) && h !in z.vals
    ensures Unfolded(map[], StoredThree(lt, k, h, id, p, z), k)
  {
    var s, t := StoredThree(lt, k, h, id, p, z), DeepMergeAt(lt, z, p, [k], true);
    ThreeKeysMatch(lt, k, h, id, p, z);
    forall j
      ensures Get(s.vals, j) == (if j == h then Some(Ref(k, id)) else Get(t.vals, j))
      ensures Get(s.priors, j) == (if j == h then Get(p.vals, h) else Get(t.priors, j)) {
      ThreeAre(lt, k, h, id, p, z, j);
    }
    ConcreteIsData(p);
    DataMerged(lt, map[], k, z, p, [k]);
    DataIsDead(map[], t, k);
    if h in p.vals { ConcreteIsRaw(map[], p.vals[h], k); }
    OneMoreReference(s, t, k, h, id, Get(p.vals, h));
  }

  lemma {:induction false} OneMoreReference(s: Val, t: Val, k: string, h: string, id: nat, prior: Option<Val>)
    requires s.Obj? && t.Obj? && Unfolded(map[], t, k) && KeysMatch(s) &&
             (prior.Some? ==> Piece(map[], prior.value, k) && Dead(prior.value, k))
    requires forall j :: Get(s.vals, j) == if j == h then Some(Ref(k, id)) else Get(t.vals, j)
    requires forall j :: Get(s.priors, j) == if j == h then prior else Get(t.priors, j)
    ensures Unfolded(map[], s, k)
  {
    forall j | j in s.vals ensures Piece(map[], s.vals[j], k) && !ContainsSentinel(s.vals[j]) {
      assert Get(s.vals, j) == Some(s.vals[j]);
    }
    forall j | j in s.priors
      ensures j in s.vals && (Firm(s.vals[j]) || (Piece(map[], s.priors[j], k) && Dead(s.priors[j], k))) {
      assert Get(s.priors, j) == Some(s.priors[j]) && Get(s.vals, j).Some? && Get(s.vals, h).Some?;
    }
  }

  /** Two results whose fields h are not equally deep. */
  ghost predicate Deeper(r: Res, want: Res, h: string) {
    && r.Ok? && r.v.Obj? && h in r.v.vals && want.Ok? && want.v.Obj? && h in want.v.vals
    && Depth(r.v.vals[h], h) > Depth(want.v.vals[h], h)
  }

  lemma {:induction false} LeftDiffers(lt: LetterTest, k: string, h: string, id: nat, p: Val, z: Val)
    requires DataObjects(p, z) && h !in z.vals
    ensures var vs := Three(k, h, id, p, z);
            Buildable(lt, map[], k, vs) && Deeper(Coded(lt, map[], k, vs), Layered(lt, map[], k, vs), h)
  {
    var vs, s, q := Three(k, h, id, p, z), WithItself(lt, h, p), Inside(lt, h, p);
    Prefixes(k, h, id, p, z);
    TwoKept(lt, k, h, id, p);
    LeftUnfolded(lt, k, h, id, p, z);
    WithItselfIs(lt, h, p);
    LeftLayer(lt, k, h, id, p, z);
    RereadIsDeeper(lt, h, p);
    ThreeLayered(lt, k, h, id, p, z);
    assert Stored(lt, k, vs) == StoredThree(lt, k, h, id, p, z);
    var m := LayerValue(lt, map[], StoredThree(lt, k, h, id, p, z), Some(Ok(s))).v;
    LayerIsConcrete(lt, map[], StoredThree(lt, k, h, id, p, z), k, Some(Ok(s)));
    ObjectsLaidOver(lt, m, s);
    MergedAtKey(lt, m, s, h);
    MergedDepth(lt, Reread(lt, h, p), q, h);
    MergedAtKey(lt, z, s, h);
  }
}
