/**
 An object literal put over a field that refers to the key: phase 1 keeps the
 reference as the prior of the new object, where nothing shows any more that it
 stands inside the value it names, and phase 2 follows it into that value.
 */
module Overlays {
  import opened Paths
  import opened Values
  import opened Merge
  import opened Concats
  import opened Resolve
  import opened ResolveLaws
  import opened Reordering
  import opened Assignments
  import opened Layers
  import opened Likeness
  import opened Joins
  import opened Insertions
  import opened Walks
  import opened Chains
  import opened Losses
  import opened Rereads

  // ---------- the document ----------

  /** k = p, k = { h = ${k} }, k = z */
  function Document(k: string, h: string, id: nat, p: Val, z: Val): seq<Field> {
    [Field(k, p, false, 0), Field(k, Holding(k, h, id), false, 0), Field(k, z, false, 0)]
  }

  lemma {:induction false} DocumentAssigns(k: string, h: string, id: nat, p: Val, z: Val, j: string)
    ensures AssignedTo(Document(k, h, id, p, z), j) == if j == k then Three(k, h, id, p, z) else []
    ensures AssignedTo(Document(k, h, id, p, z)[..2], j) == if j == k then [p, Holding(k, h, id)] else []
    ensures KeysOf(Document(k, h, id, p, z)) == [k]
  {
    var fields := Document(k, h, id, p, z);
    var one, two := fields[..1], fields[..2];
    assert one[..0] == [] && two[..1] == one && fields[..|fields| - 1] == two;
    assert AssignedTo(one, j) == (if j == k then [p] else []) && KeysOf(one) == [k];
    assert AssignedTo(two, j) == (if j == k then [p, Holding(k, h, id)] else []) && KeysOf(two) == [k];
  }

  ghost predicate Overlaid(p: Val, z: Val, h: string) {
    DataObjects(p, z) && h in z.vals && z.vals[h].Obj?
  }

  /** The root that phase 1 builds. */
  ghost predicate Built3(lt: LetterTest, root: Val, k: string, h: string, id: nat, p: Val, z: Val)
    requires p.Obj? && z.Obj?
  {
    && root.Obj? && root.keys == [k] && root.vals == map[k := StoredThree(lt, k, h, id, p, z)]
    && StandsFor(lt, map[], Get(root.priors, k), Some(Ok(WithItself(lt, h, p))), k)
  }

  /** After the first two assignments. */
  lemma {:induction false} TwoBuilt(lt: LetterTest, fields: seq<Field>, k: string, h: string, id: nat, p: Val)
    requires p.Obj? && Concrete(p) && AssignedTo(fields, k) == [p, Holding(k, h, id)]
    ensures var d := AssignAll(lt, fields);
            && Get(d.obj.vals, k) == Some(StoredTwo(lt, k, h, id, p)) &&
              Get(d.obj.priors, k) == Get(d.saved, KeyOf(lt, [k]))
            && StandsFor(lt, map[], Get(d.obj.priors, k), Some(Ok(p)), k)
  {
    TwoKept(lt, k, h, id, p);
    OneSaved(lt, k, p);
    assert [p, Holding(k, h, id)][..1] == [p];
    RunStacks(lt, map[], fields, k);
    PriorNeverMentionsItsKey(lt, fields, k);
  }

  /** The third one. */
  lemma {:induction false} ThirdBuilt(lt: LetterTest, d: Doc, k: string, h: string, id: nat, p: Val, z: Val)
    requires d.obj.Obj? && DataObjects(p, z) && Get(d.obj.vals, k) == Some(StoredTwo(lt, k, h, id, p))
    requires Get(d.obj.priors, k) == Get(d.saved, KeyOf(lt, [k])) &&
             StandsFor(lt, map[], Get(d.obj.priors, k), Some(Ok(p)), k)
    ensures var o := Assign(lt, d, k, z).obj;
            && Get(o.vals, k) == Some(StoredThree(lt, k, h, id, p, z))
            && StandsFor(lt, map[], Get(o.priors, k), Some(Ok(WithItself(lt, h, p))), k)
  {
    TwoSaved(lt, k, h, id, p);
    SaveStacks(lt, map[], d.obj.vals[k], k, Get(d.obj.priors, k), Some(Ok(p)));
  }

  lemma {:induction false} DocumentBuilt(lt: LetterTest, k: string, h: string, id: nat, p: Val, z: Val)
    requires DataObjects(p, z)
    ensures Built3(lt, AssignAll(lt, Document(k, h, id, p, z)).obj, k, h, id, p, z)
  {
    var fields := Document(k, h, id, p, z);
    var two := fields[..2];
    assert fields[..|fields| - 1] == two && Desugared(fields[|fields| - 1]) == z;
    DocumentAssigns(k, h, id, p, z, k);
    TwoBuilt(lt, two, k, h, id, p);
    ThirdBuilt(lt, AssignAll(lt, two), k, h, id, p, z);
    RootKeys(lt, fields);
    OneKeyMap(AssignAll(lt, fields).obj, k, StoredThree(lt, k, h, id, p, z));
  }

  lemma {:induction false} OneKeyMap(root: Val, k: string, v: Val)
    requires root.Obj? && KeysMatch(root) && root.keys == [k] && Get(root.vals, k) == Some(v)
    ensures root.vals == map[k := v]
  {
    forall j ensures Get(root.vals, j) == Get(map[k := v], j) { assert j in root.keys <==> j in root.vals; }
    SameMaps(root.vals, map[k := v]);
  }

  // ---------- phase 2 in the field k ----------

  /** The walk stands below the root, k being resolved already or not. */
  ghost predicate Inside3(c: Ctx, k: string, h: string, id: nat, p: Val, z: Val) {
    && Overlaid(p, z, h) && Built3(c.lt, c.root, k, h, id, p, z) && !NeedsQuoting(c.lt, k)
    && c.top == c.root.priors && c.cache == map[] && c.field != []
  }

  lemma {:induction false} PriorResolves(c: Ctx, fuel: nat, k: string, h: string, id: nat, p: Val, z: Val)
    requires Inside3(c, k, h, id, p, z) && fuel > 0
    ensures FindPrior(c, [k], KeyOf(c.lt, [k])).Some?
    ensures ResolveVal(c, fuel, FindPrior(c, [k], KeyOf(c.lt, [k])).value) == Ok(WithItself(c.lt, h, p))
  {
    PlainKey(c.lt, k);
    DeadResolves(c, fuel, map[], c.root.priors[k], k);
  }

  /** A reference whose key is being resolved. */
  lemma {:induction false} RefBack(c: Ctx, fuel: nat, k: string, id: nat, s: Val)
    requires c.root.Obj? && c.field != [] && KeyOf(c.lt, [k]) in c.resolving && KeyOf(c.lt, [k]) !in c.cache && fuel > 0
    requires var prior := FindPrior(c, [k], KeyOf(c.lt, [k]));
             prior.Some? && ResolveVal(c, fuel - 1, prior.value) == Ok(s)
    ensures ResolveVal(c, fuel, Ref(k, id)) == Ok(s)
  {
    assert ResolveSubst(c, fuel, Ref(k, id)) == ResolveBack(c, fuel, Ref(k, id));
  }

  /** A reference whose key is not, to an object with a prior. */
  lemma {:induction false} RefThrough(c: Ctx, fuel: nat, k: string, id: nat, v: Val, m: Val, s: Val)
    requires c.root.Obj? && c.field != [] && KeyOf(c.lt, [k]) !in c.resolving && KeyOf(c.lt, [k]) !in c.cache &&
             fuel > 0
    requires Lookup(c.root, [k]) == Some(v) && !ContainsId(v, id) && m.Obj? && s.Obj?
    requires var c' := c.(resolving := c.resolving + {KeyOf(c.lt, [k])});
             var prior := FindPrior(c', [k], KeyOf(c.lt, [k]));
             ResolveVal(c', fuel - 1, v) == Ok(m) && prior.Some? && ResolveVal(c', fuel - 1, prior.value) == Ok(s)
    ensures ResolveVal(c, fuel, Ref(k, id)) == Ok(DeepMerge(c.lt, m, s))
  {
    var key := KeyOf(c.lt, [k]);
    assert FindPrior(c.(resolving := c.resolving + {key}), [k], key) == FindPrior(c, [k], key);
    assert ResolveSubst(c, fuel, Ref(k, id)) == Settle(c.lt, Ok(m), Ok(s));
  }

  lemma {:induction false} RefLooksBack(c: Ctx, fuel: nat, k: string, h: string, id: nat, p: Val, z: Val)
    requires Inside3(c, k, h, id, p, z) && KeyOf(c.lt, [k]) in c.resolving && fuel > 1
    ensures ResolveVal(c, fuel, Ref(k, id)) == Ok(WithItself(c.lt, h, p))
  {
    PriorResolves(c, fuel - 1, k, h, id, p, z);
    RefBack(c, fuel, k, id, WithItself(c.lt, h, p));
  }

  lemma {:induction false} OtherResolves(c: Ctx, fuel: nat, k: string, h: string, id: nat, p: Val, z: Val, j: string)
    requires Inside3(c, k, h, id, p, z) && fuel > 0 && j != h && (j in z.vals || j in p.vals)
    ensures Settles(ResolveField(c, fuel, StoredThree(c.lt, k, h, id, p, z), j))
  {
    var s, t := StoredThree(c.lt, k, h, id, p, z), DeepMergeAt(c.lt, z, p, [k], true);
    ThreeAre(c.lt, k, h, id, p, z, j);
    DataOverData(c.lt, k, p, z, None, j);
    DeadFieldResolves(c, fuel, map[], t, j, k);
    assert ResolveField(c, fuel, s, j) == ResolveField(c, fuel, t, j);
  }

  /** The field h: z's object over whatever the reference gives. */
  lemma {:induction false} OverlaidField(c: Ctx, fuel: nat, k: string, h: string, id: nat, p: Val, z: Val, b: Val)
    requires Inside3(c, k, h, id, p, z) && b.Obj? && ResolveVal(c.(field := c.field + [h]), fuel, Ref(k, id)) == Ok(b)
    ensures ResolveField(c, fuel, StoredThree(c.lt, k, h, id, p, z), h) == Ok(DeepMerge(c.lt, z.vals[h], b))
  {
    ThreeAre(c.lt, k, h, id, p, z, h);
    ConcreteResolvesToItself(c.(field := c.field + [h]), fuel, z.vals[h]);
  }

  // ---------- the reference is followed ----------

  lemma {:induction false} NoIdInData(v: Val, id: nat)
    requires NoPlaceholders(v)
    ensures !ContainsId(v, id)
  {
    match v
    case Arr(es) => forall i | 0 <= i < |es| { NoIdInData(es[i], id); }
    case Obj(_, vals, _) => forall j | j in vals { NoIdInData(vals[j], id); }
    case _ =>
  }

  /** Only as a prior does the reference stand inside the value. */
  lemma {:induction false} NotSeenInside(lt: LetterTest, k: string, h: string, id: nat, p: Val, z: Val)
    requires Overlaid(p, z, h)
    ensures !ContainsId(StoredThree(lt, k, h, id, p, z), id)
  {
    var s, t := StoredThree(lt, k, h, id, p, z), DeepMergeAt(lt, z, p, [k], true);
    ConcreteIsData(p);
    DataMerged(lt, map[], k, z, p, [k]);
    DataIsDead(map[], t, k);
    forall j | j in s.vals ensures !ContainsId(s.vals[j], id) {
      ThreeAre(lt, k, h, id, p, z, j);
      if j == h {
        ConcreteHasNoId(z.vals[h], id);
      } else {
        assert s.vals[j] == t.vals[j];
        NoIdInData(t.vals[j], id);
      }
    }
  }

  /** What the reference gives while k is not being resolved: the whole value, in
      which it is met again and looks back. */
  function Followed(lt: LetterTest, h: string, p: Val, m: Val): (r: Val)
    requires p.Obj? && m.Obj?
    ensures r.Obj?
  {
    DeepMerge(lt, m, WithItself(lt, h, p))
  }

  // ---------- the results ----------

  lemma {:induction false} OneFieldRoot(lt: LetterTest, root: Val, k: string, fuel: nat)
    requires root.Obj? && root.keys == [k] && ResolveField(Start(lt, root), fuel, root, k).Ok?
    ensures var r := ResolveTree(lt, root, fuel);
            r.Ok? && r.v.Obj? && Get(r.v.vals, k) == Some(ResolveField(Start(lt, root), fuel, root, k).v)
  {
    var c, v := Start(lt, root), ResolveField(Start(lt, root), fuel, root, k).v;
    var c' := c.(cache := c.cache[KeyOf(lt, [k]) := v]);
    assert [k][0] == k && [k][1..] == [];
    assert ResolveFields(c', fuel, root, [], true, Set(EMPTY_OBJ, k, v)) == Built(Set(EMPTY_OBJ, k, v), c'.cache);
    assert ResolveFields(c, fuel, root, [k], true, EMPTY_OBJ) == Built(Set(EMPTY_OBJ, k, v), c'.cache);
  }

  lemma {:induction false} PlainResolves(lt: LetterTest, k: string, h: string, id: nat, p: Val, z: Val, fuel: nat)
    requires DataObjects(p, z) && !NeedsQuoting(lt, k) && fuel > 1 && Buildable(lt, map[], k, Three(k, h, id, p, z))
    requires Coded(lt, map[], k, Three(k, h, id, p, z)).Ok?
    ensures var r := ResolveTree(lt, AssignAll(lt, Document(k, h, id, p, z)).obj, fuel);
            r.Ok? && r.v.Obj? && Get(r.v.vals, k) == Some(Coded(lt, map[], k, Three(k, h, id, p, z)).v)
  {
    var fields := Document(k, h, id, p, z);
    forall j ensures Buildable(lt, map[], j, AssignedTo(fields, j)) { DocumentAssigns(k, h, id, p, z, j); }
    DocumentAssigns(k, h, id, p, z, k);
    OneKeyResolves(lt, fields, k, Coded(lt, map[], k, Three(k, h, id, p, z)).v, fuel);
  }

  // ---------- the whole result ----------

  /** z over p, with z's object at h merged over b. */
  function Whole(lt: LetterTest, h: string, p: Val, z: Val, b: Val): (r: Val)
    requires p.Obj? && z.Obj? && h in z.vals && z.vals[h].Obj? && b.Obj?
    ensures r.Obj?
  {
    Set(DeepMerge(lt, z, p), h, DeepMerge(lt, z.vals[h], b))
  }

  lemma {:induction false} WholeIs(lt: LetterTest, h: string, p: Val, z: Val, b: Val)
    requires Overlaid(p, z, h) && b.Obj? && Concrete(b)
    ensures var r := Whole(lt, h, p, z, b);
            && Concrete(r)
            && forall j :: Get(r.vals, j) ==
                           if j == h then Some(DeepMerge(lt, z.vals[h], b))
                           else Upper(lt, Get(z.vals, j), Get(p.vals, j))
  {
    var r, t := Whole(lt, h, p, z, b), DeepMerge(lt, z, p);
    MergedIsData(lt, z, p);
    MergedIsData(lt, z.vals[h], b);
    forall j ensures Get(t.vals, j) == Upper(lt, Get(z.vals, j), Get(p.vals, j)) { MergedAtKey(lt, z, p, j); }
    assert Upper(lt, Get(z.vals, h), Get(p.vals, h)).Some?;
    assert h in t.vals && r.keys == t.keys;
  }

  /** z over p as phase 1 stores it. */
  lemma {:induction false} StoredData(lt: LetterTest, k: string, p: Val, z: Val, j: string)
    requires DataObjects(p, z) && (j in z.vals || j in p.vals)
    ensures var w := LayerField(lt, map[], DeepMergeAt(lt, z, p, [k], true), j, None);
            LikeOption(false, OptionOf(w), Upper(lt, Get(z.vals, j), Get(p.vals, j)))
  {
    ConcreteIsData(p);
    DataJoins(lt, map[], k, z, p);
    ConcreteIsRaw(map[], z, k);
    ConcreteLayerValue(lt, map[], p, None);
    JoinedField(lt, map[], k, z, p, None, None, p, [k], j);
    if j in z.vals { ConcreteLayerValue(lt, map[], z.vals[j], None); }
  }

  lemma {:induction false} OtherValue(c: Ctx, fuel: nat, k: string, h: string, id: nat, p: Val, z: Val, j: string)
    requires Inside3(c, k, h, id, p, z) && fuel > 0 && j != h && (j in z.vals || j in p.vals)
    ensures var w := ResolveField(c, fuel, StoredThree(c.lt, k, h, id, p, z), j);
            LikeOption(false, OptionOf(w), Upper(c.lt, Get(z.vals, j), Get(p.vals, j)))
  {
    var s, t := StoredThree(c.lt, k, h, id, p, z), DeepMergeAt(c.lt, z, p, [k], true);
    ThreeAre(c.lt, k, h, id, p, z, j);
    DataOverData(c.lt, k, p, z, None, j);
    DeadFieldResolves(c, fuel, map[], t, j, k);
    assert ResolveField(c, fuel, s, j) == ResolveField(c, fuel, t, j);
    StoredData(c.lt, k, p, z, j);
  }

  /** Every field of a walk that settles. */
  lemma {:induction false} SettledFields(c: Ctx, fuel: nat, o: Val, keys: seq<string>, acc: Val)
    requires o.Obj? && acc.Obj? && Distinct(keys)
    requires forall i | 0 <= i < |keys| :: Settles(ResolveField(c, fuel, o, keys[i])) && keys[i] !in acc.vals
    ensures var r := ResolveFields(c, fuel, o, keys, false, acc);
            && r.Built?
            && forall j :: Get(r.o.vals, j) ==
                           if j in keys then OptionOf(ResolveField(c, fuel, o, j)) else Get(acc.vals, j)
    decreases |keys|
  {
    if keys != [] {
      var r := ResolveField(c, fuel, o, keys[0]);
      assert forall i | 0 <= i < |keys[1..]| :: keys[1..][i] == keys[i + 1];
      SettledFields(c, fuel, o, keys[1..], if r.Ok? then Set(acc, keys[0], r.v) else acc);
      assert forall j :: j in keys <==> j == keys[0] || j in keys[1..];
    }
  }

  lemma {:induction false} WholeField(c: Ctx, fuel: nat, k: string, h: string, id: nat, p: Val, z: Val, b: Val,
                                      j: string)
    requires Inside3(c, k, h, id, p, z) && fuel > 0 && b.Obj? && Concrete(b)
    requires ResolveVal(c.(field := c.field + [h]), fuel, Ref(k, id)) == Ok(b)
    requires j in StoredThree(c.lt, k, h, id, p, z).vals
    ensures var w := ResolveField(c, fuel, StoredThree(c.lt, k, h, id, p, z), j);
            Settles(w) && LikeOption(false, OptionOf(w), Get(Whole(c.lt, h, p, z, b).vals, j))
  {
    ThreeKeysMatch(c.lt, k, h, id, p, z);
    WholeIs(c.lt, h, p, z, b);
    if j == h {
      OverlaidField(c, fuel, k, h, id, p, z, b);
      ReorderedItself(DeepMerge(c.lt, z.vals[h], b));
    } else {
      OtherResolves(c, fuel, k, h, id, p, z, j);
      OtherValue(c, fuel, k, h, id, p, z, j);
    }
  }

  lemma {:induction false} WholeAt(c: Ctx, fuel: nat, k: string, h: string, id: nat, p: Val, z: Val, b: Val, r: Val,
                                   j: string)
    requires Inside3(c, k, h, id, p, z) && fuel > 0 && b.Obj? && Concrete(b) && r.Obj?
    requires ResolveVal(c.(field := c.field + [h]), fuel, Ref(k, id)) == Ok(b)
    requires var s := StoredThree(c.lt, k, h, id, p, z);
             Get(r.vals, j) == if j in s.keys then OptionOf(ResolveField(c, fuel, s, j)) else None
    ensures AlikeAt(r, Whole(c.lt, h, p, z, b), j)
  {
    ThreeKeysMatch(c.lt, k, h, id, p, z);
    WholeIs(c.lt, h, p, z, b);
    var s := StoredThree(c.lt, k, h, id, p, z);
    assert j in s.keys <==> j in s.vals;
    if j in s.vals { WholeField(c, fuel, k, h, id, p, z, b, j); }
  }

  lemma {:induction false} WholeResolves(c: Ctx, fuel: nat, k: string, h: string, id: nat, p: Val, z: Val, b: Val)
    requires Inside3(c, k, h, id, p, z) && fuel > 0 && b.Obj? && Concrete(b)
    requires ResolveVal(c.(field := c.field + [h]), fuel, Ref(k, id)) == Ok(b)
    ensures var r := ResolveVal(c, fuel, StoredThree(c.lt, k, h, id, p, z));
            r.Ok? && Concrete(r.v) && r.v.Obj? && Reordered(r.v, Whole(c.lt, h, p, z, b))
  {
    var s := StoredThree(c.lt, k, h, id, p, z);
    ThreeKeysMatch(c.lt, k, h, id, p, z);
    forall i | 0 <= i < |s.keys| ensures Settles(ResolveField(c, fuel, s, s.keys[i])) {
      assert s.keys[i] in s.keys;
      WholeField(c, fuel, k, h, id, p, z, b, s.keys[i]);
    }
    SettledFields(c, fuel, s, s.keys, EMPTY_OBJ);
    var r := ResolveVal(c, fuel, s);
    ValIsConcrete(c, fuel, s);
    WholeIs(c.lt, h, p, z, b);
    AlikeByKeys(r.v, Whole(c.lt, h, p, z, b));
    forall j { WholeAt(c, fuel, k, h, id, p, z, b, r.v, j); }
  }

  /** What the reference gives while k is not being resolved, in terms of p and z. */
  function Through(lt: LetterTest, h: string, p: Val, z: Val): (r: Val)
    requires Overlaid(p, z, h)
    ensures r.Obj?
  {
    Followed(lt, h, p, Whole(lt, h, p, z, WithItself(lt, h, p)))
  }

  lemma {:induction false} ThroughIs(c: Ctx, fuel: nat, k: string, h: string, id: nat, p: Val, z: Val)
    requires Inside3(c, k, h, id, p, z) && KeyOf(c.lt, [k]) !in c.resolving && fuel > 2
    ensures var r := ResolveVal(c, fuel, Ref(k, id));
            r.Ok? && r.v.Obj? && Concrete(r.v) && Concrete(Through(c.lt, h, p, z)) &&
              Reordered(r.v, Through(c.lt, h, p, z))
  {
    var v, s, c' := StoredThree(c.lt, k, h, id, p, z), WithItself(c.lt, h, p),
      c.(resolving := c.resolving + {KeyOf(c.lt, [k])});
    WithItselfIs(c.lt, h, p);
    NotSeenInside(c.lt, k, h, id, p, z);
    RefLooksBack(c'.(field := c'.field + [h]), fuel - 1, k, h, id, p, z);
    WholeResolves(c', fuel - 1, k, h, id, p, z, s);
    var m, w := ResolveVal(c', fuel - 1, v).v, Whole(c.lt, h, p, z, s);
    PriorResolves(c', fuel - 1, k, h, id, p, z);
    RefThrough(c, fuel, k, id, v, m, s);
    WholeIs(c.lt, h, p, z, s);
    ReorderedItself(s);
    DeepReordered(c.lt, m, w, s, s);
    MergedIsData(c.lt, m, s);
    MergedIsData(c.lt, w, s);
  }

  /** The result at k. */
  function Outcome(lt: LetterTest, h: string, p: Val, z: Val): (r: Val)
    requires Overlaid(p, z, h)
    ensures r.Obj?
  {
    DeepMerge(lt, Whole(lt, h, p, z, Through(lt, h, p, z)), WithItself(lt, h, p))
  }

  /** Another b of the same values. */
  lemma {:induction false} WholeAlike(lt: LetterTest, h: string, p: Val, z: Val, a: Val, b: Val)
    requires Overlaid(p, z, h) && a.Obj? && b.Obj? && Concrete(a) && Concrete(b) && Reordered(a, b)
    ensures Reordered(Whole(lt, h, p, z, a), Whole(lt, h, p, z, b))
  {
    var x, y := Whole(lt, h, p, z, a), Whole(lt, h, p, z, b);
    WholeIs(lt, h, p, z, a);
    WholeIs(lt, h, p, z, b);
    ReorderedItself(z.vals[h]);
    DeepReordered(lt, z.vals[h], z.vals[h], a, b);
    AlikeByKeys(x, y);
    forall j ensures AlikeAt(x, y, j) {
      if j != h && j in x.vals { ReorderedItself(x.vals[j]); }
    }
  }

  lemma {:induction false} OutcomeIs(c: Ctx, fuel: nat, k: string, h: string, id: nat, p: Val, z: Val)
    requires Inside3(c.(field := [k]), k, h, id, p, z) && c.field == [] && c.resolving == {} && fuel > 2
    ensures var r := ResolveField(c, fuel, c.root, k);
            r.Ok? && r.v.Obj? && Reordered(r.v, Outcome(c.lt, h, p, z))
  {
    var c', s := c.(field := [k]), WithItself(c.lt, h, p);
    assert c.(field := c.field + [k]) == c';
    ThroughIs(c'.(field := c'.field + [h]), fuel, k, h, id, p, z);
    var b, t := ResolveVal(c'.(field := c'.field + [h]), fuel, Ref(k, id)).v, Through(c.lt, h, p, z);
    WholeResolves(c', fuel, k, h, id, p, z, b);
    WholeAlike(c.lt, h, p, z, b, t);
    var o, w := ResolveVal(c', fuel, c.root.vals[k]).v, Whole(c.lt, h, p, z, t);
    ReorderedTransitive(o, Whole(c.lt, h, p, z, b), w);
    DeadResolves(c', fuel, map[], c.root.priors[k], k);
    FieldLaidOver(c, fuel, k, Ok(o), Some(Ok(s)));
    ObjectsLaidOver(c.lt, o, s);
    WithItselfIs(c.lt, h, p);
    WholeIs(c.lt, h, p, z, t);
    ReorderedItself(s);
    DeepReordered(c.lt, o, w, s, s);
  }

  /** The outcome against z over the layers: the same, except at h. */
  lemma {:induction false} OutcomeElsewhere(lt: LetterTest, h: string, p: Val, z: Val, j: string)
    requires Overlaid(p, z, h) && Concrete(Through(lt, h, p, z)) && j != h
    ensures Get(Outcome(lt, h, p, z).vals, j) == Get(DeepMerge(lt, z, WithItself(lt, h, p)).vals, j)
  {
    var s, t := WithItself(lt, h, p), Through(lt, h, p, z);
    WithItselfIs(lt, h, p);
    WholeIs(lt, h, p, z, t);
    MergedAtKey(lt, OneField(h, p), p, j);
    MergedAtKey(lt, Whole(lt, h, p, z, t), s, j);
    MergedAtKey(lt, z, s, j);
    UpperTwice(lt, Get(z.vals, j), Get(p.vals, j));
  }

  lemma {:induction false} UpperTwice(lt: LetterTest, a: Option<Val>, b: Option<Val>)
    requires (a.Some? ==> Concrete(a.value)) && (b.Some? ==> Concrete(b.value))
    ensures Upper(lt, Upper(lt, a, b), b) == Upper(lt, a, b)
  {
    if a.Some? && b.Some? && a.value.Obj? && b.value.Obj? {
      MergeStays(lt, a.value, b.value);
    } else if a.None? && b.Some? && b.value.Obj? {
      CoversItself(b.value);
      CoversExactly(lt, b.value, b.value, []);
    }
  }

  lemma {:induction false} OutcomeInside(lt: LetterTest, h: string, p: Val, z: Val)
    requires Overlaid(p, z, h) && Concrete(Through(lt, h, p, z))
    ensures var t := Through(lt, h, p, z);
            Get(Outcome(lt, h, p, z).vals, h) == Some(DeepMerge(lt, DeepMerge(lt, z.vals[h], t), Inside(lt, h, p)))
    ensures Get(DeepMerge(lt, z, WithItself(lt, h, p)).vals, h) == Some(DeepMerge(lt, z.vals[h], Inside(lt, h, p)))
  {
    var s, t := WithItself(lt, h, p), Through(lt, h, p, z);
    WithItselfIs(lt, h, p);
    WholeIs(lt, h, p, z, t);
    MergedAtKey(lt, Whole(lt, h, p, z, t), s, h);
    MergedAtKey(lt, z, s, h);
  }

  lemma {:induction false} OutcomeExactly(lt: LetterTest, h: string, p: Val, z: Val)
    requires Overlaid(p, z, h) && Concrete(Through(lt, h, p, z))
    ensures Reordered(Outcome(lt, h, p, z), DeepMerge(lt, z, WithItself(lt, h, p))) <==>
            AddsNothing(z.vals[h], Through(lt, h, p, z), Inside(lt, h, p))
  {
    var s, t := WithItself(lt, h, p), Through(lt, h, p, z);
    WithItselfIs(lt, h, p);
    WholeIs(lt, h, p, z, t);
    MergedIsData(lt, Whole(lt, h, p, z, t), s);
    MergedIsData(lt, z, s);
    AddsNothingExactly(lt, z.vals[h], t, Inside(lt, h, p));
    forall j | j != h { OutcomeElsewhere(lt, h, p, z, j); }
    OutcomeInside(lt, h, p, z);
    AlikeButAt(Outcome(lt, h, p, z), DeepMerge(lt, z, s), h);
  }

  lemma {:induction false} ReorderedAlike(a: Val, b: Val, c: Val)
    requires Reordered(a, b)
    ensures Reordered(a, c) <==> Reordered(b, c)
  {
    ReorderedSymmetric(a, b);
    if Reordered(a, c) { ReorderedTransitive(b, a, c); }
    if Reordered(b, c) { ReorderedTransitive(a, b, c); }
  }

  /** With an object at h in z: what comes out, and it is that of the layers, in
      whatever order of fields, exactly when what the reference is followed to adds
      nothing between z's object and the layers' one. */
  lemma {:induction false} OverlaidAgreesExactly(lt: LetterTest, k: string, h: string, id: nat, p: Val, z: Val,
                                                 fuel: nat)
    requires Overlaid(p, z, h) && !NeedsQuoting(lt, k) && fuel > 2
    ensures var fields := Document(k, h, id, p, z);
            var r, want := ResolveTree(lt, AssignAll(lt, fields).obj, fuel), LayeredField(lt, map[], fields, k);
            && r.Ok? && r.v.Obj? && k in r.v.vals && Reordered(r.v.vals[k], Outcome(lt, h, p, z))
            && want == Ok(DeepMerge(lt, z, WithItself(lt, h, p)))
            && (Reordered(r.v.vals[k], want.v) <==> AddsNothing(z.vals[h], Through(lt, h, p, z), Inside(lt, h, p)))
  {
    var root := AssignAll(lt, Document(k, h, id, p, z)).obj;
    DocumentAssigns(k, h, id, p, z, k);
    ThreeLayered(lt, k, h, id, p, z);
    DocumentBuilt(lt, k, h, id, p, z);
    var c := Start(lt, root);
    OutcomeIs(c, fuel, k, h, id, p, z);
    ThroughIs(c.(field := [k] + [h]), fuel, k, h, id, p, z);
    OneFieldRoot(lt, root, k, fuel);
    OutcomeExactly(lt, h, p, z);
    ReorderedAlike(ResolveField(c, fuel, root, k).v, Outcome(lt, h, p, z), DeepMerge(lt, z, WithItself(lt, h, p)));
  }

  // ---------- every such document ----------

  /** No scalar or array stands at the end of the fields h, one in the other. */
  predicate Open(v: Val, h: string) {
    v.Obj? && (h in v.vals ==> Open(v.vals[h], h))
  }

  lemma {:induction false} OpenShowsDepth(lt: LetterTest, a: Val, b: Val, h: string)
    requires Open(a, h) && b.Obj? && Concrete(a) && Concrete(b)
    ensures Depth(DeepMerge(lt, a, b), h) >= Depth(b, h)
  {
    MergedAtKey(lt, a, b, h);
    if h in a.vals && h in b.vals && b.vals[h].Obj? { OpenShowsDepth(lt, a.vals[h], b.vals[h], h); }
  }

  lemma {:induction false} NoDeeperThanBoth(lt: LetterTest, a: Val, b: Val, h: string)
    requires a.Obj? && b.Obj? && Concrete(a) && Concrete(b)
    ensures Depth(DeepMerge(lt, a, b), h) <= Depth(a, h) || Depth(DeepMerge(lt, a, b), h) <= Depth(b, h)
  {
    MergedAtKey(lt, a, b, h);
    if h in a.vals && h in b.vals && a.vals[h].Obj? && b.vals[h].Obj? { NoDeeperThanBoth(lt, a.vals[h], b.vals[h], h); }
  }

  lemma {:induction false} AsDeep(a: Val, b: Val, h: string)
    requires Reordered(a, b)
    ensures Depth(a, h) == Depth(b, h)
  {
    if a.Obj? && h in a.vals { AsDeep(a.vals[h], b.vals[h], h); }
  }

  /** What the reference is followed to goes deeper than both. */
  lemma {:induction false} ThroughIsDeeper(lt: LetterTest, h: string, p: Val, z: Val)
    requires Overlaid(p, z, h) && Open(z.vals[h], h)
    ensures var t := Through(lt, h, p, z);
            Concrete(t) && Depth(t, h) > Depth(z.vals[h], h) && Depth(t, h) > Depth(Inside(lt, h, p), h)
  {
    var s, o := WithItself(lt, h, p), z.vals[h];
    WithItselfIs(lt, h, p);
    WholeIs(lt, h, p, z, s);
    MergedIsData(lt, Whole(lt, h, p, z, s), s);
    MergedDepth(lt, Whole(lt, h, p, z, s), s, h);
    OpenShowsDepth(lt, o, s, h);
    MergedDepth(lt, o, s, h);
  }

  /** Where nothing of z's object closes the chain of fields h, the result is not that
      of the layers. */
  lemma {:induction false} OpenDiffers(lt: LetterTest, h: string, p: Val, z: Val)
    requires Overlaid(p, z, h) && Open(z.vals[h], h)
    ensures !AddsNothing(z.vals[h], Through(lt, h, p, z), Inside(lt, h, p))
  {
    var o, t, q := z.vals[h], Through(lt, h, p, z), Inside(lt, h, p);
    WithItselfIs(lt, h, p);
    ThroughIsDeeper(lt, h, p, z);
    AddsNothingExactly(lt, o, t, q);
    MergedIsData(lt, o, t);
    OpenShowsDepth(lt, o, t, h);
    MergedDepth(lt, DeepMerge(lt, o, t), q, h);
    NoDeeperThanBoth(lt, o, q, h);
    if Reordered(DeepMerge(lt, DeepMerge(lt, o, t), q), DeepMerge(lt, o, q)) {
      AsDeep(DeepMerge(lt, DeepMerge(lt, o, t), q), DeepMerge(lt, o, q), h);
    }
  }

  /** z hides the reference, or has an object over it that leaves nothing of it to be
      seen. */
  ghost predicate Closes(lt: LetterTest, h: string, p: Val, z: Val)
    requires DataObjects(p, z)
  {
    h in z.vals && (z.vals[h].Obj? ==> AddsNothing(z.vals[h], Through(lt, h, p, z), Inside(lt, h, p)))
  }

  lemma {:induction false} LeftIsNotAlike(lt: LetterTest, k: string, h: string, id: nat, p: Val, z: Val)
    requires DataObjects(p, z) && h !in z.vals
    ensures var vs := Three(k, h, id, p, z);
            && Buildable(lt, map[], k, vs) && Coded(lt, map[], k, vs).Ok? && Layered(lt, map[], k, vs).Ok?
            && !Reordered(Coded(lt, map[], k, vs).v, Layered(lt, map[], k, vs).v)
  {
    var vs := Three(k, h, id, p, z);
    LeftDiffers(lt, k, h, id, p, z);
    var r, want := Coded(lt, map[], k, vs).v, Layered(lt, map[], k, vs).v;
    if Reordered(r, want) { AsDeep(r.vals[h], want.vals[h], h); }
  }

  /** For every document k = p, k = { h = ${k} }, k = z of data: the result is that of
      the layers, in whatever order of fields, exactly when z closes h. */
  lemma {:induction false} EarlierLiteralAgreesExactly(lt: LetterTest, k: string, h: string, id: nat, p: Val, z: Val,
                                                       fuel: nat)
    requires DataObjects(p, z) && !NeedsQuoting(lt, k) && fuel > 2
    ensures var fields := Document(k, h, id, p, z);
            var r, want := ResolveTree(lt, AssignAll(lt, fields).obj, fuel), LayeredField(lt, map[], fields, k);
            r.Ok? && r.v.Obj? && k in r.v.vals && want.Ok? &&
              (Reordered(r.v.vals[k], want.v) <==> Closes(lt, h, p, z))
  {
    DocumentAssigns(k, h, id, p, z, k);
    ThreeLayered(lt, k, h, id, p, z);
    if h in z.vals && z.vals[h].Obj? {
      OverlaidAgreesExactly(lt, k, h, id, p, z, fuel);
    } else if h in z.vals {
      HiddenAgrees(lt, k, h, id, p, z);
      PlainResolves(lt, k, h, id, p, z, fuel);
      ReorderedItself(DeepMerge(lt, z, WithItself(lt, h, p)));
    } else {
      LeftIsNotAlike(lt, k, h, id, p, z);
      PlainResolves(lt, k, h, id, p, z, fuel);
    }
  }
}
