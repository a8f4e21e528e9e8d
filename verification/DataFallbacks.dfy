/**
 An unresolved configuration over a fallback of plain data, every key assigned at
 most once on either side: what resolving the merge gives, against resolving one
 document that has the fallback's assignments first.  Where two object literals
 meet, the merge saves no prior.
 */
module DataFallbacks {
  import opened Paths
  import opened Values
  import opened Fold
  import opened Merge
  import opened MergeLaws
  import opened Concats
  import opened Resolve
  import opened Assignments
  import opened Layers
  import opened Likeness
  import opened Joins
  import opened Walks
  import opened Chains
  import opened Fallbacks
  import opened Carries
  import opened FallbackRuns

  // ---------- two literals that meet ----------

  ghost predicate Meeting(env: Env, u: Val, p: Val, k: string, below: Option<Res>) {
    u.Obj? && p.Obj? && Raw(env, u, k) && Concrete(p) && DataEnv(env) && ConcreteLayer(below)
  }

  lemma {:induction false} DataCaptured(lt: LetterTest, env: Env, v: Val, k: string, key: string)
    requires Concrete(v)
    ensures Piece(env, v, k) && Dead(v, k) && FoldOrSkip(lt, v, key, None) == Some(v)
  {
    ConcreteIsRaw(env, v, k);
    ConcreteIsData(v);
    DataIsDead(env, v, k);
    SavedAsIs(lt, v, key, true);
  }

  lemma {:induction false} MetPrior(lt: LetterTest, env: Env, u: Val, p: Val, k: string, j: string)
    requires u.Obj? && p.Obj? && Raw(env, u, k) && Concrete(p)
    ensures Get(MergeUnresolved(lt, u, p).priors, j) ==
            if j in u.vals && j in p.vals && !BothObjects(u, p, j) then Some(p.vals[j]) else None
  {
    UnresolvedPriorOf(lt, u, p, j);
    if j in p.vals { DataCaptured(lt, env, p.vals[j], k, j); }
  }

  lemma {:induction false} MetKeys(lt: LetterTest, u: Val, p: Val)
    requires u.Obj? && p.Obj? && KeysMatch(u) && KeysMatch(p)
    ensures var m := MergeUnresolved(lt, u, p); KeysMatch(m) && m.vals.Keys == u.vals.Keys + p.vals.Keys
  {
    var m := MergeUnresolved(lt, u, p);
    forall j ensures j in m.vals <==> j in p.vals || j in u.vals { UnresolvedValue(lt, u, p, j); }
    MergedKeysMatch(p, u, m);
  }

  /** What the merge holds may be read like any other object. */
  lemma {:induction false} MetIsPiece(lt: LetterTest, env: Env, u: Val, p: Val, k: string)
    requires u.Obj? && p.Obj? && Raw(env, u, k) && Concrete(p)
    ensures Piece(env, MergeUnresolved(lt, u, p), k)
    decreases u
  {
    var m := MergeUnresolved(lt, u, p);
    MetKeys(lt, u, p);
    forall j | j in m.vals ensures Piece(env, m.vals[j], k) {
      UnresolvedValue(lt, u, p, j);
      if j in p.vals { DataCaptured(lt, env, p.vals[j], k, j); }
      if j in u.vals && j in p.vals && BothObjects(u, p, j) { MetIsPiece(lt, env, u.vals[j], p.vals[j], k); }
    }
    forall j | j in m.priors ensures j in m.vals && Piece(env, m.priors[j], k) && Dead(m.priors[j], k) {
      MetPrior(lt, env, u, p, k, j);
      DataCaptured(lt, env, p.vals[j], k, j);
    }
  }

  /** A field of the merge: as in a merge of data, or failing where the receiver's fails. */
  ghost predicate MeetsAt(lt: LetterTest, env: Env, u: Val, p: Val, below: Option<Res>, j: string)
    requires u.Obj? && p.Obj?
  {
    var a, w := Joins.Part(lt, env, u, j, below), LayerField(lt, env, MergeUnresolved(lt, u, p), j, below);
    if a.Fail? then w == Fail
    else Settles(w) && LikeOption(false, OptionOf(w), Upper(lt, OptionOf(a), Get(p.vals, j)))
  }

  /** A key of one of them alone. */
  lemma {:induction false} MeetsAlone(lt: LetterTest, env: Env, u: Val, p: Val, k: string, below: Option<Res>,
                                      j: string)
    requires Meeting(env, u, p, k, below) && (j in u.vals <==> j !in p.vals)
    ensures MeetsAt(lt, env, u, p, below, j)
  {
    UnresolvedValue(lt, u, p, j);
    MetPrior(lt, env, u, p, k, j);
    if j in p.vals {
      ConcreteLayerValue(lt, env, p.vals[j], below);
      LikeItself(false, p.vals[j]);
    } else {
      LayerIsConcrete(lt, env, u.vals[j], k, below);
      var r := LayerValue(lt, env, u.vals[j], below);
      if r.Ok? { LikeItself(false, r.v); }
    }
  }

  /** What the receiver has over the fallback's value, its prior. */
  lemma {:induction false} SettledOver(lt: LetterTest, r: Res, q: Val)
    requires !r.Diverge? && !r.Fail?
    ensures var w := if WantsPrior(r) then Settle(lt, r, Ok(q)) else r;
            Settles(w) && LikeOption(false, OptionOf(w), Upper(lt, OptionOf(r), Some(q)))
  {
    var w := if WantsPrior(r) then Settle(lt, r, Ok(q)) else r;
    LikeItself(false, w.v);
  }

  lemma {:induction false} MeetsOver(lt: LetterTest, env: Env, u: Val, p: Val, k: string, below: Option<Res>, j: string)
    requires Meeting(env, u, p, k, below) && j in u.vals && j in p.vals && !BothObjects(u, p, j)
    ensures MeetsAt(lt, env, u, p, below, j)
  {
    var m, r := MergeUnresolved(lt, u, p), LayerValue(lt, env, u.vals[j], below);
    UnresolvedValue(lt, u, p, j);
    MetPrior(lt, env, u, p, k, j);
    ConcreteLayerValue(lt, env, p.vals[j], below);
    LayerIsConcrete(lt, env, u.vals[j], k, below);
    FieldIs(lt, env, m, j, below, r, Some(Ok(p.vals[j])));
    if !r.Fail? { SettledOver(lt, r, p.vals[j]); }
  }

  lemma {:induction false} MeetsInside(lt: LetterTest, env: Env, u: Val, p: Val, k: string, below: Option<Res>,
                                       j: string)
    requires Meeting(env, u, p, k, below) && j in u.vals && j in p.vals && BothObjects(u, p, j)
    ensures MeetsAt(lt, env, u, p, below, j)
    decreases u, 0
  {
    UnresolvedValue(lt, u, p, j);
    MetPrior(lt, env, u, p, k, j);
    MetIs(lt, env, u.vals[j], p.vals[j], k, below);
  }

  /** An object fails with one of its fields. */
  lemma {:induction false} FailsWithField(lt: LetterTest, env: Env, o: Val, below: Option<Res>, j: string)
    requires o.Obj? && KeysMatch(o) && j in o.vals && LayerField(lt, env, o, j, below) == Fail
    requires forall i | i in o.vals :: !LayerField(lt, env, o, i, below).Diverge?
    ensures LayerValue(lt, env, o, below) == Fail
  {
    ObjectGives(lt, env, o, below);
    assert j in o.keys && !Settles(FieldMap(lt, env, o, below)[j]);
  }

  lemma {:induction false} MetFails(lt: LetterTest, env: Env, u: Val, p: Val, k: string, below: Option<Res>, j: string)
    requires Meeting(env, u, p, k, below) && j in u.vals && LayerValue(lt, env, u.vals[j], below).Fail?
    requires forall i | i in u.vals || i in p.vals :: MeetsAt(lt, env, u, p, below, i)
    ensures LayerValue(lt, env, MergeUnresolved(lt, u, p), below) == Fail
  {
    var m := MergeUnresolved(lt, u, p);
    MetKeys(lt, u, p);
    assert forall i | i in m.vals :: MeetsAt(lt, env, u, p, below, i);
    FailsWithField(lt, env, m, below, j);
  }

  lemma {:induction false} MetComesAt(lt: LetterTest, env: Env, u: Val, p: Val, k: string, below: Option<Res>, x: Val,
                                      j: string)
    requires Meeting(env, u, p, k, below) && Joins.Shown(lt, env, u, below, x) && MeetsAt(lt, env, u, p, below, j)
    ensures var w := LayerField(lt, env, MergeUnresolved(lt, u, p), j, below);
            Settles(w) && LikeOption(false, OptionOf(w), Get(DeepMerge(lt, x, p).vals, j))
  {
    ShownAt(lt, env, u, below, x, j);
    Joins.MergedAtKey(lt, x, p, j);
  }

  lemma {:induction false} MetComes(lt: LetterTest, env: Env, u: Val, p: Val, k: string, below: Option<Res>, x: Val)
    requires Meeting(env, u, p, k, below) && Joins.Shown(lt, env, u, below, x)
    requires forall i | i in u.vals || i in p.vals :: MeetsAt(lt, env, u, p, below, i)
    ensures var r := LayerValue(lt, env, MergeUnresolved(lt, u, p), below);
            r.Ok? && LikeVal(false, r.v, DeepMerge(lt, x, p))
  {
    var m, t := MergeUnresolved(lt, u, p), DeepMerge(lt, x, p);
    MetKeys(lt, u, p);
    forall j | j in m.vals { MetComesAt(lt, env, u, p, k, below, x, j); }
    forall j | j in t.vals ensures j in m.vals {
      DeepValue(lt, x, p, [], false, j);
      ShownAt(lt, env, u, below, x, j);
    }
    DeepMergeIsConcat(lt, x, p, []);
    AgreedObject(lt, env, m, below, t, false);
  }

  /** Two literals that meet come to what the receiver's comes to, merged over the
      data of the fallback's. */
  lemma {:induction false} MetIs(lt: LetterTest, env: Env, u: Val, p: Val, k: string, below: Option<Res>)
    requires Meeting(env, u, p, k, below)
    ensures var x, r := LayerValue(lt, env, u, below), LayerValue(lt, env, MergeUnresolved(lt, u, p), below);
            if x.Ok? then x.v.Obj? && Concrete(x.v) && r.Ok? && LikeVal(false, r.v, DeepMerge(lt, x.v, p))
            else x == Fail && r == Fail
    decreases u, 1
  {
    var x := LayerValue(lt, env, u, below);
    RawObject(lt, env, u, k, below);
    forall j | j in u.vals || j in p.vals ensures MeetsAt(lt, env, u, p, below, j) {
      if !(j in u.vals && j in p.vals) {
        MeetsAlone(lt, env, u, p, k, below, j);
      } else if BothObjects(u, p, j) {
        MeetsInside(lt, env, u, p, k, below, j);
      } else {
        MeetsOver(lt, env, u, p, k, below, j);
      }
    }
    if x.Ok? {
      MetComes(lt, env, u, p, k, below, x.v);
    } else {
      var i :| 0 <= i < |u.keys| && !(u.keys[i] in u.vals && Settles(PartMap(lt, env, u, below)[u.keys[i]]));
      assert u.keys[i] in u.keys;
      MetFails(lt, env, u, p, k, below, u.keys[i]);
    }
  }

  // ---------- whole configurations ----------

  /** At most one assignment on either side, the fallback's of plain data. */
  ghost predicate OnceEach(env: Env, receiver: seq<Field>, fallback: seq<Field>, k: string) {
    var a, b := AssignedTo(fallback, k), AssignedTo(receiver, k);
    |a| <= 1 && |b| <= 1 && (a != [] ==> Concrete(a[0])) && (b != [] ==> Raw(env, b[0], k))
  }

  /** An object literal of the receiver meets one of the fallback. */
  ghost predicate Meet(receiver: seq<Field>, fallback: seq<Field>, k: string) {
    var a, b := AssignedTo(fallback, k), AssignedTo(receiver, k);
    a != [] && b != [] && a[0].Obj? && b[0].Obj?
  }

  ghost predicate OverData(lt: LetterTest, env: Env, receiver: seq<Field>, fallback: seq<Field>) {
    && EnvOf(env, fallback + receiver) && NoMistakenKey(lt, AssignAll(lt, fallback + receiver).obj)
    && forall k :: k in env || OnceEach(env, receiver, fallback, k)
  }

  /** What a key comes to: a literal that meets another has nothing to look back at,
      and is laid over it all the same. */
  ghost function MetField(lt: LetterTest, env: Env, receiver: seq<Field>, fallback: seq<Field>, k: string): Res {
    var a, b := AssignedTo(fallback, k), AssignedTo(receiver, k);
    if a == [] && b == [] then Absent
    else if k in env then Ok(if a != [] then a[0] else b[0])
    else if b == [] then Ok(a[0])
    else
      var below := if a == [] then None else Some(Ok(a[0]));
      LaidOver(lt, LayerValue(lt, env, b[0], if Meet(receiver, fallback, k) then None else below), below)
  }

  ghost function MetAll(lt: LetterTest, env: Env, receiver: seq<Field>, fallback: seq<Field>): map<string, Res> {
    map k | k in KeysOf(fallback + receiver) :: MetField(lt, env, receiver, fallback, k)
  }

  /** The value and the prior of the merged tree. */
  lemma {:induction false} MetAtKey(lt: LetterTest, env: Env, receiver: seq<Field>, fallback: seq<Field>, k: string)
    requires k !in env && OnceEach(env, receiver, fallback, k)
    ensures var a, b, m := AssignedTo(fallback, k), AssignedTo(receiver, k), MergedTree(lt, receiver, fallback);
            && Get(m.vals, k) == (if Meet(receiver, fallback, k) then Some(MergeUnresolved(lt, b[0], a[0]))
                                  else if b != [] then Some(b[0]) else if a != [] then Some(a[0]) else None)
            && Get(m.priors, k) == if a != [] && b != [] && !Meet(receiver, fallback, k) then Some(a[0]) else None
  {
    var a, b := AssignedTo(fallback, k), AssignedTo(receiver, k);
    var r, f := AssignAll(lt, receiver).obj, AssignAll(lt, fallback).obj;
    AssignedOnce(lt, receiver, k);
    AssignedOnce(lt, fallback, k);
    UnresolvedValue(lt, r, f, k);
    UnresolvedPriorOf(lt, r, f, k);
    if a != [] { DataCaptured(lt, env, a[0], k, k); }
  }

  lemma {:induction false} MetPieces(lt: LetterTest, env: Env, receiver: seq<Field>, fallback: seq<Field>, k: string)
    requires k !in env && OnceEach(env, receiver, fallback, k)
    ensures var m := MergedTree(lt, receiver, fallback);
            && (k in m.vals ==> Piece(env, m.vals[k], k))
            && (k in m.priors ==> k in m.vals && Piece(env, m.priors[k], k) && Dead(m.priors[k], k))
  {
    var a, b := AssignedTo(fallback, k), AssignedTo(receiver, k);
    MetAtKey(lt, env, receiver, fallback, k);
    if a != [] { DataCaptured(lt, env, a[0], k, k); }
    if Meet(receiver, fallback, k) { MetIsPiece(lt, env, b[0], a[0], k); }
  }

  lemma {:induction false} MetFieldMeets(lt: LetterTest, env: Env, receiver: seq<Field>, fallback: seq<Field>,
                                         k: string)
    requires k !in env && DataEnv(env) && OnceEach(env, receiver, fallback, k) && Meet(receiver, fallback, k)
    requires k in MergedTree(lt, receiver, fallback).vals
    ensures LikeRes(false, FieldOver(lt, env, MergedTree(lt, receiver, fallback), k),
                    MetField(lt, env, receiver, fallback, k))
  {
    var a, b := AssignedTo(fallback, k), AssignedTo(receiver, k);
    MetAtKey(lt, env, receiver, fallback, k);
    MetIs(lt, env, b[0], a[0], k, None);
    var x := LayerValue(lt, env, b[0], None);
    if x.Ok? { ObjectsLaidOver(lt, x.v, a[0]); }
  }

  lemma {:induction false} MetFieldIs(lt: LetterTest, env: Env, receiver: seq<Field>, fallback: seq<Field>, k: string)
    requires k !in env && DataEnv(env) && OnceEach(env, receiver, fallback, k) &&
             k in MergedTree(lt, receiver, fallback).vals
    ensures LikeRes(false, FieldOver(lt, env, MergedTree(lt, receiver, fallback), k),
                    MetField(lt, env, receiver, fallback, k))
  {
    if Meet(receiver, fallback, k) {
      MetFieldMeets(lt, env, receiver, fallback, k);
    } else {
      var a, w := AssignedTo(fallback, k), MetField(lt, env, receiver, fallback, k);
      MetAtKey(lt, env, receiver, fallback, k);
      if a != [] { ConcreteLayerValue(lt, env, a[0], None); }
      if w.Ok? { LikeItself(false, w.v); }
    }
  }

  /** The assignments of both sides, each at most once. */
  lemma {:induction false} Together(receiver: seq<Field>, fallback: seq<Field>, k: string)
    ensures var a, b, vs := AssignedTo(fallback, k), AssignedTo(receiver, k), AssignedTo(fallback + receiver, k);
            && (vs == [] <==> a == [] && b == []) && (a == [] ==> vs == b) && (b == [] ==> vs == a) && |vs| == |a| + |b|
            && (|a| == 1 && |b| == 1 ==> vs == [a[0]] + [b[0]])
  {
    var a, b := AssignedTo(fallback, k), AssignedTo(receiver, k);
    AssignedConcat(fallback, receiver, k);
    assert a + [] == a && [] + b == b;
    if |a| == 1 && |b| == 1 { assert a == [a[0]] && b == [b[0]]; }
  }

  /** A key with data. */
  lemma {:induction false} MetData(lt: LetterTest, env: Env, receiver: seq<Field>, fallback: seq<Field>, j: string)
    requires EnvOf(env, fallback + receiver) && j in env
    ensures var m := MergedTree(lt, receiver, fallback); Get(m.vals, j) == env[j] && j !in m.priors
  {
    var a, b := AssignedTo(fallback, j), AssignedTo(receiver, j);
    Together(receiver, fallback, j);
    assert a == [] || b == [];
    AssignedOnce(lt, receiver, j);
    AssignedOnce(lt, fallback, j);
    UnresolvedValue(lt, AssignAll(lt, receiver).obj, AssignAll(lt, fallback).obj, j);
    UnresolvedPriorOf(lt, AssignAll(lt, receiver).obj, AssignAll(lt, fallback).obj, j);
  }

  /** The document that has the fallback's assignments first has a prior for a key of
      both. */
  lemma {:induction false} DocumentSaves(lt: LetterTest, env: Env, receiver: seq<Field>, fallback: seq<Field>,
                                         k: string)
    requires OnceEach(env, receiver, fallback, k) && AssignedTo(fallback, k) != [] && AssignedTo(receiver, k) != []
    ensures k in AssignAll(lt, fallback + receiver).obj.priors
  {
    var a, b := AssignedTo(fallback, k), AssignedTo(receiver, k);
    Together(receiver, fallback, k);
    TreeIsBuilt(lt, fallback + receiver, k);
    SecondPrior(lt, k, a[0], b[0]);
    DataCaptured(lt, env, a[0], k, KeyOf(lt, [k]));
    SavedData(lt, k, a[0]);
  }

  /** Where two literals meet, the merge has none: the trees differ. */
  lemma {:induction false} MeetingIsNotSaved(lt: LetterTest, env: Env, receiver: seq<Field>, fallback: seq<Field>,
                                             k: string)
    requires k !in env && OnceEach(env, receiver, fallback, k) && Meet(receiver, fallback, k)
    ensures k !in MergedTree(lt, receiver, fallback).priors && k in AssignAll(lt, fallback + receiver).obj.priors
  {
    MetAtKey(lt, env, receiver, fallback, k);
    DocumentSaves(lt, env, receiver, fallback, k);
  }

  lemma {:induction false} DocumentHasPrior(lt: LetterTest, env: Env, receiver: seq<Field>, fallback: seq<Field>,
                                            k: string)
    requires EnvOf(env, fallback + receiver) && (k in env || OnceEach(env, receiver, fallback, k))
    requires k in MergedTree(lt, receiver, fallback).priors
    ensures k in AssignAll(lt, fallback + receiver).obj.priors
  {
    if k in env {
      MetData(lt, env, receiver, fallback, k);
      assert false;
    } else {
      MetAtKey(lt, env, receiver, fallback, k);
      DocumentSaves(lt, env, receiver, fallback, k);
    }
  }

  lemma {:induction false} DocumentHasValue(lt: LetterTest, env: Env, receiver: seq<Field>, fallback: seq<Field>,
                                            k: string)
    requires EnvOf(env, fallback + receiver) && (k in env || OnceEach(env, receiver, fallback, k))
    ensures k in MergedTree(lt, receiver, fallback).vals <==> k in AssignAll(lt, fallback + receiver).obj.vals
  {
    Together(receiver, fallback, k);
    TreeIsBuilt(lt, fallback + receiver, k);
    if k in env { MetData(lt, env, receiver, fallback, k); } else { MetAtKey(lt, env, receiver, fallback, k); }
  }

  lemma {:induction false} SavedData(lt: LetterTest, k: string, p: Val)
    requires FoldOrSkip(lt, p, KeyOf(lt, [k]), None).Some?
    ensures SaveOne(lt, k, None, p).Some?
  {
  }

  lemma {:induction false} MetRoot(lt: LetterTest, env: Env, receiver: seq<Field>, fallback: seq<Field>)
    requires OverData(lt, env, receiver, fallback)
    ensures Readable(lt, env, MergedTree(lt, receiver, fallback))
  {
    var m, d := MergedTree(lt, receiver, fallback), AssignAll(lt, fallback + receiver).obj;
    MergedTreeKeys(lt, receiver, fallback);
    forall k ensures k in m.vals <==> k in d.vals { DocumentHasValue(lt, env, receiver, fallback, k); }
    forall k | k in m.priors ensures k in d.priors { DocumentHasPrior(lt, env, receiver, fallback, k); }
    forall j | j in env { MetData(lt, env, receiver, fallback, j); }
    forall k | k !in env { MetPieces(lt, env, receiver, fallback, k); }
  }

  lemma {:induction false} MetAnyField(lt: LetterTest, env: Env, receiver: seq<Field>, fallback: seq<Field>, k: string)
    requires OverData(lt, env, receiver, fallback) && k in MergedTree(lt, receiver, fallback).vals
    ensures LikeRes(false, FieldOver(lt, env, MergedTree(lt, receiver, fallback), k),
                    MetField(lt, env, receiver, fallback, k))
  {
    if k in env {
      MetData(lt, env, receiver, fallback, k);
      Together(receiver, fallback, k);
      LikeItself(false, MergedTree(lt, receiver, fallback).vals[k]);
    } else {
      MetFieldIs(lt, env, receiver, fallback, k);
    }
  }

  /** Resolving an unresolved configuration over a fallback of data, in closed form. */
  lemma {:induction false} MergedGives(lt: LetterTest, env: Env, receiver: seq<Field>, fallback: seq<Field>, fuel: nat)
    requires OverData(lt, env, receiver, fallback) && fuel > 1
    ensures GivesLike(ResolveTree(lt, MergedTree(lt, receiver, fallback), fuel), KeysOf(fallback + receiver),
                      MetAll(lt, env, receiver, fallback))
  {
    var m, other := MergedTree(lt, receiver, fallback), MetAll(lt, env, receiver, fallback);
    MetRoot(lt, env, receiver, fallback);
    MergedRootKeys(lt, receiver, fallback);
    RootResolves(lt, env, m, fuel);
    var want := FieldsOver(lt, env, m);
    forall k ensures k in want <==> k in other { assert k in m.keys <==> k in m.vals; }
    forall k | k in want ensures LikeRes(false, want[k], other[k]) { MetAnyField(lt, env, receiver, fallback, k); }
    GivesAlike(ResolveTree(lt, m, fuel), m.keys, want, other);
  }

  /** Results that are alike, key by key. */
  lemma {:induction false} GivesAlike(r: Res, keys: seq<string>, want: map<string, Res>, other: map<string, Res>)
    requires Gives(r, keys, want) && want.Keys == other.Keys && forall k | k in want ::
             LikeRes(false, want[k], other[k])
    ensures GivesLike(r, keys, other)
  {
    OkKeysAlike(keys, want, other);
  }

  // ---------- against one document ----------

  /** A literal may be merged at once over data. */
  lemma {:induction false} OverDataJoins(lt: LetterTest, env: Env, k: string, v: Val, e: Val)
    requires v.Obj? && e.Obj? && Concrete(e)
    ensures Joinable(lt, env, k, v, e)
    decreases v
  {
    ConcreteIsData(e);
    DataIsDead(env, e, k);
    forall j | j in e.vals
      ensures Dead(e.vals[j], k) && Dead(e.vals[j], j)
      ensures j in v.vals && v.vals[j].Obj? && e.vals[j].Obj? ==> Joinable(lt, env, k, v.vals[j], e.vals[j]) {
      ConcreteIsRaw(env, e.vals[j], k);
      ConcreteIsRaw(env, e.vals[j], j);
      if j in v.vals && v.vals[j].Obj? && e.vals[j].Obj? { OverDataJoins(lt, env, k, v.vals[j], e.vals[j]); }
    }
  }

  lemma {:induction false} OneLink(lt: LetterTest, env: Env, k: string, v: Val)
    requires Raw(env, v, k)
    ensures AllRaw(lt, env, k, [v]) && Kept(lt, env, k, [v])
  {
    assert [v][..0] == [];
    assert AllRaw(lt, env, k, []) && Kept(lt, env, k, []);
  }

  lemma {:induction false} TwoLinks(lt: LetterTest, env: Env, k: string, p: Val, u: Val)
    requires Concrete(p) && Raw(env, u, k)
    ensures AllRaw(lt, env, k, [p] + [u])
  {
    var vs := [p] + [u];
    assert vs[..1] == [p] && [p][..0] == [];
    ConcreteIsRaw(env, p, k);
    OneLink(lt, env, k, p);
    ConcreteLayerValue(lt, env, p, None);
    if Merged(vs) { OverDataJoins(lt, env, k, u, p); }
  }

  lemma {:induction false} DocumentLink(lt: LetterTest, env: Env, receiver: seq<Field>, fallback: seq<Field>, k: string)
    requires k !in env && OnceEach(env, receiver, fallback, k)
    ensures AllRaw(lt, env, k, AssignedTo(fallback + receiver, k)) && ChainKept(lt, env, fallback + receiver, k)
  {
    var a, b := AssignedTo(fallback, k), AssignedTo(receiver, k);
    Together(receiver, fallback, k);
    if a != [] { ConcreteIsRaw(env, a[0], k); }
    if a != [] && b != [] {
      OneLink(lt, env, k, a[0]);
      TwoLinks(lt, env, k, a[0], b[0]);
      assert ([a[0]] + [b[0]])[..1] == [a[0]];
    } else if a != [] {
      assert a == [a[0]] && a[..0] == [];
      OneLink(lt, env, k, a[0]);
    } else if b != [] {
      assert b == [b[0]] && b[..0] == [];
      OneLink(lt, env, k, b[0]);
    }
  }

  lemma {:induction false} OneLayer(lt: LetterTest, env: Env, k: string, v: Val)
    ensures Layered(lt, env, k, [v]) == LayerValue(lt, env, v, None)
  {
    assert [v][..0] == [];
  }

  lemma {:induction false} TwoLayers(lt: LetterTest, env: Env, k: string, p: Val, u: Val)
    requires Concrete(p)
    ensures var s := Some(Ok(p)); Layered(lt, env, k, [p] + [u]) == LaidOver(lt, LayerValue(lt, env, u, s), s)
  {
    assert ([p] + [u])[..1] == [p] && [p][..0] == [];
    ConcreteIsRaw(env, p, k);
    ConcreteLayerValue(lt, env, p, None);
    assert Stacked(lt, env, k, [p]) == Some(Ok(p));
  }

  /** The layers of the document, key by key. */
  lemma {:induction false} DocumentLayer(lt: LetterTest, env: Env, receiver: seq<Field>, fallback: seq<Field>,
                                         k: string)
    requires k !in env && OnceEach(env, receiver, fallback, k)
    requires Meet(receiver, fallback, k) ==> Dead(AssignedTo(receiver, k)[0], k)
    ensures LayeredField(lt, env, fallback + receiver, k) == MetField(lt, env, receiver, fallback, k)
  {
    var a, b := AssignedTo(fallback, k), AssignedTo(receiver, k);
    Together(receiver, fallback, k);
    if a != [] && b != [] {
      TwoLayers(lt, env, k, a[0], b[0]);
      if Meet(receiver, fallback, k) { DeadIgnoresBelow(lt, env, b[0], k, None, Some(Ok(a[0]))); }
    } else if a != [] {
      assert a == [a[0]];
      OneLayer(lt, env, k, a[0]);
      ConcreteLayerValue(lt, env, a[0], None);
    } else if b != [] {
      assert b == [b[0]];
      OneLayer(lt, env, k, b[0]);
    }
  }

  /** Demanded, but nothing there. */
  lemma {:induction false} DemandsFail(lt: LetterTest, env: Env, v: Val, k: string)
    requires DataEnv(env) && k !in env && Raw(env, v, k) && Demands(v, k)
    ensures LayerValue(lt, env, v, None) == Fail
    decreases v, 1
  {
    match v
    case Subst(_, _, _, _) =>
    case Concat(ps) => DemandsFailIn(lt, env, ps, k);
    case Arr(es) => DemandsFailIn(lt, env, es, k);
    case Obj(keys, vals, _) =>
      var j :| j in vals && Demands(vals[j], k);
      DemandsFail(lt, env, vals[j], k);
      RawObject(lt, env, v, k, None);
      assert j in v.keys;
      assert !Settles(PartMap(lt, env, v, None)[j]);
  }

  lemma {:induction false} DemandsFailIn(lt: LetterTest, env: Env, vs: seq<Val>, k: string)
    requires DataEnv(env) && k !in env && (forall i | 0 <= i < |vs| :: Raw(env, vs[i], k)) &&
             exists i | 0 <= i < |vs| :: Demands(vs[i], k)
    ensures LayerValues(lt, env, vs, None) == SeqFail
    decreases vs, 0
  {
    LayerIsConcrete(lt, env, vs[0], k, None);
    if Demands(vs[0], k) {
      DemandsFail(lt, env, vs[0], k);
    } else {
      var i :| 0 <= i < |vs| && Demands(vs[i], k);
      assert vs[1..][i - 1] == vs[i];
      DemandsFailIn(lt, env, vs[1..], k);
    }
  }

  /** Where no literal that meets one of the fallback looks back, the merge gives what
      one document gives, the layers of both. */
  ghost predicate NothingLost(receiver: seq<Field>, fallback: seq<Field>) {
    forall k :: Meet(receiver, fallback, k) ==> Dead(AssignedTo(receiver, k)[0], k)
  }

  lemma {:induction false} DocumentGives(lt: LetterTest, env: Env, receiver: seq<Field>, fallback: seq<Field>,
                                         fuel: nat)
    requires OverData(lt, env, receiver, fallback) && fuel > 1
    ensures GivesLike(ResolveTree(lt, AssignAll(lt, fallback + receiver).obj, fuel), KeysOf(fallback + receiver),
                      LayeredAll(lt, env, fallback + receiver))
  {
    var doc := fallback + receiver;
    forall k ensures k in env || (AllRaw(lt, env, k, AssignedTo(doc, k)) && ChainKept(lt, env, doc, k)) {
      if k !in env { DocumentLink(lt, env, receiver, fallback, k); }
    }
    ChainsAreLayersInAnyOrder(lt, env, doc, fuel);
  }

  lemma {:induction false} SameLayer(lt: LetterTest, env: Env, receiver: seq<Field>, fallback: seq<Field>, k: string)
    requires OverData(lt, env, receiver, fallback) && NothingLost(receiver, fallback)
    ensures LayeredField(lt, env, fallback + receiver, k) == MetField(lt, env, receiver, fallback, k)
  {
    Together(receiver, fallback, k);
    if k !in env { DocumentLayer(lt, env, receiver, fallback, k); }
  }

  lemma {:induction false} SameMap(x: map<string, Res>, y: map<string, Res>)
    requires (forall k :: k in x <==> k in y) && forall k | k in x :: x[k] == y[k]
    ensures x == y
  {
  }

  lemma {:induction false} MetAt(lt: LetterTest, env: Env, receiver: seq<Field>, fallback: seq<Field>, k: string)
    ensures var x := MetAll(lt, env, receiver, fallback);
            (k in x <==> k in KeysOf(fallback + receiver)) &&
              (k in x ==> x[k] == MetField(lt, env, receiver, fallback, k))
  {
  }

  lemma {:induction false} LayeredAt(lt: LetterTest, env: Env, fields: seq<Field>, k: string)
    ensures var y := LayeredAll(lt, env, fields);
            (k in y <==> k in KeysOf(fields)) && (k in y ==> y[k] == LayeredField(lt, env, fields, k))
  {
  }

  lemma {:induction false} SameLayers(lt: LetterTest, env: Env, receiver: seq<Field>, fallback: seq<Field>)
    requires OverData(lt, env, receiver, fallback) && NothingLost(receiver, fallback)
    ensures MetAll(lt, env, receiver, fallback) == LayeredAll(lt, env, fallback + receiver)
  {
    var x, y := MetAll(lt, env, receiver, fallback), LayeredAll(lt, env, fallback + receiver);
    forall k ensures (k in x <==> k in y) && (k in x ==> x[k] == y[k]) {
      MetAt(lt, env, receiver, fallback, k);
      LayeredAt(lt, env, fallback + receiver, k);
      SameLayer(lt, env, receiver, fallback, k);
    }
    SameMap(x, y);
  }

  lemma {:induction false} DemandedFails(lt: LetterTest, env: Env, receiver: seq<Field>, fallback: seq<Field>,
                                         k: string)
    requires OverData(lt, env, receiver, fallback) && Meet(receiver, fallback, k) &&
             Demands(AssignedTo(receiver, k)[0], k)
    ensures MetField(lt, env, receiver, fallback, k) == Fail && k in KeysOf(fallback + receiver)
  {
    Together(receiver, fallback, k);
    KeysAreAssigned(fallback + receiver, k);
    assert k !in env && OnceEach(env, receiver, fallback, k);
    DemandsFail(lt, env, AssignedTo(receiver, k)[0], k);
  }

  lemma {:induction false} LookingBackFails(lt: LetterTest, env: Env, receiver: seq<Field>, fallback: seq<Field>,
                                            k: string, fuel: nat)
    requires OverData(lt, env, receiver, fallback) && fuel > 1
    requires Meet(receiver, fallback, k) && Demands(AssignedTo(receiver, k)[0], k)
    ensures ResolveTree(lt, MergedTree(lt, receiver, fallback), fuel) == Fail
  {
    MergedGives(lt, env, receiver, fallback, fuel);
    DemandedFails(lt, env, receiver, fallback, k);
    NotAllSettle(KeysOf(fallback + receiver), MetAll(lt, env, receiver, fallback), k);
  }

  lemma {:induction false} NotAllSettle(keys: seq<string>, want: map<string, Res>, k: string)
    requires k in keys && k in want && !Settles(want[k])
    ensures !AllSettle(keys, want)
  {
  }

  /** Resolving an unresolved configuration over a fallback of plain data gives the
      layers of both, as one document does, exactly when no literal that meets one of
      the fallback refers to its own key: a required reference makes the merge fail. */
  lemma {:induction false} DataFallbackExactly(lt: LetterTest, env: Env, receiver: seq<Field>, fallback: seq<Field>,
                                               fuel: nat)
    requires OverData(lt, env, receiver, fallback) && fuel > 1
    requires forall k :: Meet(receiver, fallback, k) ==>
             Dead(AssignedTo(receiver, k)[0], k) || Demands(AssignedTo(receiver, k)[0], k)
    ensures var doc, m := fallback + receiver, ResolveTree(lt, MergedTree(lt, receiver, fallback), fuel);
            var d := ResolveTree(lt, AssignAll(lt, doc).obj, fuel);
            && GivesLike(d, KeysOf(doc), LayeredAll(lt, env, doc))
            && if NothingLost(receiver, fallback) then GivesLike(m, KeysOf(doc), LayeredAll(lt, env, doc))
              else m == Fail
  {
    DocumentGives(lt, env, receiver, fallback, fuel);
    if NothingLost(receiver, fallback) {
      MergedGives(lt, env, receiver, fallback, fuel);
      SameLayers(lt, env, receiver, fallback);
    } else {
      var k :| Meet(receiver, fallback, k) && !Dead(AssignedTo(receiver, k)[0], k);
      LookingBackFails(lt, env, receiver, fallback, k, fuel);
    }
  }
}
