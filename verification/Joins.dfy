/**
 Object literals in a row.  They are merged at once in phase 1, before any of the
 references in them is resolved, and phase 1 keeps what collides as priors inside
 the merged object.
 */
module Joins {
  import opened Paths
  import opened Values
  import opened Fold
  import opened Merge
  import opened MergeLaws
  import opened Concats
  import opened Resolve
  import opened Layers
  import opened Likeness

  // ---------- which literals may be merged at once ----------

  /** What a value without references to its key comes to. */
  function Seen(lt: LetterTest, env: Env, v: Val): Res {
    LayerValue(lt, env, v, None)
  }

  predicate SeenObject(lt: LetterTest, env: Env, v: Val) {
    Seen(lt, env, v).Ok? && Seen(lt, env, v).v.Obj?
  }

  /** The prior neither shows nor is merged with the value it stands beside. */
  predicate IdlePrior(lt: LetterTest, env: Env, v: Val, p: Val) {
    && Settles(Seen(lt, env, p)) && !(SeenObject(lt, env, v) && SeenObject(lt, env, p))
    && (Seen(lt, env, v).Absent? ==> Seen(lt, env, p).Absent?)
  }

  /** The field of e is the same whatever lies below, and may become a prior: it
      refers neither to the key nor to a top-level key of the field's name, and no
      prior beside it matters. */
  predicate Loose(lt: LetterTest, env: Env, k: string, e: Val, j: string)
    requires e.Obj? && j in e.vals
  {
    && Dead(e.vals[j], k) && Dead(e.vals[j], j)
    && (j in e.priors && !Firm(e.vals[j]) ==> IdlePrior(lt, env, e.vals[j], e.priors[j]))
  }

  predicate NoObject(r: Res) {
    r.Absent? || (r.Ok? && !r.v.Obj?)
  }

  /** A literal v that may be merged at once over e without anything being lost: a
      field of e may still refer to the key where a scalar or an array of v hides it. */
  predicate Joinable(lt: LetterTest, env: Env, k: string, v: Val, e: Val) {
    && v.Obj? && e.Obj? && Piece(env, e, k) && !ContainsSentinel(e)
    && forall j | j in e.vals ::
         if j !in v.vals then Dead(e.vals[j], k)
         else if v.vals[j].Obj? && e.vals[j].Obj? then
           Joinable(lt, env, k, v.vals[j], e.vals[j]) && (j in e.priors ==> NoObject(Seen(lt, env, e.priors[j])))
         else Firm(v.vals[j]) || Loose(lt, env, k, e, j)
  }

  /** Where both have a value, and not both literals, the upper one is defined. */
  predicate Fits(env: Env, v: Val, e: Val)
    requires v.Obj? && e.Obj?
    decreases v
  {
    forall j | j in v.vals && j in e.vals ::
      if v.vals[j].Obj? then e.vals[j].Obj? ==> Fits(env, v.vals[j], e.vals[j]) else Defines(env, v.vals[j])
  }

  // ---------- what a merge saves ----------

  /** References of one segment do not hit a longer path, nor a key that is not meant. */
  lemma {:induction false} NothingHit(lt: LetterTest, env: Env, v: Val, k: string, target: seq<string>, stack: bool)
    requires Piece(env, v, k) && target != [] && (|target| == 1 ==> Dead(v, target[0]))
    ensures !FoldSelfRef(lt, v, KeyOf(lt, target), None, stack).hit
  {
    match v
    case Scalar(_, _, _) =>
    case Subst(_, segs, _, _) =>
      RemainderIsExact(lt, segs, target);
      KeysNeverCollide(lt, segs, target);
    case Arr(es) => forall i | 0 <= i < |es| { NothingHit(lt, env, es[i], k, target, stack); }
    case Concat(ps) => forall i | 0 <= i < |ps| { NothingHit(lt, env, ps[i], k, target, stack); }
    case Obj(_, vals, _) => forall j | j in vals { NothingHit(lt, env, vals[j], k, target, false); }
  }

  lemma {:induction false} SavedWhole(lt: LetterTest, env: Env, v: Val, k: string, target: seq<string>,
                                      prior: Option<Val>)
    requires Piece(env, v, k) && target != [] && (|target| == 1 ==> Dead(v, target[0]))
    ensures FoldOrSkip(lt, v, KeyOf(lt, target), prior) == Some(v)
  {
    var key := KeyOf(lt, target);
    NothingHit(lt, env, v, k, target, true);
    HitIgnoresReplacement(lt, v, key, prior, true);
    if v.Subst? { RemainderIsExact(lt, v.segs, target); }
    if prior.Some? { FoldedOrSame(lt, v, key, prior.value, true); }
  }

  lemma {:induction false} SelfKeyIs(lt: LetterTest, env: Env, v: Val, k: string, j: string)
    requires Piece(env, v, k)
    ensures var self := SelfRefFullKey(lt, v, j); self.Some? ==> self.value == KeyOf(lt, [j])
    decreases v, 1
  {
    match v
    case Subst(_, segs, _, _) => assert |segs| == 1 && segs == [segs[0]];
    case Concat(ps) => FirstSelfKeyIs(lt, env, ps, k, j);
    case _ =>
  }

  lemma {:induction false} FirstSelfKeyIs(lt: LetterTest, env: Env, ps: seq<Val>, k: string, j: string)
    requires forall i | 0 <= i < |ps| :: Piece(env, ps[i], k)
    ensures var self := FirstSelfRef(lt, ps, j); self.Some? ==> self.value == KeyOf(lt, [j])
    decreases ps, 0
  {
    if ps != [] {
      SelfKeyIs(lt, env, ps[0], k, j);
      FirstSelfKeyIs(lt, env, ps[1..], k, j);
    }
  }

  /** What collides with a later literal is its prior, whole. */
  lemma {:induction false} JoinedPrior(lt: LetterTest, env: Env, k: string, v: Val, e: Val, path: seq<string>,
                                       j: string)
    requires Raw(env, v, k) && Joinable(lt, env, k, v, e) && path != [] &&
             !(j in v.vals && j in e.vals && Firm(v.vals[j]))
    ensures Get(DeepMergeAt(lt, v, e, path, true).priors, j) ==
            if j in v.vals && j in e.vals && !BothObjects(v, e, j) then Some(e.vals[j]) else Get(e.priors, j)
  {
    if j in v.vals && j in e.vals && !BothObjects(v, e, j) {
      assert Loose(lt, env, k, e, j);
      SavedWhole(lt, env, e.vals[j], k, path + [j], None);
      SavedWhole(lt, env, e.vals[j], k, [j], Get(e.priors, j));
      SelfKeyIs(lt, env, v.vals[j], k, j);
      assert CollisionPrior(lt, v, e, path, true, j) == Some(e.vals[j]);
    }
    assert Get(DeepMergeAt(lt, v, e, path, true).priors, j) == DeepPrior(lt, v, e, path, true, j);
  }

  /** Only keys of e get priors. */
  lemma {:induction false} JoinedPriorKeys(lt: LetterTest, env: Env, k: string, v: Val, e: Val, path: seq<string>,
                                           j: string)
    requires Raw(env, v, k) && Joinable(lt, env, k, v, e) && j in DeepMergeAt(lt, v, e, path, true).priors
    ensures j in e.vals
  {
    assert Get(DeepMergeAt(lt, v, e, path, true).priors, j) == DeepPrior(lt, v, e, path, true, j);
  }

  // ---------- an object literal by itself ----------

  /** What the values of an object come to, their priors left aside. */
  function PartMap(lt: LetterTest, env: Env, v: Val, below: Option<Res>): (m: map<string, Res>)
    requires v.Obj?
    ensures m.Keys == v.vals.Keys
  {
    map j | j in v.vals :: LayerValue(lt, env, v.vals[j], below)
  }

  /** The object with those values. */
  ghost predicate Shown(lt: LetterTest, env: Env, v: Val, below: Option<Res>, m: Val)
    requires v.Obj?
  {
    m.Obj? && Concrete(m) && Gives(Ok(m), v.keys, PartMap(lt, env, v, below))
  }

  lemma {:induction false} ShownAt(lt: LetterTest, env: Env, v: Val, below: Option<Res>, m: Val, j: string)
    requires v.Obj? && KeysMatch(v) && Shown(lt, env, v, below, m)
    ensures Get(m.vals, j) == if j in v.vals then OptionOf(LayerValue(lt, env, v.vals[j], below)) else None
    ensures j in v.vals ==> Settles(LayerValue(lt, env, v.vals[j], below))
  {
    assert j in v.keys <==> j in v.vals;
    assert AllSettle(v.keys, PartMap(lt, env, v, below));
  }

  lemma {:induction false} RawObject(lt: LetterTest, env: Env, v: Val, k: string, below: Option<Res>)
    requires v.Obj? && DataEnv(env) && Raw(env, v, k) && ConcreteLayer(below)
    ensures var r := LayerValue(lt, env, v, below);
            Gives(r, v.keys, PartMap(lt, env, v, below)) && (r.Ok? ==> Shown(lt, env, v, below, r.v))
    ensures forall j | j in v.vals :: !LayerValue(lt, env, v.vals[j], below).Diverge?
  {
    forall j | j in v.vals ensures !LayerValue(lt, env, v.vals[j], below).Diverge? {
      LayerIsConcrete(lt, env, v.vals[j], k, below);
    }
    ObjectGives(lt, env, v, below);
    assert FieldMap(lt, env, v, below) == PartMap(lt, env, v, below);
    LayerIsConcrete(lt, env, v, k, below);
  }

  /** The fields of an object that comes to b. */
  lemma {:induction false} FieldsOf(lt: LetterTest, env: Env, e: Val, k: string, below: Option<Res>, b: Val)
    requires e.Obj? && DataEnv(env) && Piece(env, e, k) && ConcreteLayer(below) &&
             LayerValue(lt, env, e, below) == Ok(b)
    ensures b.Obj? && Concrete(b) && Gives(Ok(b), e.keys, FieldMap(lt, env, e, below))
  {
    forall j | j in e.vals ensures !LayerField(lt, env, e, j, below).Diverge? {
      Layers.FieldIsConcrete(lt, env, e, k, j, below);
    }
    ObjectGives(lt, env, e, below);
    LayerIsConcrete(lt, env, e, k, below);
  }

  /** One of them. */
  lemma {:induction false} FieldOf(lt: LetterTest, env: Env, e: Val, below: Option<Res>, b: Val, j: string)
    requires e.Obj? && KeysMatch(e) && Gives(Ok(b), e.keys, FieldMap(lt, env, e, below))
    ensures b.Obj? && Get(b.vals, j) == if j in e.vals then OptionOf(LayerField(lt, env, e, j, below)) else None
    ensures j in e.vals ==> Settles(LayerField(lt, env, e, j, below))
  {
    assert j in e.keys <==> j in e.vals;
    assert AllSettle(e.keys, FieldMap(lt, env, e, below));
  }

  /** Over a value, and with data at the other keys it refers to, nothing in a value
      is undefined. */
  lemma {:induction false} NothingUndefined(lt: LetterTest, env: Env, v: Val, k: string, below: Option<Res>)
    requires Raw(env, v, k) && Defines(env, v) && below.Some? && !below.value.Absent?
    ensures !LayerValue(lt, env, v, below).Absent?
    decreases v
  {
    match v
    case Concat(ps) =>
      NothingUndefined(lt, env, ps[0], k, below);
      if LayerValues(lt, env, ps, below).Vals? {
        var vs := LayerValues(lt, env, ps, below).vs;
        assert vs[0].Some?;
        JoinEnds(vs);
        if Meaningful(vs) == [] { assert IsSeparator(vs[0].value); }
      }
    case Obj(keys, _, _) => NeverAbsent(lt, env, v, keys, below, EMPTY_OBJ);
    case _ =>
  }

  lemma {:induction false} NeverAbsent(lt: LetterTest, env: Env, o: Val, keys: seq<string>, below: Option<Res>,
                                       acc: Val)
    requires o.Obj? && acc.Obj?
    ensures !LayerFields(lt, env, o, keys, below, acc).Absent?
    ensures LayerFields(lt, env, o, keys, below, acc).Ok? ==> LayerFields(lt, env, o, keys, below, acc).v.Obj?
    decreases |keys|
  {
    if keys != [] {
      var r := LayerField(lt, env, o, keys[0], below);
      if Settles(r) {
        NeverAbsent(lt, env, o, keys[1..], below, if r.Ok? then Set(acc, keys[0], r.v) else acc);
      }
    }
  }

  // ---------- one literal over another ----------

  /** An object literal over an object that comes to b above the layer "under". */
  ghost predicate Joining(lt: LetterTest, env: Env, k: string, v: Val, e: Val, below: Option<Res>, under: Option<Res>,
                          b: Val) {
    && Joinable(lt, env, k, v, e) && DataEnv(env) && Raw(env, v, k) && ConcreteLayer(below) && ConcreteLayer(under)
    && LayerValue(lt, env, e, under) == Ok(b)
  }

  /** The order of the keys is kept. */
  predicate Strict(env: Env, v: Val, e: Val, below: Option<Res>)
    requires v.Obj? && e.Obj?
  {
    Fits(env, v, e) && below.Some? && !below.value.Absent?
  }

  /** One key of a merge of data. */
  function Upper(lt: LetterTest, a: Option<Val>, b: Option<Val>): Option<Val> {
    if a.Some? && b.Some? && a.value.Obj? && b.value.Obj? then Some(DeepMerge(lt, a.value, b.value))
    else if a.Some? then a
    else b
  }

  lemma {:induction false} MergedAtKey(lt: LetterTest, m: Val, o: Val, j: string)
    requires m.Obj? && o.Obj? && Concrete(m) && Concrete(o)
    ensures Get(DeepMerge(lt, m, o).vals, j) == Upper(lt, Get(m.vals, j), Get(o.vals, j))
  {
    DeepValue(lt, m, o, [], false, j);
    if j in m.vals {
      ConcreteHasNoSentinel(m.vals[j]);
      if j in o.vals && BothObjects(m, o, j) { SamePath(lt, m.vals[j], o.vals[j], [], [] + [j]); }
    }
  }

  lemma {:induction false} MergedIsData(lt: LetterTest, a: Val, b: Val)
    requires a.Obj? && b.Obj? && Concrete(a) && Concrete(b)
    ensures Concrete(DeepMerge(lt, a, b))
  {
    DeepMergeIsConcat(lt, a, b, []);
  }

  /** On data the path plays no part. */
  lemma {:induction false} SamePath(lt: LetterTest, a: Val, b: Val, p: seq<string>, q: seq<string>)
    requires a.Obj? && b.Obj? && Concrete(a) && Concrete(b)
    ensures DeepMergeAt(lt, a, b, p, false) == DeepMergeAt(lt, a, b, q, false)
  {
    var r, s := DeepMergeAt(lt, a, b, p, false), DeepMergeAt(lt, a, b, q, false);
    DeepMergeIsConcat(lt, a, b, p);
    DeepMergeIsConcat(lt, a, b, q);
    forall j ensures Get(r.vals, j) == Get(s.vals, j) {
      DeepValue(lt, a, b, p, false, j);
      DeepValue(lt, a, b, q, false, j);
      if j in a.vals && j in b.vals && BothObjects(a, b, j) {
        SamePath(lt, a.vals[j], b.vals[j], p + [j], q + [j]);
      }
    }
    SameMaps(r.vals, s.vals);
  }

  lemma {:induction false} FreshHasNoSentinel(v: Val)
    requires Fresh(v)
    ensures !ContainsSentinel(v)
  {
    match v
    case Scalar(_, _, _) =>
    case Subst(_, _, _, _) =>
    case Obj(_, vals, _) => forall j | j in vals { FreshHasNoSentinel(vals[j]); }
    case Arr(es) => forall i | 0 <= i < |es| { FreshHasNoSentinel(es[i]); }
    case Concat(ps) => forall i | 0 <= i < |ps| { FreshHasNoSentinel(ps[i]); }
  }

  /** What the upper object gives at a key. */
  function Part(lt: LetterTest, env: Env, v: Val, j: string, below: Option<Res>): Res
    requires v.Obj?
  {
    if j in v.vals then LayerValue(lt, env, v.vals[j], below) else Absent
  }

  /** A field of the merge: as in a merge of data, or failing where the upper one fails. */
  ghost predicate JoinsAt(lt: LetterTest, env: Env, v: Val, e: Val, below: Option<Res>, b: Val, path: seq<string>,
                          j: string)
    requires v.Obj? && e.Obj? && b.Obj?
  {
    var a, w := Part(lt, env, v, j, below), LayerField(lt, env, DeepMergeAt(lt, v, e, path, true), j, below);
    if a.Fail? then w == Fail
    else Settles(w) && LikeOption(Strict(env, v, e, below), OptionOf(w), Upper(lt, OptionOf(a), Get(b.vals, j)))
  }

  lemma {:induction false} FieldIs(lt: LetterTest, env: Env, s: Val, j: string, below: Option<Res>, r: Res,
                                   p: Option<Res>)
    requires s.Obj? && j in s.vals && LayerValue(lt, env, s.vals[j], below) == r
    requires if j in s.priors then p == Some(LayerValue(lt, env, s.priors[j], below)) else p == None
    ensures LayerField(lt, env, s, j, below) == if WantsPrior(r) && p.Some? then Settle(lt, r, p.value) else r
  {
  }

  /** A prior that is no object does not matter to a value that is there. */
  lemma {:induction false} FieldStays(lt: LetterTest, env: Env, s: Val, j: string, below: Option<Res>)
    requires s.Obj? && j in s.vals && !LayerValue(lt, env, s.vals[j], below).Absent?
    requires j in s.priors ==> NoObject(LayerValue(lt, env, s.priors[j], below))
    ensures LayerField(lt, env, s, j, below) == LayerValue(lt, env, s.vals[j], below)
  {
  }

  /** A field without references to the key does not depend on what lies below. */
  lemma {:induction false} DeadField(lt: LetterTest, env: Env, k: string, e: Val, j: string, below: Option<Res>,
                                     under: Option<Res>)
    requires e.Obj? && Piece(env, e, k) && j in e.vals && Dead(e.vals[j], k)
    ensures LayerField(lt, env, e, j, below) == LayerField(lt, env, e, j, under)
  {
    DeadIgnoresBelow(lt, env, e.vals[j], k, below, under);
    FirmValue(lt, env, e.vals[j], below);
    if j in e.priors && !Firm(e.vals[j]) { DeadIgnoresBelow(lt, env, e.priors[j], k, below, under); }
  }

  /** A key of the lower object only. */
  lemma {:induction false} LowField(lt: LetterTest, env: Env, k: string, v: Val, e: Val, below: Option<Res>,
                                    path: seq<string>, j: string)
    requires Raw(env, v, k) && Joinable(lt, env, k, v, e) && path != [] && j !in v.vals && j in e.vals
    ensures LayerField(lt, env, DeepMergeAt(lt, v, e, path, true), j, below) == LayerField(lt, env, e, j, below)
  {
    DeepValue(lt, v, e, path, true, j);
    JoinedPrior(lt, env, k, v, e, path, j);
  }

  lemma {:induction false} JoinedLow(lt: LetterTest, env: Env, k: string, v: Val, e: Val, below: Option<Res>,
                                     under: Option<Res>, b: Val, path: seq<string>, j: string)
    requires Joining(lt, env, k, v, e, below, under, b) && path != [] && j !in v.vals && j in e.vals
    ensures b.Obj? && JoinsAt(lt, env, v, e, below, b, path, j)
  {
    FieldsOf(lt, env, e, k, under, b);
    FieldOf(lt, env, e, under, b, j);
    LowField(lt, env, k, v, e, below, path, j);
    DeadField(lt, env, k, e, j, below, under);
    if j in b.vals { LikeItself(Strict(env, v, e, below), b.vals[j]); }
  }

  lemma {:induction false} HighValue(lt: LetterTest, env: Env, k: string, v: Val, e: Val, path: seq<string>, j: string)
    requires Raw(env, v, k) && Joinable(lt, env, k, v, e) && j in v.vals && !(j in e.vals && BothObjects(v, e, j))
    ensures Get(DeepMergeAt(lt, v, e, path, true).vals, j) == Some(v.vals[j])
  {
    DeepValue(lt, v, e, path, true, j);
    FreshHasNoSentinel(v.vals[j]);
  }

  /** A key at which the upper object has a scalar or an array, or which it alone has. */
  lemma {:induction false} JoinedFirm(lt: LetterTest, env: Env, k: string, v: Val, e: Val, below: Option<Res>,
                                      under: Option<Res>, b: Val, path: seq<string>, j: string)
    requires Joining(lt, env, k, v, e, below, under, b) && path != [] && j in v.vals &&
             (j !in e.vals || Firm(v.vals[j]))
    ensures b.Obj? && JoinsAt(lt, env, v, e, below, b, path, j)
  {
    FieldsOf(lt, env, e, k, under, b);
    FieldOf(lt, env, e, under, b, j);
    HighValue(lt, env, k, v, e, path, j);
    FirmValue(lt, env, v.vals[j], below);
    LayerIsConcrete(lt, env, v.vals[j], k, below);
    if j !in e.vals { JoinedPrior(lt, env, k, v, e, path, j); }
    var a := LayerValue(lt, env, v.vals[j], below);
    if a.Ok? { LikeItself(Strict(env, v, e, below), a.v); }
  }

  /** What a loose field comes to, whatever lies below. */
  lemma {:induction false} LooseField(lt: LetterTest, env: Env, k: string, e: Val, below: Option<Res>,
                                      under: Option<Res>, b: Val, j: string)
    requires e.Obj? && DataEnv(env) && Piece(env, e, k) && ConcreteLayer(under) &&
             LayerValue(lt, env, e, under) == Ok(b)
    requires j in e.vals && Loose(lt, env, k, e, j)
    ensures b.Obj? && Settles(LayerValue(lt, env, e.vals[j], below)) &&
            Get(b.vals, j) == OptionOf(LayerValue(lt, env, e.vals[j], below))
  {
    FieldsOf(lt, env, e, k, under, b);
    FieldOf(lt, env, e, under, b, j);
    DeadIgnoresBelow(lt, env, e.vals[j], k, below, None);
    DeadIgnoresBelow(lt, env, e.vals[j], k, under, None);
    FirmValue(lt, env, e.vals[j], under);
    LayerIsConcrete(lt, env, e.vals[j], k, under);
    if j in e.priors && !Firm(e.vals[j]) { DeadIgnoresBelow(lt, env, e.priors[j], k, under, None); }
  }

  /** A key of both at which not both are literals: the upper value, over the lower one. */
  lemma {:induction false} JoinedHigh(lt: LetterTest, env: Env, k: string, v: Val, e: Val, below: Option<Res>,
                                      under: Option<Res>, b: Val, path: seq<string>, j: string)
    requires Joining(lt, env, k, v, e, below, under, b) && path != [] && j in v.vals && j in e.vals &&
             !BothObjects(v, e, j) && !Firm(v.vals[j])
    ensures b.Obj? && JoinsAt(lt, env, v, e, below, b, path, j)
  {
    var s, a := DeepMergeAt(lt, v, e, path, true), LayerValue(lt, env, v.vals[j], below);
    assert Loose(lt, env, k, e, j);
    HighValue(lt, env, k, v, e, path, j);
    JoinedPrior(lt, env, k, v, e, path, j);
    LooseField(lt, env, k, e, below, under, b, j);
    LayerIsConcrete(lt, env, v.vals[j], k, below);
    FieldIs(lt, env, s, j, below, a, Some(LayerValue(lt, env, e.vals[j], below)));
    if !a.Fail? { LikeUpper(lt, Strict(env, v, e, below), a, LayerValue(lt, env, e.vals[j], below)); }
  }

  lemma {:induction false} LikeUpper(lt: LetterTest, strict: bool, a: Res, p: Res)
    requires Settles(a) && Settles(p)
    ensures var w := if WantsPrior(a) then Settle(lt, a, p) else a;
            Settles(w) && LikeOption(strict, OptionOf(w), Upper(lt, OptionOf(a), OptionOf(p)))
  {
    var w := if WantsPrior(a) then Settle(lt, a, p) else a;
    if w.Ok? { LikeItself(strict, w.v); }
  }

  /** A key at which both are literals. */
  lemma {:induction false} BothParts(lt: LetterTest, env: Env, k: string, v: Val, e: Val, below: Option<Res>,
                                     path: seq<string>, j: string)
    requires Raw(env, v, k) && Joinable(lt, env, k, v, e) && path != [] && j in v.vals && j in e.vals &&
             BothObjects(v, e, j)
    ensures var s := DeepMergeAt(lt, v, e, path, true);
            && Get(s.vals, j) == Some(DeepMergeAt(lt, v.vals[j], e.vals[j], path + [j], true))
            && (j in s.priors ==> NoObject(LayerValue(lt, env, s.priors[j], below)))
    ensures j in e.priors ==> NoObject(LayerValue(lt, env, e.priors[j], below))
  {
    DeepValue(lt, v, e, path, true, j);
    JoinedPrior(lt, env, k, v, e, path, j);
    if j in e.priors { DeadIgnoresBelow(lt, env, e.priors[j], k, below, None); }
  }

  lemma {:induction false} JoiningAt(lt: LetterTest, env: Env, k: string, v: Val, e: Val, below: Option<Res>,
                                     under: Option<Res>, b: Val, path: seq<string>, j: string)
    requires Joining(lt, env, k, v, e, below, under, b) && path != [] && j in v.vals && j in e.vals &&
             BothObjects(v, e, j)
    ensures b.Obj? && j in b.vals && Joining(lt, env, k, v.vals[j], e.vals[j], below, under, b.vals[j])
  {
    FieldsOf(lt, env, e, k, under, b);
    FieldOf(lt, env, e, under, b, j);
    BothParts(lt, env, k, v, e, under, path, j);
    NeverAbsent(lt, env, e.vals[j], e.vals[j].keys, under, EMPTY_OBJ);
    FieldStays(lt, env, e, j, under);
  }

  lemma {:induction false} BothValue(lt: LetterTest, env: Env, k: string, v: Val, e: Val, below: Option<Res>,
                                     under: Option<Res>, b: Val, path: seq<string>, j: string)
    requires Joining(lt, env, k, v, e, below, under, b) && path != [] && j in v.vals && j in e.vals &&
             BothObjects(v, e, j)
    ensures b.Obj? && j in b.vals && b.vals[j].Obj?
    ensures var a, r :=
              LayerValue(lt, env, v.vals[j], below),
              LayerValue(lt, env, DeepMergeAt(lt, v.vals[j], e.vals[j], path + [j], true), below);
            if a.Ok? then a.v.Obj? && r.Ok? && LikeVal(Strict(env, v, e, below), r.v, DeepMerge(lt, a.v, b.vals[j]))
            else a == Fail && r == Fail
    decreases v, 0
  {
    JoiningAt(lt, env, k, v, e, below, under, b, path, j);
    JoinedLayer(lt, env, k, v.vals[j], e.vals[j], below, under, b.vals[j], path + [j]);
    if Strict(env, v, e, below) {
      assert Fits(env, v.vals[j], e.vals[j]);
    } else {
      var a, r := LayerValue(lt, env, v.vals[j], below),
        LayerValue(lt, env, DeepMergeAt(lt, v.vals[j], e.vals[j], path + [j], true), below);
      if a.Ok? { ReorderedItself(r.v); }
    }
  }

  lemma {:induction false} JoinedBoth(lt: LetterTest, env: Env, k: string, v: Val, e: Val, below: Option<Res>,
                                      under: Option<Res>, b: Val, path: seq<string>, j: string)
    requires Joining(lt, env, k, v, e, below, under, b) && path != [] && j in v.vals && j in e.vals &&
             BothObjects(v, e, j)
    ensures b.Obj? && JoinsAt(lt, env, v, e, below, b, path, j)
    decreases v, 1
  {
    BothValue(lt, env, k, v, e, below, under, b, path, j);
    BothParts(lt, env, k, v, e, below, path, j);
    FieldStays(lt, env, DeepMergeAt(lt, v, e, path, true), j, below);
  }

  lemma {:induction false} JoinedField(lt: LetterTest, env: Env, k: string, v: Val, e: Val, below: Option<Res>,
                                       under: Option<Res>, b: Val, path: seq<string>, j: string)
    requires Joining(lt, env, k, v, e, below, under, b) && path != [] && (j in v.vals || j in e.vals)
    ensures b.Obj? && JoinsAt(lt, env, v, e, below, b, path, j)
    decreases v, 2
  {
    if j !in v.vals {
      JoinedLow(lt, env, k, v, e, below, under, b, path, j);
    } else if j in e.vals && BothObjects(v, e, j) {
      JoinedBoth(lt, env, k, v, e, below, under, b, path, j);
    } else if j !in e.vals || Firm(v.vals[j]) {
      JoinedFirm(lt, env, k, v, e, below, under, b, path, j);
    } else {
      JoinedHigh(lt, env, k, v, e, below, under, b, path, j);
    }
  }

  // ---------- pieces ----------

  lemma {:induction false} JoinedPieceAt(lt: LetterTest, env: Env, k: string, v: Val, e: Val, path: seq<string>,
                                         j: string)
    requires Raw(env, v, k) && Joinable(lt, env, k, v, e) && path != [] && j in DeepMergeAt(lt, v, e, path, true).vals
    ensures var f := DeepMergeAt(lt, v, e, path, true).vals[j]; Piece(env, f, k) && !ContainsSentinel(f)
    decreases v, 0
  {
    DeepValue(lt, v, e, path, true, j);
    if j in v.vals {
      FreshHasNoSentinel(v.vals[j]);
      if j in e.vals && BothObjects(v, e, j) { JoinedPiece(lt, env, k, v.vals[j], e.vals[j], path + [j]); }
    }
  }

  lemma {:induction false} JoinedPriorIsPiece(lt: LetterTest, env: Env, k: string, v: Val, e: Val, path: seq<string>,
                                              j: string)
    requires Raw(env, v, k) && Joinable(lt, env, k, v, e) && path != []
    requires var s := DeepMergeAt(lt, v, e, path, true); j in s.priors && j in s.vals && !Firm(s.vals[j])
    ensures var p := DeepMergeAt(lt, v, e, path, true).priors[j]; Piece(env, p, k) && Dead(p, k)
  {
    var s := DeepMergeAt(lt, v, e, path, true);
    JoinedPriorKeys(lt, env, k, v, e, path, j);
    if j in v.vals && !BothObjects(v, e, j) { HighValue(lt, env, k, v, e, path, j); }
    JoinedPrior(lt, env, k, v, e, path, j);
    DeepValue(lt, v, e, path, true, j);
    assert Get(s.priors, j) == Some(s.priors[j]);
    if j in v.vals && !BothObjects(v, e, j) { assert Loose(lt, env, k, e, j); }
  }

  lemma {:induction false} JoinedKeys(lt: LetterTest, v: Val, e: Val, path: seq<string>)
    requires v.Obj? && e.Obj? && KeysMatch(v) && KeysMatch(e)
    ensures var s := DeepMergeAt(lt, v, e, path, true); KeysMatch(s) && s.vals.Keys == v.vals.Keys + e.vals.Keys
  {
    var s := DeepMergeAt(lt, v, e, path, true);
    forall j ensures j in s.vals <==> j in v.vals || j in e.vals { DeepValue(lt, v, e, path, true, j); }
    MergedKeysMatch(v, e, s);
  }

  lemma {:induction false} JoinedPiece(lt: LetterTest, env: Env, k: string, v: Val, e: Val, path: seq<string>)
    requires Raw(env, v, k) && Joinable(lt, env, k, v, e) && path != []
    ensures var s := DeepMergeAt(lt, v, e, path, true); Piece(env, s, k) && !ContainsSentinel(s)
    decreases v, 1
  {
    var s := DeepMergeAt(lt, v, e, path, true);
    JoinedKeys(lt, v, e, path);
    forall j | j in s.vals { JoinedPieceAt(lt, env, k, v, e, path, j); }
    forall j | j in s.priors
      ensures j in s.vals && (Firm(s.vals[j]) || (Piece(env, s.priors[j], k) && Dead(s.priors[j], k))) {
      JoinedPriorKeys(lt, env, k, v, e, path, j);
      if !Firm(s.vals[j]) { JoinedPriorIsPiece(lt, env, k, v, e, path, j); }
    }
  }

  // ---------- the order of the keys ----------

  lemma {:induction false} OkKeysConcat(a: seq<string>, b: seq<string>, want: map<string, Res>)
    ensures OkKeys(a + b, want) == OkKeys(a, want) + OkKeys(b, want)
  {
    if a == [] {
      assert a + b == b && [] + OkKeys(b, want) == OkKeys(b, want);
    } else {
      assert (a + b)[1..] == a[1..] + b;
      OkKeysConcat(a[1..], b, want);
      Assoc(if a[0] in want && want[a[0]].Ok? then [a[0]] else [], OkKeys(a[1..], want), OkKeys(b, want));
    }
  }

  lemma {:induction false} SameOkKeys(keys: seq<string>, want: map<string, Res>, other: map<string, Res>)
    requires forall i | 0 <= i < |keys| :: Wanted(want, keys[i]).Some? == Wanted(other, keys[i]).Some?
    ensures OkKeys(keys, want) == OkKeys(keys, other)
  {
    if keys != [] {
      assert forall i | 0 <= i < |keys[1..]| :: keys[1..][i] == keys[i + 1];
      SameOkKeys(keys[1..], want, other);
    }
  }

  lemma {:induction false} NewOkKeys(v: Val, m: Val, keys: seq<string>, want: map<string, Res>, other: map<string, Res>)
    requires v.Obj? && m.Obj?
    requires forall i | 0 <= i < |keys| :: keys[i] !in v.vals ==>
             Wanted(want, keys[i]).Some? == Wanted(other, keys[i]).Some?
    requires forall i | 0 <= i < |keys| :: Wanted(other, keys[i]).Some? ==> (keys[i] in v.vals <==> keys[i] in m.vals)
    ensures OkKeys(NewKeys(v, keys), want) == NewKeys(m, OkKeys(keys, other))
  {
    if keys != [] {
      var rest := keys[1..];
      assert forall i | 0 <= i < |rest| :: rest[i] == keys[i + 1];
      NewOkKeys(v, m, rest, want, other);
      var here, there :=
        if keys[0] in v.vals then [] else [keys[0]],
        if Wanted(other, keys[0]).Some? then [keys[0]] else [];
      OkKeysConcat(here, NewKeys(v, rest), want);
      NewKeysConcat(m, there, OkKeys(rest, other));
      assert [keys[0]][1..] == [] && [keys[0]] + [] == [keys[0]];
    }
  }

  lemma {:induction false} NewKeysConcat(m: Val, a: seq<string>, b: seq<string>)
    requires m.Obj?
    ensures NewKeys(m, a + b) == NewKeys(m, a) + NewKeys(m, b)
  {
    if a == [] {
      assert a + b == b && [] + NewKeys(m, b) == NewKeys(m, b);
    } else {
      assert (a + b)[1..] == a[1..] + b;
      NewKeysConcat(m, a[1..], b);
      Assoc(if a[0] in m.vals then [] else [a[0]], NewKeys(m, a[1..]), NewKeys(m, b));
    }
  }

  // ---------- the whole object ----------

  ghost predicate AllJoin(lt: LetterTest, env: Env, v: Val, e: Val, below: Option<Res>, b: Val, path: seq<string>)
    requires v.Obj? && e.Obj? && b.Obj?
  {
    forall j | j in v.vals || j in e.vals :: JoinsAt(lt, env, v, e, below, b, path, j)
  }

  /** With the order of keys kept, a key of both objects is defined in the upper one. */
  lemma {:induction false} UpperDefined(lt: LetterTest, env: Env, k: string, v: Val, e: Val, below: Option<Res>, m: Val,
                                        j: string)
    requires v.Obj? && e.Obj? && Raw(env, v, k) && Strict(env, v, e, below) && Shown(lt, env, v, below, m)
    ensures j in v.vals && j in e.vals ==> j in m.vals
    ensures j in m.vals ==> j in v.vals
  {
    ShownAt(lt, env, v, below, m, j);
    if j in v.vals && j in e.vals {
      if v.vals[j].Obj? {
        NeverAbsent(lt, env, v.vals[j], v.vals[j].keys, below, EMPTY_OBJ);
      } else {
        NothingUndefined(lt, env, v.vals[j], k, below);
      }
    }
  }

  lemma {:induction false} HighKeys(lt: LetterTest, env: Env, k: string, v: Val, e: Val, below: Option<Res>,
                                    under: Option<Res>, b: Val, path: seq<string>, m: Val)
    requires Joining(lt, env, k, v, e, below, under, b) && b.Obj? && Strict(env, v, e, below) &&
             Shown(lt, env, v, below, m)
    requires AllJoin(lt, env, v, e, below, b, path) &&
             DeepMergeAt(lt, v, e, path, true).vals.Keys == v.vals.Keys + e.vals.Keys
    ensures OkKeys(v.keys, FieldMap(lt, env, DeepMergeAt(lt, v, e, path, true), below)) == m.keys
  {
    var want, high := FieldMap(lt, env, DeepMergeAt(lt, v, e, path, true), below), PartMap(lt, env, v, below);
    forall i | 0 <= i < |v.keys| ensures Wanted(want, v.keys[i]).Some? == Wanted(high, v.keys[i]).Some? {
      assert v.keys[i] in v.keys && JoinsAt(lt, env, v, e, below, b, path, v.keys[i]);
      HighKey(lt, env, k, v, e, below, under, b, m, v.keys[i]);
    }
    SameOkKeys(v.keys, want, high);
  }

  lemma {:induction false} HighKey(lt: LetterTest, env: Env, k: string, v: Val, e: Val, below: Option<Res>,
                                   under: Option<Res>, b: Val, m: Val, j: string)
    requires Joining(lt, env, k, v, e, below, under, b) && b.Obj? && Strict(env, v, e, below) &&
             Shown(lt, env, v, below, m) && j in v.vals
    ensures !LayerValue(lt, env, v.vals[j], below).Ok? ==> LayerValue(lt, env, v.vals[j], below).Absent? && j !in b.vals
  {
    ShownAt(lt, env, v, below, m, j);
    UpperDefined(lt, env, k, v, e, below, m, j);
    FieldsOf(lt, env, e, k, under, b);
    FieldOf(lt, env, e, under, b, j);
  }

  lemma {:induction false} LowKey(lt: LetterTest, env: Env, k: string, v: Val, e: Val, below: Option<Res>,
                                  under: Option<Res>, b: Val, path: seq<string>, m: Val, j: string)
    requires Joining(lt, env, k, v, e, below, under, b) && b.Obj? && Strict(env, v, e, below) &&
             Shown(lt, env, v, below, m) && j in e.vals
    requires JoinsAt(lt, env, v, e, below, b, path, j) &&
             DeepMergeAt(lt, v, e, path, true).vals.Keys == v.vals.Keys + e.vals.Keys
    ensures var want, low := FieldMap(lt, env, DeepMergeAt(lt, v, e, path, true), below), FieldMap(lt, env, e, under);
            && (j !in v.vals ==> Wanted(want, j).Some? == Wanted(low, j).Some?)
            && (j in v.vals <==> j in m.vals)
  {
    FieldsOf(lt, env, e, k, under, b);
    FieldOf(lt, env, e, under, b, j);
    UpperDefined(lt, env, k, v, e, below, m, j);
  }

  lemma {:induction false} LowKeys(lt: LetterTest, env: Env, k: string, v: Val, e: Val, below: Option<Res>,
                                   under: Option<Res>, b: Val, path: seq<string>, m: Val)
    requires Joining(lt, env, k, v, e, below, under, b) && b.Obj? && Strict(env, v, e, below) &&
             Shown(lt, env, v, below, m)
    requires AllJoin(lt, env, v, e, below, b, path) &&
             DeepMergeAt(lt, v, e, path, true).vals.Keys == v.vals.Keys + e.vals.Keys
    ensures OkKeys(NewKeys(v, e.keys), FieldMap(lt, env, DeepMergeAt(lt, v, e, path, true), below)) ==
            NewKeys(m, b.keys)
  {
    var want, low := FieldMap(lt, env, DeepMergeAt(lt, v, e, path, true), below), FieldMap(lt, env, e, under);
    FieldsOf(lt, env, e, k, under, b);
    forall i | 0 <= i < |e.keys|
      ensures e.keys[i] !in v.vals ==> Wanted(want, e.keys[i]).Some? == Wanted(low, e.keys[i]).Some?
      ensures e.keys[i] in v.vals <==> e.keys[i] in m.vals {
      assert e.keys[i] in e.keys && JoinsAt(lt, env, v, e, below, b, path, e.keys[i]);
      LowKey(lt, env, k, v, e, below, under, b, path, m, e.keys[i]);
    }
    NewOkKeys(v, m, e.keys, want, low);
  }

  lemma {:induction false} JoinedValue(lt: LetterTest, env: Env, v: Val, e: Val, below: Option<Res>, b: Val,
                                       path: seq<string>, m: Val, j: string)
    requires v.Obj? && e.Obj? && b.Obj? && Concrete(b) && KeysMatch(v) && Shown(lt, env, v, below, m)
    requires JoinsAt(lt, env, v, e, below, b, path, j)
    ensures var w := LayerField(lt, env, DeepMergeAt(lt, v, e, path, true), j, below);
            Settles(w) && LikeOption(Strict(env, v, e, below), OptionOf(w), Get(DeepMerge(lt, m, b).vals, j))
  {
    ShownAt(lt, env, v, below, m, j);
    MergedAtKey(lt, m, b, j);
  }

  /** The results are those of t. */
  ghost predicate Agrees(strict: bool, want: map<string, Res>, t: Val)
    requires t.Obj?
  {
    && (forall j | j in want :: Settles(want[j]) && LikeOption(strict, OptionOf(want[j]), Get(t.vals, j)))
    && (forall j | j in t.vals :: j in want)
  }

  lemma {:induction false} JoinedValues(lt: LetterTest, env: Env, v: Val, e: Val, below: Option<Res>, b: Val,
                                        path: seq<string>, m: Val)
    requires v.Obj? && e.Obj? && b.Obj? && Concrete(b) && KeysMatch(v) && KeysMatch(e) && Shown(lt, env, v, below, m)
    requires (forall j | j in b.vals :: j in e.vals) && AllJoin(lt, env, v, e, below, b, path)
    ensures var s := DeepMergeAt(lt, v, e, path, true);
            && KeysMatch(s) && s.vals.Keys == v.vals.Keys + e.vals.Keys
            && Agrees(Strict(env, v, e, below), FieldMap(lt, env, s, below), DeepMerge(lt, m, b))
  {
    var s, t := DeepMergeAt(lt, v, e, path, true), DeepMerge(lt, m, b);
    JoinedKeys(lt, v, e, path);
    forall j | j in s.vals { JoinedValue(lt, env, v, e, below, b, path, m, j); }
    forall j | j in t.vals ensures j in s.vals {
      DeepValue(lt, m, b, [], false, j);
      ShownAt(lt, env, v, below, m, j);
    }
  }

  lemma {:induction false} AgreedObject(lt: LetterTest, env: Env, s: Val, below: Option<Res>, t: Val, strict: bool)
    requires s.Obj? && KeysMatch(s) && t.Obj? && t.priors == map[]
    requires Agrees(strict, FieldMap(lt, env, s, below), t)
    requires strict ==> t.keys == OkKeys(s.keys, FieldMap(lt, env, s, below))
    ensures var r := LayerValue(lt, env, s, below); r.Ok? && LikeVal(strict, r.v, t)
  {
    var r, want := LayerValue(lt, env, s, below), FieldMap(lt, env, s, below);
    ObjectGives(lt, env, s, below);
    forall i | 0 <= i < |s.keys| ensures s.keys[i] in want { assert s.keys[i] in s.keys; }
    assert AllSettle(s.keys, want);
    forall j ensures LikeOption(strict, Get(r.v.vals, j), Get(t.vals, j)) {
      assert j in s.keys <==> j in s.vals;
    }
    LikeObject(strict, r.v, t);
  }

  lemma {:induction false} JoinedOk(lt: LetterTest, env: Env, k: string, v: Val, e: Val, below: Option<Res>,
                                    under: Option<Res>, b: Val, path: seq<string>, m: Val)
    requires Joining(lt, env, k, v, e, below, under, b) && b.Obj? && Shown(lt, env, v, below, m) &&
             AllJoin(lt, env, v, e, below, b, path)
    ensures var r := LayerValue(lt, env, DeepMergeAt(lt, v, e, path, true), below);
            r.Ok? && LikeVal(Strict(env, v, e, below), r.v, DeepMerge(lt, m, b))
  {
    var s := DeepMergeAt(lt, v, e, path, true);
    FieldsOf(lt, env, e, k, under, b);
    forall j | j in b.vals ensures j in e.vals { FieldOf(lt, env, e, under, b, j); }
    JoinedValues(lt, env, v, e, below, b, path, m);
    DeepMergeIsConcat(lt, m, b, []);
    if Strict(env, v, e, below) { JoinedOrder(lt, env, k, v, e, below, under, b, path, m); }
    AgreedObject(lt, env, s, below, DeepMerge(lt, m, b), Strict(env, v, e, below));
  }

  lemma {:induction false} JoinedOrder(lt: LetterTest, env: Env, k: string, v: Val, e: Val, below: Option<Res>,
                                       under: Option<Res>, b: Val, path: seq<string>, m: Val)
    requires Joining(lt, env, k, v, e, below, under, b) && b.Obj? && Strict(env, v, e, below) &&
             Shown(lt, env, v, below, m)
    requires AllJoin(lt, env, v, e, below, b, path) &&
             DeepMergeAt(lt, v, e, path, true).vals.Keys == v.vals.Keys + e.vals.Keys
    ensures var s := DeepMergeAt(lt, v, e, path, true);
            OkKeys(s.keys, FieldMap(lt, env, s, below)) == DeepMerge(lt, m, b).keys
  {
    OkKeysConcat(v.keys, NewKeys(v, e.keys), FieldMap(lt, env, DeepMergeAt(lt, v, e, path, true), below));
    HighKeys(lt, env, k, v, e, below, under, b, path, m);
    LowKeys(lt, env, k, v, e, below, under, b, path, m);
  }

  lemma {:induction false} JoinedFails(lt: LetterTest, env: Env, k: string, v: Val, e: Val, below: Option<Res>, b: Val,
                                       path: seq<string>, j: string)
    requires Joinable(lt, env, k, v, e) && Raw(env, v, k) && b.Obj? && j in v.vals &&
             LayerValue(lt, env, v.vals[j], below).Fail?
    requires AllJoin(lt, env, v, e, below, b, path)
    ensures LayerValue(lt, env, DeepMergeAt(lt, v, e, path, true), below) == Fail
  {
    var s := DeepMergeAt(lt, v, e, path, true);
    JoinedKeys(lt, v, e, path);
    assert forall i | i in s.vals :: JoinsAt(lt, env, v, e, below, b, path, i);
    ObjectGives(lt, env, s, below);
    assert j in s.vals && j in s.keys;
    assert !Settles(FieldMap(lt, env, s, below)[j]);
  }

  /** An object literal merged at once over an object comes to what it comes to by
      itself, merged over what that one comes to.  The order of fields is the same
      too, unless one of the literal's is undefined and hides an earlier one. */
  lemma {:induction false} JoinedLayer(lt: LetterTest, env: Env, k: string, v: Val, e: Val, below: Option<Res>,
                                       under: Option<Res>, b: Val, path: seq<string>)
    requires Joining(lt, env, k, v, e, below, under, b) && path != []
    ensures b.Obj? && Concrete(b)
    ensures var x, r := LayerValue(lt, env, v, below), LayerValue(lt, env, DeepMergeAt(lt, v, e, path, true), below);
            if x.Ok? then x.v.Obj? && Concrete(x.v) && r.Ok? &&
              LikeVal(Strict(env, v, e, below), r.v, DeepMerge(lt, x.v, b))
            else x == Fail && r == Fail
    decreases v, 3
  {
    var x := LayerValue(lt, env, v, below);
    RawObject(lt, env, v, k, below);
    FieldsOf(lt, env, e, k, under, b);
    forall j | j in v.vals || j in e.vals ensures JoinsAt(lt, env, v, e, below, b, path, j) {
      JoinedField(lt, env, k, v, e, below, under, b, path, j);
    }
    if x.Ok? {
      JoinedOk(lt, env, k, v, e, below, under, b, path, x.v);
    } else {
      var i :| 0 <= i < |v.keys| && !(v.keys[i] in v.vals && Settles(PartMap(lt, env, v, below)[v.keys[i]]));
      assert v.keys[i] in v.keys;
      JoinedFails(lt, env, k, v, e, below, b, path, v.keys[i]);
    }
  }
}
