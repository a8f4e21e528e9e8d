/**
 The refinement: phase 2 computes what plain evaluation computes, on every
 orderly tree.
 */
module Refines {
  import opened Paths
  import opened Values
  import opened Merge
  import opened Concats
  import opened Resolve
  import opened Refinement

  // ---------- the invariant of a walk ----------

  ghost predicate Dominates(w: Val -> nat, u: Val, v: Val) {
    forall n {:trigger Below(w, u, n)} :: Below(w, u, n) ==> Below(w, v, n)
  }

  ghost predicate PathDominates(root: Val, w: Val -> nat, q: seq<string>, v: Val) {
    forall n {:trigger PathBelow(root, w, q, n)} :: PathBelow(root, w, q, n) ==> Below(w, v, n)
  }

  /** Whatever is being resolved weighs at least as much as the value at hand. */
  ghost predicate ResolvingDominates(c: Ctx, w: Val -> nat, v: Val) {
    forall q {:trigger PathDominates(c.root, w, q, v)} :: KeyOf(c.lt, q) in c.resolving ==>
      PathDominates(c.root, w, q, v)
  }

  /** The value at hand belongs to the layer u of the field path, or is part of
      what u, not an object, is resolved through. */
  ghost predicate Placed(c: Ctx, w: Val -> nat, f: seq<string>, u: Val, v: Val) {
    && f != [] && f <= c.field && Layer(c.root, f, u)
    && ((c.field == f && v == u) || (!u.Obj? && Dominates(w, u, v)))
  }

  /** No self-reference of v has its key in the cache. */
  ghost predicate SelfFresh(lt: LetterTest, root: Val, cache: map<string, Val>, v: Val) {
    match v
    case Scalar(_, _, _) => true
    case Subst(_, segs, _, absent) => absent || !LooksBack(root, v) || KeyOf(lt, segs) !in cache
    case Arr(es) => forall i | 0 <= i < |es| :: SelfFresh(lt, root, cache, es[i])
    case Concat(ps) => forall i | 0 <= i < |ps| :: SelfFresh(lt, root, cache, ps[i])
    case Obj(_, vals, priors) =>
      (forall k | k in vals :: SelfFresh(lt, root, cache, vals[k])) &&
        (forall k | k in priors :: SelfFresh(lt, root, cache, priors[k]))
  }

  /** The entry is the plain value of a top-level field. */
  ghost predicate Entry(c: Ctx, most: nat, key: string)
    requires c.root.Obj? && key in c.cache
  {
    exists k :: key == KeyOf(c.lt, [k]) && k in c.root.vals &&
      PlainField(c.lt, c.root, most, c.root, k) == Ok(c.cache[key])
  }

  ghost predicate CacheIsPlain(c: Ctx, most: nat)
    requires c.root.Obj?
  {
    forall key {:trigger Entry(c, most, key)} :: key in c.cache ==> Entry(c, most, key)
  }

  ghost predicate Walking(c: Ctx, w: Val -> nat, most: nat, fuel: nat, f: seq<string>, u: Val, v: Val) {
    && Orderly(c.lt, c.root, w) && c.top == c.root.priors && CacheIsPlain(c, most)
    && ResolvingDominates(c, w, v) && Placed(c, w, f, u, v)
    && SelfFresh(c.lt, c.root, c.cache, v) && AllGrounded(c.root, w, v) && Below(w, v, fuel) && fuel <= most
  }

  // ---------- keeping the invariant ----------

  lemma {:induction false} StillDominates(c: Ctx, w: Val -> nat, v: Val, e: Val)
    requires ResolvingDominates(c, w, v) && Dominates(w, v, e)
    ensures ResolvingDominates(c, w, e)
  {
    forall q | KeyOf(c.lt, q) in c.resolving ensures PathDominates(c.root, w, q, e) {
      assert PathDominates(c.root, w, q, v);
    }
  }

  lemma {:induction false} StillPlaced(c: Ctx, w: Val -> nat, f: seq<string>, u: Val, v: Val, e: Val)
    requires Placed(c, w, f, u, v) && !v.Obj? && Dominates(w, v, e)
    ensures Placed(c, w, f, u, e)
  {
    if c.field == f && v == u {
      assert Dominates(w, u, e);
    }
  }

  /** A piece of a concat, an array element, or what a substitution stands for. */
  lemma {:induction false} WalkOn(c: Ctx, w: Val -> nat, most: nat, fuel: nat, f: seq<string>, u: Val, v: Val, e: Val,
                                  less: nat)
    requires Walking(c, w, most, fuel, f, u, v) && !v.Obj? && Dominates(w, v, e)
    requires SelfFresh(c.lt, c.root, c.cache, e) && AllGrounded(c.root, w, e) && Below(w, e, less) && less <= fuel
    ensures Walking(c, w, most, less, f, u, e)
  {
    StillDominates(c, w, v, e);
    StillPlaced(c, w, f, u, v, e);
  }

  /** A field of an object, live or saved. */
  lemma {:induction false} WalkInto(c: Ctx, w: Val -> nat, most: nat, fuel: nat, f: seq<string>, u: Val, o: Val,
                                    k: string, e: Val)
    returns (g: seq<string>, x: Val)
    requires Walking(c, w, most, fuel, f, u, o) && o.Obj?
    requires (k in o.vals && e == o.vals[k]) || (k in o.priors && e == o.priors[k])
    ensures Walking(c.(field := c.field + [k]), w, most, fuel, g, x, e)
  {
    var c' := c.(field := c.field + [k]);
    assert Dominates(w, o, e);
    StillDominates(c, w, o, e);
    assert ResolvingDominates(c', w, e) by {
      forall q | KeyOf(c'.lt, q) in c'.resolving ensures PathDominates(c'.root, w, q, e) {
        assert PathDominates(c.root, w, q, e);
      }
    }
    if c.field == f && o == u {
      LayerSnoc(c.root, f, u, k, e);
      g, x := f + [k], e;
    } else {
      g, x := f, u;
    }
    SameCache(c, c', most);
  }

  lemma {:induction false} SameCache(c: Ctx, d: Ctx, most: nat)
    requires c.root.Obj? && CacheIsPlain(c, most) && d.root == c.root && d.lt == c.lt && d.cache == c.cache
    ensures CacheIsPlain(d, most)
  {
    forall key | key in d.cache ensures Entry(d, most, key) {
      assert Entry(c, most, key);
    }
  }

  /** Only own self-references, and the own key is not cached. */
  lemma {:induction false} OwnIsFresh(c: Ctx, most: nat, v: Val, q: seq<string>)
    requires c.root.Obj? && CacheIsPlain(c, most) && OwnRefsOnly(c.root, v, q) && KeyOf(c.lt, q) !in c.cache
    ensures SelfFresh(c.lt, c.root, c.cache, v)
  {
    match v
    case Subst(_, segs, _, absent) =>
      if !absent && LooksBack(c.root, v) && KeyOf(c.lt, segs) in c.cache {
        assert Entry(c, most, KeyOf(c.lt, segs));
        var k :| KeyOf(c.lt, segs) == KeyOf(c.lt, [k]);
        KeysNeverCollide(c.lt, segs, [k]);
      }
    case Arr(es) => forall i | 0 <= i < |es| { OwnIsFresh(c, most, es[i], q); }
    case Concat(ps) => forall i | 0 <= i < |ps| { OwnIsFresh(c, most, ps[i], q); }
    case Obj(_, vals, priors) =>
      forall k | k in vals { OwnIsFresh(c, most, vals[k], q); }
      forall k | k in priors { OwnIsFresh(c, most, priors[k], q); }
    case _ =>
  }

  /** With faithful priors the two places that hold a prior agree. */
  lemma {:induction false} PriorIsFound(c: Ctx, segs: seq<string>)
    requires c.root.Obj? && PriorsFaithful(c.lt, c.root) && c.top == c.root.priors
    ensures FindPrior(c, segs, KeyOf(c.lt, segs)) == PriorAt(c.root, segs)
  {
  }

  // ---------- one substitution ----------

  /** Below the field being resolved there is nothing: neither a prior to look
      into nor a value to find. */
  lemma {:induction false} NothingBelowField(c: Ctx, w: Val -> nat, most: nat, fuel: nat, f: seq<string>, u: Val,
                                             s: Val)
    requires Walking(c, w, most, fuel, f, u, s) && s.Subst? && !s.knownAbsent && LooksBelow(c, s)
    ensures Lookup(c.root, s.segs).None? && PriorAt(c.root, c.field).None?
  {
    KeysNeverCollide(c.lt, s.segs[..|c.field|], c.field);
    assert f < s.segs && !u.Obj? && Dominates(w, u, s);
    assert !Below(w, s, w(s));
    assert !Blocks(c.root, s, f, u);
    NothingBelow(c.root, f, s.segs);
    if f != c.field {
      NoPriorBelow(c.root, f, c.field);
    }
  }

  /** A key that is being resolved can only be met by a self-reference. */
  lemma {:induction false} InProgressLooksBack(c: Ctx, w: Val -> nat, s: Val)
    requires s.Subst? && !s.knownAbsent && ResolvingDominates(c, w, s) && Grounded(c.root, w, s)
    requires KeyOf(c.lt, s.segs) in c.resolving
    ensures LooksBack(c.root, s)
  {
    assert PathDominates(c.root, w, s.segs, s);
    assert !Below(w, s, w(s));
    assert !PathBelow(c.root, w, s.segs, w(s));
  }

  /** What a substitution is resolved through is lighter than it. */
  lemma {:induction false} LighterIsDominated(w: Val -> nat, s: Val, e: Val)
    requires s.Subst? && !s.knownAbsent && Below(w, e, w(s))
    ensures Dominates(w, s, e)
  {
    forall n | Below(w, s, n) ensures Below(w, e, n) {
      BelowMore(w, e, w(s), n);
    }
  }

  /** Following a substitution: its key is now being resolved too. */
  lemma {:induction false} WalkThrough(c: Ctx, w: Val -> nat, most: nat, fuel: nat, f: seq<string>, u: Val, s: Val,
                                       e: Val)
    requires Walking(c, w, most, fuel, f, u, s) && s.Subst? && !s.knownAbsent && fuel > 0
    requires KeyOf(c.lt, s.segs) !in c.cache
    requires Below(w, e, w(s)) && OwnRefsOnly(c.root, e, s.segs) && AllGrounded(c.root, w, e)
    requires Some(e) == Lookup(c.root, s.segs) || Some(e) == PriorAt(c.root, s.segs)
    ensures Walking(c, w, most, fuel - 1, f, u, e)
    ensures Walking(c.(resolving := c.resolving + {KeyOf(c.lt, s.segs)}), w, most, fuel - 1, f, u, e)
  {
    var key := KeyOf(c.lt, s.segs);
    var c' := c.(resolving := c.resolving + {key});
    OwnIsFresh(c, most, e, s.segs);
    LighterIsDominated(w, s, e);
    BelowMore(w, e, w(s), fuel - 1);
    WalkOn(c, w, most, fuel, f, u, s, e, fuel - 1);
    SameCache(c, c', most);
    forall q | KeyOf(c'.lt, q) in c'.resolving ensures PathDominates(c'.root, w, q, e) {
      if KeyOf(c.lt, q) == key {
        KeysNeverCollide(c.lt, q, s.segs);
        forall n | PathBelow(c.root, w, q, n) ensures Below(w, e, n) {
        }
      } else {
        assert PathDominates(c.root, w, q, e);
      }
    }
  }

  // ---------- the walk ----------

  lemma {:induction false} ValRefines(c: Ctx, w: Val -> nat, most: nat, fuel: nat, f: seq<string>, u: Val, v: Val)
    requires Walking(c, w, most, fuel, f, u, v)
    ensures ResolveVal(c, fuel, v) == PlainVal(c.lt, c.root, fuel, v)
    decreases fuel, v, 3
  {
    match v
    case Subst(_, _, _, _) => SubstRefines(c, w, most, fuel, f, u, v);
    case Concat(ps) =>
      forall i | 0 <= i < |ps| ensures Walking(c, w, most, fuel, f, u, ps[i]) {
        WalkOn(c, w, most, fuel, f, u, v, ps[i], fuel);
      }
      AllRefine(c, w, most, fuel, f, u, ps);
    case Arr(es) =>
      forall i | 0 <= i < |es| ensures Walking(c, w, most, fuel, f, u, es[i]) {
        WalkOn(c, w, most, fuel, f, u, v, es[i], fuel);
      }
      AllRefine(c, w, most, fuel, f, u, es);
    case Obj(keys, _, _) => FieldsRefine(c, w, most, fuel, f, u, v, keys, EMPTY_OBJ);
    case _ =>
  }

  lemma {:induction false} AllRefine(c: Ctx, w: Val -> nat, most: nat, fuel: nat, f: seq<string>, u: Val, vs: seq<Val>)
    requires forall i | 0 <= i < |vs| :: Walking(c, w, most, fuel, f, u, vs[i])
    ensures ResolveAll(c, fuel, vs) == PlainAll(c.lt, c.root, fuel, vs)
    decreases fuel, vs, 0
  {
    if vs != [] {
      ValRefines(c, w, most, fuel, f, u, vs[0]);
      AllRefine(c, w, most, fuel, f, u, vs[1..]);
    }
  }

  lemma {:induction false} FieldRefines(c: Ctx, w: Val -> nat, most: nat, fuel: nat, f: seq<string>, u: Val, o: Val,
                                        k: string)
    requires o.Obj? && Walking(c, w, most, fuel, f, u, o)
    ensures ResolveField(c, fuel, o, k) == PlainField(c.lt, c.root, fuel, o, k)
    decreases fuel, o, 0
  {
    var c' := c.(field := c.field + [k]);
    if k in o.vals {
      var g, x := WalkInto(c, w, most, fuel, f, u, o, k, o.vals[k]);
      ValRefines(c', w, most, fuel, g, x, o.vals[k]);
    }
    if k in o.priors {
      var g, x := WalkInto(c, w, most, fuel, f, u, o, k, o.priors[k]);
      ValRefines(c', w, most, fuel, g, x, o.priors[k]);
    }
  }

  lemma {:induction false} FieldsRefine(c: Ctx, w: Val -> nat, most: nat, fuel: nat, f: seq<string>, u: Val, o: Val,
                                        keys: seq<string>, acc: Val)
    requires o.Obj? && acc.Obj? && Walking(c, w, most, fuel, f, u, o)
    ensures var r := ResolveFields(c, fuel, o, keys, false, acc);
            PlainFields(c.lt, c.root, fuel, o, keys, acc) ==
            match r { case Built(b, _) => Ok(b) case ObjFail => Fail case ObjDiverge => Diverge }
    decreases fuel, o, 1, |keys|
  {
    if keys != [] {
      FieldRefines(c, w, most, fuel, f, u, o, keys[0]);
      var r := ResolveField(c, fuel, o, keys[0]);
      if r.Ok? {
        FieldsRefine(c, w, most, fuel, f, u, o, keys[1..], Set(acc, keys[0], r.v));
      } else if r.Absent? {
        FieldsRefine(c, w, most, fuel, f, u, o, keys[1..], acc);
      }
    }
  }

  lemma {:induction false} SubstRefines(c: Ctx, w: Val -> nat, most: nat, fuel: nat, f: seq<string>, u: Val, s: Val)
    requires s.Subst? && Walking(c, w, most, fuel, f, u, s)
    ensures ResolveSubst(c, fuel, s) == PlainSubst(c.lt, c.root, fuel, s)
    decreases fuel, s, 2
  {
    var key := KeyOf(c.lt, s.segs);
    PriorIsFound(c, s.segs);
    if s.knownAbsent {
    } else if LooksBelow(c, s) {
      NothingBelowField(c, w, most, fuel, f, u, s);
      PriorIsFound(c, c.field);
    } else if key in c.cache {
      CachedRefines(c, w, most, fuel, s);
    } else if LooksBack(c.root, s) {
      BackRefines(c, w, most, fuel, f, u, s);
    } else {
      if key in c.resolving { InProgressLooksBack(c, w, s); }
      AheadRefines(c, w, most, fuel, f, u, s);
    }
  }

  /** A reference to a top-level key, from outside, is that key's field. */
  lemma {:induction false} ReferenceIsField(lt: LetterTest, root: Val, fuel: nat, s: Val, k: string)
    requires root.Obj? && s.Subst? && !s.knownAbsent && fuel > 0 && s.segs == [k] && k in root.vals &&
             !LooksBack(root, s)
    ensures PlainSubst(lt, root, fuel, s) == PlainField(lt, root, fuel - 1, root, k)
    ensures Lookup(root, s.segs) == Some(root.vals[k]) && PriorAt(root, s.segs) == Get(root.priors, k)
  {
  }

  /** The cached value of a field is what a reference to the field evaluates to. */
  lemma {:induction false} FieldIsReference(lt: LetterTest, root: Val, w: Val -> nat, most: nat, fuel: nat, s: Val,
                                            k: string)
    requires root.Obj? && AllGrounded(root, w, root) && s.Subst? && !s.knownAbsent && Grounded(root, w, s)
    requires s.segs == [k] && k in root.vals && !LooksBack(root, s) && w(s) < fuel <= most
    ensures PlainSubst(lt, root, fuel, s) == PlainField(lt, root, most, root, k)
  {
    ReferenceIsField(lt, root, fuel, s, k);
    FieldStable(lt, root, w, s, k, most);
    FieldStable(lt, root, w, s, k, fuel - 1);
  }

  lemma {:induction false} CachedRefines(c: Ctx, w: Val -> nat, most: nat, fuel: nat, s: Val)
    requires s.Subst? && !s.knownAbsent && Orderly(c.lt, c.root, w) && CacheIsPlain(c, most) && Grounded(c.root, w, s)
    requires SelfFresh(c.lt, c.root, c.cache, s) && w(s) < fuel <= most && KeyOf(c.lt, s.segs) in c.cache
    ensures PlainSubst(c.lt, c.root, fuel, s) == Ok(c.cache[KeyOf(c.lt, s.segs)])
  {
    var key := KeyOf(c.lt, s.segs);
    assert Entry(c, most, key);
    var k :| key == KeyOf(c.lt, [k]) && k in c.root.vals &&
      PlainField(c.lt, c.root, most, c.root, k) == Ok(c.cache[key]);
    KeysNeverCollide(c.lt, s.segs, [k]);
    FieldIsReference(c.lt, c.root, w, most, fuel, s, k);
  }

  lemma {:induction false} FieldStable(lt: LetterTest, root: Val, w: Val -> nat, s: Val, k: string, m: nat)
    requires root.Obj? && AllGrounded(root, w, root) && s.Subst? && Grounded(root, w, s) && w(s) <= m
    requires s.segs == [k] && k in root.vals && !LooksBack(root, s)
    ensures PlainField(lt, root, m, root, k) == PlainField(lt, root, w(s), root, k)
  {
    assert Lookup(root, s.segs) == Some(root.vals[k]) && PriorAt(root, s.segs) == Get(root.priors, k);
    PlainFieldStable(lt, root, w, w(s), m, root, k);
  }

  /** The look-back, once the prior is known to resolve as it evaluates. */
  lemma {:induction false} BackStep(c: Ctx, fuel: nat, s: Val)
    requires s.Subst? && !s.knownAbsent && fuel > 0 && LooksBack(c.root, s)
    requires FindPrior(c, s.segs, KeyOf(c.lt, s.segs)) == PriorAt(c.root, s.segs)
    requires PriorAt(c.root, s.segs).Some? ==>
               ResolveVal(c, fuel - 1, PriorAt(c.root, s.segs).value) ==
                 PlainVal(c.lt, c.root, fuel - 1, PriorAt(c.root, s.segs).value)
    ensures ResolveBack(c, fuel, s) == PlainSubst(c.lt, c.root, fuel, s)
  {
  }

  lemma {:induction false} GoesBack(c: Ctx, fuel: nat, s: Val)
    requires s.Subst? && !s.knownAbsent && fuel > 0 && LooksBack(c.root, s)
    requires !LooksBelow(c, s) && KeyOf(c.lt, s.segs) !in c.cache
    ensures var key := KeyOf(c.lt, s.segs);
            ResolveSubst(c, fuel, s) ==
              ResolveBack(if key in c.resolving then c else c.(resolving := c.resolving + {key}), fuel, s)
  {
  }

  lemma {:induction false} BackRefines(c: Ctx, w: Val -> nat, most: nat, fuel: nat, f: seq<string>, u: Val, s: Val)
    requires s.Subst? && !s.knownAbsent && Walking(c, w, most, fuel, f, u, s)
    requires !LooksBelow(c, s) && KeyOf(c.lt, s.segs) !in c.cache && LooksBack(c.root, s)
    ensures ResolveSubst(c, fuel, s) == PlainSubst(c.lt, c.root, fuel, s)
    decreases fuel, s, 1
  {
    var key := KeyOf(c.lt, s.segs);
    var c' := c.(resolving := c.resolving + {key});
    PriorIsFound(c, s.segs);
    PriorIsFound(c', s.segs);
    var prior := PriorAt(c.root, s.segs);
    if prior.Some? {
      PriorGrounded(c.root, w, s.segs);
      ThroughRefines(c, w, most, fuel, f, u, s, prior.value);
    }
    BackStep(c, fuel, s);
    BackStep(c', fuel, s);
    GoesBack(c, fuel, s);
  }

  lemma {:induction false} AheadRefines(c: Ctx, w: Val -> nat, most: nat, fuel: nat, f: seq<string>, u: Val, s: Val)
    requires s.Subst? && !s.knownAbsent && Walking(c, w, most, fuel, f, u, s)
    requires !LooksBelow(c, s) && KeyOf(c.lt, s.segs) !in c.cache && !LooksBack(c.root, s)
    requires KeyOf(c.lt, s.segs) !in c.resolving
    ensures ResolveSubst(c, fuel, s) == PlainSubst(c.lt, c.root, fuel, s)
    decreases fuel, s, 1
  {
    var c' := c.(resolving := c.resolving + {KeyOf(c.lt, s.segs)});
    var found, prior := Lookup(c.root, s.segs), PriorAt(c.root, s.segs);
    PriorIsFound(c, s.segs);
    if found.Some? {
      LookupGrounded(c.root, w, c.root, s.segs);
      ThroughRefines(c, w, most, fuel, f, u, s, found.value);
      if prior.Some? {
        PriorGrounded(c.root, w, s.segs);
        ThroughRefines(c, w, most, fuel, f, u, s, prior.value);
      }
    }
  }

  lemma {:induction false} ThroughRefines(c: Ctx, w: Val -> nat, most: nat, fuel: nat, f: seq<string>, u: Val, s: Val,
                                          e: Val)
    requires Walking(c, w, most, fuel, f, u, s) && s.Subst? && !s.knownAbsent && fuel > 0
    requires KeyOf(c.lt, s.segs) !in c.cache
    requires Below(w, e, w(s)) && OwnRefsOnly(c.root, e, s.segs) && AllGrounded(c.root, w, e)
    requires Some(e) == Lookup(c.root, s.segs) || Some(e) == PriorAt(c.root, s.segs)
    ensures ResolveVal(c, fuel - 1, e) == PlainVal(c.lt, c.root, fuel - 1, e)
    ensures ResolveVal(c.(resolving := c.resolving + {KeyOf(c.lt, s.segs)}), fuel - 1, e) ==
            PlainVal(c.lt, c.root, fuel - 1, e)
    decreases fuel, s, 0
  {
    WalkThrough(c, w, most, fuel, f, u, s, e);
    ValRefines(c, w, most, fuel - 1, f, u, e);
    ValRefines(c.(resolving := c.resolving + {KeyOf(c.lt, s.segs)}), w, most, fuel - 1, f, u, e);
  }

  // ---------- the root ----------

  /** The fields of the root before i are cached, at their plain values. */
  ghost predicate RootWalk(c: Ctx, w: Val -> nat, most: nat, i: nat) {
    && Orderly(c.lt, c.root, w) && Below(w, c.root, most) && i <= |c.root.keys|
    && c.top == c.root.priors && c.resolving == {} && c.field == [] && CacheIsPlain(c, most)
    && forall j | i <= j < |c.root.keys| :: KeyOf(c.lt, [c.root.keys[j]]) !in c.cache
  }

  lemma {:induction false} RootPartWalks(c: Ctx, w: Val -> nat, most: nat, i: nat, e: Val)
    requires RootWalk(c, w, most, i) && i < |c.root.keys|
    requires var k := c.root.keys[i];
             (k in c.root.vals && e == c.root.vals[k]) || (k in c.root.priors && e == c.root.priors[k])
    ensures Walking(c.(field := [c.root.keys[i]]), w, most, most, [c.root.keys[i]], e, e)
  {
    var k := c.root.keys[i];
    var c' := c.(field := [k]);
    OwnIsFresh(c, most, e, [k]);
    SameCache(c, c', most);
  }

  lemma {:induction false} RootFieldRefines(c: Ctx, w: Val -> nat, most: nat, i: nat)
    requires RootWalk(c, w, most, i) && i < |c.root.keys|
    ensures ResolveField(c, most, c.root, c.root.keys[i]) == PlainField(c.lt, c.root, most, c.root, c.root.keys[i])
  {
    var k := c.root.keys[i];
    var c' := c.(field := [k]);
    assert [] + [k] == [k];
    if k in c.root.vals {
      RootPartWalks(c, w, most, i, c.root.vals[k]);
      ValRefines(c', w, most, most, [k], c.root.vals[k], c.root.vals[k]);
    }
    if k in c.root.priors {
      RootPartWalks(c, w, most, i, c.root.priors[k]);
      ValRefines(c', w, most, most, [k], c.root.priors[k], c.root.priors[k]);
    }
  }

  /** Caching the field just resolved. */
  lemma {:induction false} RootWalksOn(c: Ctx, w: Val -> nat, most: nat, i: nat, v: Val)
    requires RootWalk(c, w, most, i) && i < |c.root.keys|
    requires PlainField(c.lt, c.root, most, c.root, c.root.keys[i]) == Ok(v)
    ensures RootWalk(c.(cache := c.cache[KeyOf(c.lt, [c.root.keys[i]]) := v]), w, most, i + 1)
  {
    var k := c.root.keys[i];
    var own := KeyOf(c.lt, [k]);
    var c' := c.(cache := c.cache[own := v]);
    forall key | key in c'.cache ensures Entry(c', most, key) {
      if key != own {
        assert Entry(c, most, key);
      }
    }
    forall j | i + 1 <= j < |c.root.keys| ensures KeyOf(c.lt, [c.root.keys[j]]) !in c'.cache {
      KeysNeverCollide(c.lt, [c.root.keys[j]], [k]);
    }
  }

  lemma {:induction false} RootRefines(c: Ctx, w: Val -> nat, most: nat, i: nat, acc: Val)
    requires RootWalk(c, w, most, i) && acc.Obj?
    ensures var r := ResolveFields(c, most, c.root, c.root.keys[i..], true, acc);
            PlainFields(c.lt, c.root, most, c.root, c.root.keys[i..], acc) ==
            match r { case Built(b, _) => Ok(b) case ObjFail => Fail case ObjDiverge => Diverge }
    decreases |c.root.keys| - i
  {
    if i < |c.root.keys| {
      var k := c.root.keys[i];
      assert c.root.keys[i..][1..] == c.root.keys[i + 1..];
      RootFieldRefines(c, w, most, i);
      var r := ResolveField(c, most, c.root, k);
      if r.Ok? {
        RootWalksOn(c, w, most, i, r.v);
        RootRefines(c.(cache := c.cache[KeyOf(c.lt, [k]) := r.v]), w, most, i + 1, Set(acc, k, r.v));
      } else if r.Absent? {
        RootRefines(c, w, most, i + 1, acc);
      }
    }
  }

  /** On every orderly tree phase 2 gives the result of plain evaluation: the same
      tree, or an error for both; and neither runs out of budget. */
  lemma {:induction false} ResolvingIsPlainEvaluation(lt: LetterTest, tree: Val, w: Val -> nat, fuel: nat)
    requires Orderly(lt, tree, w) && Below(w, tree, fuel)
    ensures ResolveTree(lt, tree, fuel) == PlainTree(lt, tree, fuel)
    ensures !ResolveTree(lt, tree, fuel).Diverge?
  {
    assert tree.keys[0..] == tree.keys;
    RootRefines(Start(lt, tree), w, fuel, 0, EMPTY_OBJ);
    PlainFieldsStable(lt, tree, w, fuel, fuel, tree, tree.keys, EMPTY_OBJ);
  }
}
