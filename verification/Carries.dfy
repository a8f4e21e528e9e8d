/**
 When merging two built trees is building one document, the fallback's assignments
 first, prior by prior.  The merge has one prior to carry on for a key where the
 document has all of them; the condition under which that is enough is given exactly.
 */
module Carries {
  import opened Paths
  import opened Values
  import opened Fold
  import opened Merge
  import opened MergeLaws
  import opened Assignments
  import opened Layers
  import opened Chains
  import opened Weights
  import opened Fallbacks

  // ---------- sentinels ----------

  /** Every sentinel in v is p itself. */
  predicate SentinelsAre(v: Val, p: Val) {
    match v
    case Scalar(_, _, _) => true
    case Subst(_, _, _, absent) => absent ==> v == p
    case Concat(ps) => forall i | 0 <= i < |ps| :: SentinelsAre(ps[i], p)
    case Arr(es) => forall i | 0 <= i < |es| :: SentinelsAre(es[i], p)
    case Obj(_, vals, _) => forall j | j in vals :: SentinelsAre(vals[j], p)
  }

  /** Every live reference to k in v would be p if it were folded to absent. */
  predicate Blank(v: Val, k: string, p: Val) {
    match v
    case Scalar(_, _, _) => true
    case Subst(_, _, _, _) => Bare(v, k) ==> v.(knownAbsent := true) == p
    case Concat(ps) => forall i | 0 <= i < |ps| :: Blank(ps[i], k, p)
    case Arr(es) => forall i | 0 <= i < |es| :: Blank(es[i], k, p)
    case Obj(_, vals, _) => forall j | j in vals :: Blank(vals[j], k, p)
  }

  lemma {:induction false} RefillStays(v: Val, p: Val)
    ensures Rehydrate(v, p) == v <==> SentinelsAre(v, p)
  {
    match v
    case Scalar(_, _, _) =>
    case Subst(_, _, _, _) =>
    case Concat(ps) =>
      forall i | 0 <= i < |ps| ensures Rehydrate(v, p).parts[i] == ps[i] <==> SentinelsAre(ps[i], p) {
        RefillStays(ps[i], p);
      }
      if SentinelsAre(v, p) { assert Rehydrate(v, p).parts == ps; }
    case Arr(es) =>
      forall i | 0 <= i < |es| ensures Rehydrate(v, p).elems[i] == es[i] <==> SentinelsAre(es[i], p) {
        RefillStays(es[i], p);
      }
      if SentinelsAre(v, p) { assert Rehydrate(v, p).elems == es; }
    case Obj(_, vals, _) =>
      forall j | j in vals ensures Rehydrate(v, p).vals[j] == vals[j] <==> SentinelsAre(vals[j], p) {
        RefillStays(vals[j], p);
      }
      if SentinelsAre(v, p) { assert Rehydrate(v, p).vals == vals; }
  }

  lemma {:induction false} RefillInjective(v: Val, p: Val, q: Val)
    requires ContainsSentinel(v) && Rehydrate(v, p) == Rehydrate(v, q)
    ensures p == q
  {
    match v
    case Subst(_, _, _, _) =>
    case Concat(ps) =>
      var i :| 0 <= i < |ps| && ContainsSentinel(ps[i]);
      assert Rehydrate(v, p).parts[i] == Rehydrate(v, q).parts[i];
      RefillInjective(ps[i], p, q);
    case Arr(es) =>
      var i :| 0 <= i < |es| && ContainsSentinel(es[i]);
      assert Rehydrate(v, p).elems[i] == Rehydrate(v, q).elems[i];
      RefillInjective(es[i], p, q);
    case Obj(_, vals, _) =>
      var j :| j in vals && ContainsSentinel(vals[j]);
      assert Rehydrate(v, p).vals[j] == Rehydrate(v, q).vals[j];
      RefillInjective(vals[j], p, q);
  }

  /** What a value folded to absent has: a sentinel for each live reference. */
  ghost predicate Blanked(lt: LetterTest, v: Val, k: string, stack: bool, p: Val) {
    var f := FoldAbsent(lt, v, KeyOf(lt, [k]), stack);
    && (f.Some? <==> !Demands(v, k))
    && (f.Some? ==> (ContainsSentinel(f.value) <==> !Dead(v, k)) && (SentinelsAre(f.value, p) <==> Blank(v, k, p)))
  }

  lemma {:induction false} BlankedIs(lt: LetterTest, env: Env, v: Val, k: string, stack: bool, p: Val)
    requires Unfolded(env, v, k)
    ensures Blanked(lt, v, k, stack, p)
  {
    var key := KeyOf(lt, [k]);
    match v
    case Scalar(_, _, _) =>
    case Subst(_, segs, _, _) => NoRemainder(lt, segs, k);
    case Concat(ps) =>
      forall i | 0 <= i < |ps| { BlankedIs(lt, env, ps[i], k, stack, p); }
      BlankedParts(lt, v, ps, k, stack, p);
    case Arr(es) =>
      forall i | 0 <= i < |es| { BlankedIs(lt, env, es[i], k, stack, p); }
      BlankedParts(lt, v, es, k, stack, p);
    case Obj(_, vals, _) =>
      forall j | j in vals { BlankedIs(lt, env, vals[j], k, false, p); }
      BlankedObject(lt, v, k, stack, p);
  }

  lemma {:induction false} BlankedParts(lt: LetterTest, v: Val, vs: seq<Val>, k: string, stack: bool, p: Val)
    requires (v == Concat(vs) || v == Arr(vs)) && forall i | 0 <= i < |vs| :: Blanked(lt, vs[i], k, stack, p)
    ensures Blanked(lt, v, k, stack, p)
  {
    var key := KeyOf(lt, [k]);
    AbsentParts(lt, v, vs, key, stack);
    var f := FoldAbsent(lt, v, key, stack);
    if f.Some? {
      var us := if v.Concat? then f.value.parts else f.value.elems;
      forall i | 0 <= i < |vs|
        ensures (ContainsSentinel(us[i]) <==> !Dead(vs[i], k)) && (SentinelsAre(us[i], p) <==> Blank(vs[i], k, p)) {
        assert Blanked(lt, vs[i], k, stack, p);
      }
    }
  }

  lemma {:induction false} BlankedObject(lt: LetterTest, v: Val, k: string, stack: bool, p: Val)
    requires v.Obj? && forall j | j in v.vals :: Blanked(lt, v.vals[j], k, false, p)
    ensures Blanked(lt, v, k, stack, p)
  {
    var key := KeyOf(lt, [k]);
    AbsentObject(lt, v, key, stack);
    var f := FoldAbsent(lt, v, key, stack);
    if f.Some? {
      forall j | j in v.vals
        ensures (ContainsSentinel(f.value.vals[j]) <==> !Dead(v.vals[j], k)) &&
                (SentinelsAre(f.value.vals[j], p) <==> Blank(v.vals[j], k, p)) {
        assert Blanked(lt, v.vals[j], k, false, p);
      }
    }
  }

  /** u has q's sentinels at the live references of v. */
  ghost predicate Fills(u: Val, v: Val, k: string, q: Val, p: Val) {
    && (ContainsSentinel(u) <==> !Dead(v, k) && ContainsSentinel(q))
    && (SentinelsAre(u, p) <==> Dead(v, k) || SentinelsAre(q, p))
  }

  /** What a value folded against q has. */
  ghost predicate FilledIn(lt: LetterTest, v: Val, k: string, stack: bool, q: Val, p: Val) {
    var f := FoldSelfRef(lt, v, KeyOf(lt, [k]), Some(q), stack);
    (f.hit <==> !Dead(v, k)) && Fills(f.v, v, k, q, p)
  }

  lemma {:induction false} FilledInIs(lt: LetterTest, env: Env, v: Val, k: string, stack: bool, q: Val, p: Val)
    requires Unfolded(env, v, k)
    ensures FilledIn(lt, v, k, stack, q, p)
  {
    match v
    case Scalar(_, _, _) =>
    case Subst(_, segs, _, _) => NoRemainder(lt, segs, k);
    case Concat(ps) =>
      forall i | 0 <= i < |ps| { FilledInIs(lt, env, ps[i], k, stack, q, p); }
      FilledInParts(lt, v, ps, k, stack, q, p);
    case Arr(es) =>
      forall i | 0 <= i < |es| { FilledInIs(lt, env, es[i], k, stack, q, p); }
      FilledInParts(lt, v, es, k, stack, q, p);
    case Obj(_, vals, _) =>
      forall j | j in vals { FilledInIs(lt, env, vals[j], k, false, q, p); }
      FilledInObject(lt, v, k, stack, q, p);
  }

  lemma {:induction false} FillsConcat(us: seq<Val>, vs: seq<Val>, k: string, q: Val, p: Val)
    requires |us| == |vs| && forall i | 0 <= i < |vs| :: Fills(us[i], vs[i], k, q, p)
    ensures Fills(Concat(us), Concat(vs), k, q, p)
  {
    if !Dead(Concat(vs), k) {
      var i :| 0 <= i < |vs| && !Dead(vs[i], k);
      assert Fills(us[i], vs[i], k, q, p);
    }
  }

  lemma {:induction false} FillsArray(us: seq<Val>, vs: seq<Val>, k: string, q: Val, p: Val)
    requires |us| == |vs| && forall i | 0 <= i < |vs| :: Fills(us[i], vs[i], k, q, p)
    ensures Fills(Arr(us), Arr(vs), k, q, p)
  {
    if !Dead(Arr(vs), k) {
      var i :| 0 <= i < |vs| && !Dead(vs[i], k);
      assert Fills(us[i], vs[i], k, q, p);
    }
  }

  lemma {:induction false} FillsObject(u: Val, v: Val, k: string, q: Val, p: Val)
    requires u.Obj? && v.Obj? && u.vals.Keys == v.vals.Keys && forall j | j in v.vals ::
             Fills(u.vals[j], v.vals[j], k, q, p)
    ensures Fills(u, v, k, q, p)
  {
    if !Dead(v, k) {
      var j :| j in v.vals && !Dead(v.vals[j], k);
      assert Fills(u.vals[j], v.vals[j], k, q, p);
    }
  }

  lemma {:induction false} FilledHit(lt: LetterTest, v: Val, vs: seq<Val>, k: string, stack: bool, q: Val, p: Val)
    requires (v == Concat(vs) || v == Arr(vs)) && forall i | 0 <= i < |vs| :: FilledIn(lt, vs[i], k, stack, q, p)
    ensures FoldSelfRef(lt, v, KeyOf(lt, [k]), Some(q), stack).hit <==> !Dead(v, k)
  {
  }

  lemma {:induction false} FilledInParts(lt: LetterTest, v: Val, vs: seq<Val>, k: string, stack: bool, q: Val, p: Val)
    requires (v == Concat(vs) || v == Arr(vs)) && forall i | 0 <= i < |vs| :: FilledIn(lt, vs[i], k, stack, q, p)
    ensures FilledIn(lt, v, k, stack, q, p)
  {
    var us := seq(|vs|, i requires 0 <= i < |vs| => FoldSelfRef(lt, vs[i], KeyOf(lt, [k]), Some(q), stack).v);
    FoldedParts(lt, v, vs, KeyOf(lt, [k]), q, stack);
    FilledHit(lt, v, vs, k, stack, q, p);
    forall i | 0 <= i < |vs| ensures Fills(us[i], vs[i], k, q, p) { assert FilledIn(lt, vs[i], k, stack, q, p); }
    if v.Concat? { FillsConcat(us, vs, k, q, p); } else { FillsArray(us, vs, k, q, p); }
  }

  lemma {:induction false} FilledInObject(lt: LetterTest, v: Val, k: string, stack: bool, q: Val, p: Val)
    requires v.Obj? && forall j | j in v.vals :: FilledIn(lt, v.vals[j], k, false, q, p)
    ensures FilledIn(lt, v, k, stack, q, p)
  {
    var f := FoldSelfRef(lt, v, KeyOf(lt, [k]), Some(q), stack).v;
    FoldedObj(lt, v, KeyOf(lt, [k]), q, stack);
    forall j | j in v.vals ensures Fills(f.vals[j], v.vals[j], k, q, p) {
      assert FilledIn(lt, v.vals[j], k, false, q, p);
    }
    FillsObject(f, v, k, q, p);
  }

  // ---------- one save ----------

  /** A save, by the look of the value. */
  lemma {:induction false} SaveIs(lt: LetterTest, env: Env, k: string, prior: Option<Val>, e: Val)
    requires Unfolded(env, e, k)
    ensures SaveOne(lt, k, prior, e) ==
            if Dead(e, k) then Some(e)
            else if prior.Some? then Some(FoldSelfRef(lt, e, KeyOf(lt, [k]), prior, true).v)
            else FoldAbsent(lt, e, KeyOf(lt, [k]), true)
    ensures FoldAbsent(lt, e, KeyOf(lt, [k]), true).Some? <==> !Demands(e, k)
  {
    SkipsNavigation(lt, env, e, k, prior);
    HitIgnoresReplacement(lt, e, KeyOf(lt, [k]), prior, true);
    FilledInIs(lt, env, e, k, true, e, e);
    HitIgnoresReplacement(lt, e, KeyOf(lt, [k]), Some(e), true);
    BlankedIs(lt, env, e, k, true, e);
  }

  // ---------- what the merge captures ----------

  /** What is captured of a value over its prior. */
  function Capture(lt: LetterTest, k: string, v: Val, prior: Option<Val>): Option<Val> {
    var folded := FoldOrSkip(lt, v, KeyOf(lt, [k]), None);
    if folded.Some? then folded else prior
  }

  /** What the receiver's merge captures of the fallback at a key it assigns too. */
  function Captured(lt: LetterTest, k: string, a: seq<Val>): Option<Val>
    requires a != []
  {
    Capture(lt, k, Stored(lt, k, a), PriorOf(lt, k, a))
  }

  /** The fallback's value alone stands for all that the fallback assigned: it has no
      prior, does not look back at it, or is nothing but the reference to it.  (An
      optional one, folded to absent, might also happen to be its prior.) */
  predicate CapturesAll(v: Val, k: string, prior: Option<Val>) {
    prior.None? || Dead(v, k) || (if Demands(v, k) then Bare(v, k) else Blank(v, k, prior.value))
  }

  lemma {:induction false} CaptureIs(lt: LetterTest, env: Env, k: string, v: Val, prior: Option<Val>)
    requires Unfolded(env, v, k)
    ensures Capture(lt, k, v, prior) ==
            if Dead(v, k) then Some(v) else if Demands(v, k) then prior else FoldAbsent(lt, v, KeyOf(lt, [k]), true)
    ensures FoldAbsent(lt, v, KeyOf(lt, [k]), true).Some? <==> !Demands(v, k)
  {
    SkipsNavigation(lt, env, v, k, None);
    FilledInIs(lt, env, v, k, true, v, v);
    HitIgnoresReplacement(lt, v, KeyOf(lt, [k]), Some(v), true);
    BlankedIs(lt, env, v, k, true, v);
  }

  lemma {:induction false} CapturedIs(lt: LetterTest, env: Env, k: string, v: Val, prior: Option<Val>)
    requires Unfolded(env, v, k)
    ensures var c, x := Capture(lt, k, v, prior), SaveOne(lt, k, prior, v);
            && (c == x <==> CapturesAll(v, k, prior)) && (c.None? <==> x.None?)
            && (c.Some? ==> Weight(c.value) <= Weight(x.value))
            && (x.None? <==> prior.None? && Demands(v, k))
  {
    CaptureIs(lt, env, k, v, prior);
    SaveIs(lt, env, k, prior, v);
    if Dead(v, k) {
      DeadDemandsNothing(v, k);
    } else if prior.Some? {
      FoldWeighs(lt, env, v, k, prior.value, true);
      FoldIsPrior(lt, env, v, k, prior.value);
      if !Demands(v, k) { OptionalCaptured(lt, env, k, v, prior.value); }
    }
  }

  lemma {:induction false} OptionalCaptured(lt: LetterTest, env: Env, k: string, v: Val, p: Val)
    requires Unfolded(env, v, k) && !Demands(v, k)
    ensures var f := FoldAbsent(lt, v, KeyOf(lt, [k]), true);
            f.Some? && Weight(f.value) <= Weight(v) &&
              (f.value == FoldSelfRef(lt, v, KeyOf(lt, [k]), Some(p), true).v <==> Blank(v, k, p))
  {
    var key := KeyOf(lt, [k]);
    OptionalIsExact(lt, env, v, k, true);
    RefillIsFold(lt, v, key, p, true);
    BlankedIs(lt, env, v, k, true, p);
    RefillStays(FoldAbsent(lt, v, key, true).value, p);
    AbsentWeighs(lt, v, key, true);
  }

  // ---------- what the receiver makes of it ----------

  /** The merge at a key: the receiver's prior, its sentinels filled with what was
      captured, if that has none itself. */
  function Carried(p: Option<Val>, c: Option<Val>): Option<Val> {
    if p.None? then c
    else if ContainsSentinel(p.value) && c.Some? && !ContainsSentinel(c.value) then Some(Rehydrate(p.value, c.value))
    else p
  }

  predicate AllLive(k: string, es: seq<Val>) {
    forall i | 0 <= i < |es| :: !Dead(es[i], k)
  }

  /** The receiver's overwritten values, all of which look back, take up c as they
      would take up x: those that demand a value are bare references, and the first
      one that does not finds all in c. */
  predicate TakesUp(k: string, all: bool, c: Val, x: Val, es: seq<Val>) {
    if es == [] then all
    else if Demands(es[0], k) then Bare(es[0], k) && TakesUp(k, all, c, x, es[1..])
    else if ContainsSentinel(c) then Blank(es[0], k, x)
    else all
  }

  lemma {:induction false} SavesFirst(lt: LetterTest, k: string, prior: Option<Val>, es: seq<Val>)
    requires es != []
    ensures Saves(lt, k, prior, es) == Saves(lt, k, SaveOne(lt, k, prior, es[0]), es[1..])
  {
    assert [es[0]] + es[1..] == es;
    SavesConcat(lt, k, prior, [es[0]], es[1..]);
    assert [es[0]][..0] == [];
    assert Saves(lt, k, prior, [es[0]]) == SaveOne(lt, k, Saves(lt, k, prior, []), es[0]);
  }

  /** Behind a value that does not look back, nothing before it matters. */
  lemma {:induction false} DeadResets(lt: LetterTest, env: Env, k: string, p: Option<Val>, q: Option<Val>, es: seq<Val>)
    requires AllUnfolded(env, k, es) && !AllLive(k, es)
    ensures Saves(lt, k, p, es) == Saves(lt, k, q, es)
    ensures Saves(lt, k, p, es).Some? && !ContainsSentinel(Saves(lt, k, p, es).value)
    decreases |es|
  {
    var init, e := es[..|es| - 1], es[|es| - 1];
    assert AllUnfolded(env, k, init) && Unfolded(env, e, k);
    SaveIs(lt, env, k, Saves(lt, k, p, init), e);
    SaveIs(lt, env, k, Saves(lt, k, q, init), e);
    if !Dead(e, k) {
      var i :| 0 <= i < |es| && Dead(es[i], k);
      assert init[i] == es[i];
      DeadResets(lt, env, k, p, q, init);
      FilledInIs(lt, env, e, k, true, Saves(lt, k, p, init).value, e);
    }
  }

  /** Live values over a prior: a value at least as heavy, and heavier but for bare
      references; sentinels are those of the prior. */
  lemma {:induction false} LiveSaves(lt: LetterTest, env: Env, k: string, p: Val, es: seq<Val>, x: Val)
    requires AllUnfolded(env, k, es) && AllLive(k, es)
    ensures var s := Saves(lt, k, Some(p), es);
            s.Some? && Weight(p) <= Weight(s.value) && (ContainsSentinel(s.value) <==> ContainsSentinel(p)) &&
              (SentinelsAre(s.value, x) <==> SentinelsAre(p, x))
    decreases |es|
  {
    if es != [] {
      var init, e := es[..|es| - 1], es[|es| - 1];
      assert AllUnfolded(env, k, init) && Unfolded(env, e, k) && AllLive(k, init);
      LiveSaves(lt, env, k, p, init, x);
      var s := Saves(lt, k, Some(p), init).value;
      SaveIs(lt, env, k, Some(s), e);
      FoldWeighs(lt, env, e, k, s, true);
      FilledInIs(lt, env, e, k, true, s, x);
    }
  }

  /** The first value demands something: the receiver by itself saves nothing. */
  lemma {:induction false} DemandingFirst(lt: LetterTest, env: Env, k: string, x: Val, es: seq<Val>)
    requires AllUnfolded(env, k, es) && es != [] && Demands(es[0], k)
    ensures Saves(lt, k, None, es) == Saves(lt, k, None, es[1..])
    ensures var f := FoldSelfRef(lt, es[0], KeyOf(lt, [k]), Some(x), true).v;
            && Saves(lt, k, Some(x), es) == Saves(lt, k, Some(f), es[1..])
            && Weight(x) <= Weight(f) && (f == x <==> Bare(es[0], k)) && (!Bare(es[0], k) ==> Weight(x) < Weight(f))
    ensures AllUnfolded(env, k, es[1..])
  {
    var e := es[0];
    assert Unfolded(env, e, k);
    if Dead(e, k) { DeadDemandsNothing(e, k); }
    SavesFirst(lt, k, None, es);
    SavesFirst(lt, k, Some(x), es);
    SaveIs(lt, env, k, None, e);
    SaveIs(lt, env, k, Some(x), e);
    FoldWeighs(lt, env, e, k, x, true);
    FoldIsPrior(lt, env, e, k, x);
  }

  /** From a heavier value on, nothing comes out as it would from c. */
  lemma {:induction false} TooHeavy(lt: LetterTest, env: Env, k: string, c: Val, x: Val, es: seq<Val>)
    requires AllUnfolded(env, k, es) && AllLive(k, es) && Weight(c) < Weight(x)
    ensures Carried(Saves(lt, k, None, es), Some(c)) != Saves(lt, k, Some(x), es)
    decreases |es|
  {
    if es != [] {
      if Demands(es[0], k) {
        DemandingFirst(lt, env, k, x, es);
        TooHeavy(lt, env, k, c, FoldSelfRef(lt, es[0], KeyOf(lt, [k]), Some(x), true).v, es[1..]);
      } else {
        OptionalFirst(lt, env, k, c, x, es);
        if ContainsSentinel(c) && Blank(es[0], k, x) { HeavyIsNotBlank(es[0], k, x); }
      }
    }
  }

  /** A sentinel is as light as can be. */
  lemma {:induction false} HeavyIsNotBlank(e: Val, k: string, x: Val)
    requires !Dead(e, k) && Blank(e, k, x)
    ensures Weight(x) == 1
  {
    match e
    case Subst(_, _, _, _) =>
    case Concat(ps) => var i :| 0 <= i < |ps| && !Dead(ps[i], k); HeavyIsNotBlank(ps[i], k, x);
    case Arr(es) => var i :| 0 <= i < |es| && !Dead(es[i], k); HeavyIsNotBlank(es[i], k, x);
    case Obj(_, vals, _) => var j :| j in vals && !Dead(vals[j], k); HeavyIsNotBlank(vals[j], k, x);
  }

  /** The first value looks back without demanding: the receiver's prior has a
      sentinel for what the document has at the bottom. */
  lemma {:induction false} OptionalFirst(lt: LetterTest, env: Env, k: string, c: Val, x: Val, es: seq<Val>)
    requires AllUnfolded(env, k, es) && AllLive(k, es) && es != [] && !Demands(es[0], k)
    ensures Carried(Saves(lt, k, None, es), Some(c)) == Saves(lt, k, Some(x), es) <==>
            if ContainsSentinel(c) then Blank(es[0], k, x) else c == x
  {
    var e, rest := es[0], es[1..];
    assert Unfolded(env, e, k) && AllUnfolded(env, k, rest) && AllLive(k, rest);
    SavesRefilled(lt, env, k, es, x);
    SavesRefilled(lt, env, k, es, c);
    SavesFirst(lt, k, None, es);
    SaveIs(lt, env, k, None, e);
    BlankedIs(lt, env, e, k, true, x);
    LiveSaves(lt, env, k, FoldAbsent(lt, e, KeyOf(lt, [k]), true).value, rest, x);
    var p := Saves(lt, k, None, es).value;
    if ContainsSentinel(c) {
      RefillStays(p, x);
    } else if Rehydrate(p, c) == Rehydrate(p, x) {
      RefillInjective(p, c, x);
    }
  }

  /** Values that all look back: the merge carries on what the document does exactly
      when they take up c like x. */
  lemma {:induction false} TakenUpExactly(lt: LetterTest, env: Env, k: string, c: Val, x: Val, es: seq<Val>)
    requires AllUnfolded(env, k, es) && AllLive(k, es) && Weight(c) <= Weight(x)
    ensures Carried(Saves(lt, k, None, es), Some(c)) == Saves(lt, k, Some(x), es) <==> TakesUp(k, c == x, c, x, es)
    decreases |es|
  {
    if es != [] {
      if Demands(es[0], k) {
        DemandingFirst(lt, env, k, x, es);
        if Bare(es[0], k) {
          TakenUpExactly(lt, env, k, c, x, es[1..]);
        } else {
          TooHeavy(lt, env, k, c, FoldSelfRef(lt, es[0], KeyOf(lt, [k]), Some(x), true).v, es[1..]);
        }
      } else {
        OptionalFirst(lt, env, k, c, x, es);
      }
    }
  }

  // ---------- one key ----------

  /** What the document has at the bottom of the receiver's saves. */
  function Bottom(lt: LetterTest, k: string, a: seq<Val>): Option<Val>
    requires a != []
  {
    SaveOne(lt, k, PriorOf(lt, k, a), Stored(lt, k, a))
  }

  /** The prior of a key survives the merge: one side does not assign the key, an
      overwritten value of the receiver does not look back at all, the fallback leaves
      nothing to look back at, or its value alone stands for all of it and the
      receiver's overwritten values take that up. */
  predicate CarriesPlain(lt: LetterTest, k: string, a: seq<Val>, b: seq<Val>) {
    a == [] || b == [] ||
    var v, prior, es := Stored(lt, k, a), PriorOf(lt, k, a), StoredAll(lt, k, b[..|b| - 1]);
    || !AllLive(k, es) || (prior.None? && Demands(v, k))
    || (Captured(lt, k, a).Some? && Bottom(lt, k, a).Some?
        && TakesUp(k, CapturesAll(v, k, prior), Captured(lt, k, a).value, Bottom(lt, k, a).value, es))
  }

  /** At a key that is printed with quotes, the merge looks for references that print
      like the bare key.  It finds none, and captures the value as it is. */
  predicate CarriesQuoted(lt: LetterTest, k: string, a: seq<Val>, b: seq<Val>) {
    a == [] || b == [] ||
    var v, es := Stored(lt, k, a), StoredAll(lt, k, b[..|b| - 1]);
    !AllLive(k, es) || (Bottom(lt, k, a).Some? && TakesUp(k, Dead(v, k), v, Bottom(lt, k, a).value, es))
  }

  predicate Carries(lt: LetterTest, k: string, a: seq<Val>, b: seq<Val>) {
    if KeyOf(lt, [k]) == k then CarriesPlain(lt, k, a, b) else CarriesQuoted(lt, k, a, b)
  }

  /** No literals of both sides meet at the key. */
  predicate Separate(a: seq<Val>, b: seq<Val>) {
    a == [] || b == [] || (Apart(a, b) && !(a[|a| - 1].Obj? && b[|b| - 1].Obj?))
  }

  /** The key is printed as it is, or nothing in the fallback's value prints like it. */
  predicate Spelled(lt: LetterTest, k: string, a: seq<Val>) {
    a == [] || KeyOf(lt, [k]) == k || !FoldSelfRef(lt, Stored(lt, k, a), k, None, true).hit
  }

  lemma {:induction false} StoredAllUnfolded(lt: LetterTest, env: Env, k: string, vs: seq<Val>)
    requires Buildable(lt, env, k, vs)
    ensures AllUnfolded(env, k, StoredAll(lt, k, vs))
  {
    if vs != [] { StoredAllUnfolded(lt, env, k, vs[..|vs| - 1]); }
  }

  /** The prior of the merge is the one of the joined assignments exactly then. */
  lemma {:induction false} CarriedExactly(lt: LetterTest, env: Env, k: string, a: seq<Val>, b: seq<Val>)
    requires Buildable(lt, env, k, a) && Buildable(lt, env, k, b) && a != [] && b != [] && Separate(a, b)
    ensures Carried(PriorOf(lt, k, b), Captured(lt, k, a)) == PriorOf(lt, k, a + b) <==> CarriesPlain(lt, k, a, b)
  {
    var v, prior, es := Stored(lt, k, a), PriorOf(lt, k, a), StoredAll(lt, k, b[..|b| - 1]);
    PriorConcat(lt, k, a, b);
    StoredAllUnfolded(lt, env, k, b[..|b| - 1]);
    CapturedIs(lt, env, k, v, prior);
    var c, x := Captured(lt, k, a), SaveOne(lt, k, prior, v);
    if !AllLive(k, es) {
      DeadResets(lt, env, k, None, x, es);
    } else if x.Some? {
      TakenUpExactly(lt, env, k, c.value, x.value, es);
    }
  }

  /** A value is saved as it is only if it does not look back. */
  lemma {:induction false} SavedUnchanged(lt: LetterTest, env: Env, k: string, v: Val, prior: Option<Val>)
    requires Unfolded(env, v, k) && (prior.Some? ==> !Mentions(lt, prior.value, KeyOf(lt, [k])))
    ensures SaveOne(lt, k, prior, v) == Some(v) <==> Dead(v, k)
    ensures SaveOne(lt, k, prior, v).Some? ==> Weight(v) <= Weight(SaveOne(lt, k, prior, v).value)
  {
    var key := KeyOf(lt, [k]);
    SaveIs(lt, env, k, prior, v);
    if !Dead(v, k) {
      MentionsLive(lt, env, v, k);
      if prior.Some? {
        FoldWeighs(lt, env, v, k, prior.value, true);
        FoldedIsFree(lt, v, key, prior, true);
        FilledInIs(lt, env, v, k, true, prior.value, v);
      } else if !Demands(v, k) {
        BlankedIs(lt, env, v, k, true, v);
        AbsentWeighs(lt, v, key, true);
      }
    }
  }

  lemma {:induction false} MentionsLive(lt: LetterTest, env: Env, v: Val, k: string)
    requires Unfolded(env, v, k) && !Dead(v, k)
    ensures Mentions(lt, v, KeyOf(lt, [k]))
  {
    match v
    case Subst(_, _, _, _) =>
    case Concat(ps) => var i :| 0 <= i < |ps| && !Dead(ps[i], k); MentionsLive(lt, env, ps[i], k);
    case Arr(es) => var i :| 0 <= i < |es| && !Dead(es[i], k); MentionsLive(lt, env, es[i], k);
    case Obj(_, vals, _) => var j :| j in vals && !Dead(vals[j], k); MentionsLive(lt, env, vals[j], k);
  }

  lemma {:induction false} SentinelWhenLive(lt: LetterTest, env: Env, k: string, es: seq<Val>, x: Val)
    requires AllUnfolded(env, k, es) && AllLive(k, es)
    ensures var p := Saves(lt, k, None, es); p.Some? ==> ContainsSentinel(p.value)
    decreases |es|
  {
    if es != [] {
      var e, rest := es[0], es[1..];
      assert Unfolded(env, e, k) && AllUnfolded(env, k, rest) && AllLive(k, rest);
      SavesFirst(lt, k, None, es);
      SaveIs(lt, env, k, None, e);
      BlankedIs(lt, env, e, k, true, x);
      if Demands(e, k) {
        SentinelWhenLive(lt, env, k, rest, x);
      } else {
        LiveSaves(lt, env, k, FoldAbsent(lt, e, KeyOf(lt, [k]), true).value, rest, x);
      }
    }
  }

  /** The same for a value that is captured as it is. */
  lemma {:induction false} QuotedExactly(lt: LetterTest, env: Env, k: string, a: seq<Val>, b: seq<Val>)
    requires Buildable(lt, env, k, a) && Buildable(lt, env, k, b) && a != [] && b != [] && Separate(a, b)
    requires PriorOf(lt, k, a).Some? ==> !Mentions(lt, PriorOf(lt, k, a).value, KeyOf(lt, [k]))
    ensures Carried(PriorOf(lt, k, b), Some(Stored(lt, k, a))) == PriorOf(lt, k, a + b) <==> CarriesQuoted(lt, k, a, b)
  {
    var v, x, es := Stored(lt, k, a), Bottom(lt, k, a), StoredAll(lt, k, b[..|b| - 1]);
    PriorConcat(lt, k, a, b);
    StoredAllUnfolded(lt, env, k, b[..|b| - 1]);
    SavedUnchanged(lt, env, k, v, PriorOf(lt, k, a));
    if !AllLive(k, es) {
      DeadResets(lt, env, k, None, x, es);
    } else if x.Some? {
      TakenUpExactly(lt, env, k, v, x.value, es);
    } else {
      SentinelWhenLive(lt, env, k, es, v);
      NothingCaptured(lt, env, k, v, es);
    }
  }

  lemma {:induction false} NothingCaptured(lt: LetterTest, env: Env, k: string, v: Val, es: seq<Val>)
    requires AllUnfolded(env, k, es) && AllLive(k, es) && !ContainsSentinel(v)
    ensures Carried(Saves(lt, k, None, es), Some(v)) != Saves(lt, k, None, es)
  {
    SentinelWhenLive(lt, env, k, es, v);
    var p := Saves(lt, k, None, es);
    if p.Some? { RefillLeavesNoSentinel(p.value, v); }
  }

  /** What is captured at a key of both. */
  lemma {:induction false} CapturedAtKey(lt: LetterTest, r: Val, f: Val, k: string, a: seq<Val>)
    requires r.Obj? && f.Obj? && BuiltAt(lt, f, k, a) && a != [] && k in r.vals && !BothObjects(r, f, k) &&
             Spelled(lt, k, a)
    ensures CapturedPrior(lt, r, f, k) == if KeyOf(lt, [k]) == k then Captured(lt, k, a) else Some(Stored(lt, k, a))
  {
    if KeyOf(lt, [k]) != k { SavedUnhit(lt, Stored(lt, k, a), k); }
  }

  lemma {:induction false} SavedUnhit(lt: LetterTest, v: Val, key: string)
    requires !FoldSelfRef(lt, v, key, None, true).hit
    ensures FoldOrSkip(lt, v, key, None) == Some(v)
  {
  }

  /** The value and the prior of the merge at a key of both. */
  lemma {:induction false} MergedAtKey(lt: LetterTest, r: Val, f: Val, k: string, a: seq<Val>, b: seq<Val>)
    requires r.Obj? && f.Obj? && BuiltAt(lt, f, k, a) && BuiltAt(lt, r, k, b) && a != [] && b != [] && Separate(a, b) &&
             Spelled(lt, k, a)
    ensures var m := MergeUnresolved(lt, r, f);
            var c := if KeyOf(lt, [k]) == k then Captured(lt, k, a) else Some(Stored(lt, k, a));
            Get(m.vals, k) == Some(Stored(lt, k, a + b)) && Get(m.priors, k) == Carried(PriorOf(lt, k, b), c)
  {
    StoredObject(lt, k, a);
    StoredObject(lt, k, b);
    assert !BothObjects(r, f, k);
    UnresolvedValue(lt, r, f, k);
    UnresolvedPriorOf(lt, r, f, k);
    CapturedAtKey(lt, r, f, k, a);
    StoredConcat(lt, k, a, b);
  }

  /** At one key the merged tree is that of the joined document exactly then. */
  lemma {:induction false} MergedExactly(lt: LetterTest, env: Env, r: Val, f: Val, k: string, a: seq<Val>, b: seq<Val>)
    requires r.Obj? && f.Obj? && BuiltAt(lt, f, k, a) && BuiltAt(lt, r, k, b)
    requires Buildable(lt, env, k, a) && Buildable(lt, env, k, b) && Separate(a, b) && Spelled(lt, k, a)
    requires k in f.priors ==> !Mentions(lt, f.priors[k], KeyOf(lt, [k]))
    ensures BuiltAt(lt, MergeUnresolved(lt, r, f), k, a + b) <==> Carries(lt, k, a, b)
  {
    if a == [] || b == [] {
      UnresolvedValue(lt, r, f, k);
      UnresolvedPriorOf(lt, r, f, k);
      assert a == [] ==> a + b == b;
      assert b == [] ==> a + b == a;
    } else {
      MergedAtKey(lt, r, f, k, a, b);
      if KeyOf(lt, [k]) == k { CarriedExactly(lt, env, k, a, b); } else { QuotedExactly(lt, env, k, a, b); }
    }
  }

  // ---------- whole trees ----------

  ghost predicate Mergeable(lt: LetterTest, env: Env, receiver: seq<Field>, fallback: seq<Field>, k: string) {
    var a, b := AssignedTo(fallback, k), AssignedTo(receiver, k);
    Buildable(lt, env, k, a) && Buildable(lt, env, k, b) && Separate(a, b) && Spelled(lt, k, a)
  }

  ghost predicate BuiltFrom(lt: LetterTest, o: Val, fields: seq<Field>)
    requires o.Obj?
  {
    forall k :: BuiltAt(lt, o, k, AssignedTo(fields, k))
  }

  lemma {:induction false} SameBuilt(lt: LetterTest, o: Val, p: Val, fields: seq<Field>)
    requires o.Obj? && p.Obj? && o.keys == p.keys && BuiltFrom(lt, p, fields)
    ensures o == p <==> BuiltFrom(lt, o, fields)
  {
    if BuiltFrom(lt, o, fields) {
      forall k ensures Get(o.vals, k) == Get(p.vals, k) && Get(o.priors, k) == Get(p.priors, k) {
        assert BuiltAt(lt, o, k, AssignedTo(fields, k)) && BuiltAt(lt, p, k, AssignedTo(fields, k));
      }
      SameMaps(o.vals, p.vals);
      SameMaps(o.priors, p.priors);
    }
  }

  lemma {:induction false} MergedRootKeys(lt: LetterTest, receiver: seq<Field>, fallback: seq<Field>)
    ensures MergeUnresolved(lt, AssignAll(lt, receiver).obj, AssignAll(lt, fallback).obj).keys ==
            KeysOf(fallback + receiver)
  {
    RootKeys(lt, receiver);
    RootKeys(lt, fallback);
    NewKeysIsMinus(AssignAll(lt, fallback).obj, AssignAll(lt, receiver).obj.keys);
    KeysConcat(fallback, receiver);
  }

  lemma {:induction false} MergedKeyExactly(lt: LetterTest, env: Env, receiver: seq<Field>, fallback: seq<Field>,
                                            k: string)
    requires Mergeable(lt, env, receiver, fallback, k)
    ensures BuiltAt(lt, MergeUnresolved(lt, AssignAll(lt, receiver).obj, AssignAll(lt, fallback).obj), k,
                    AssignedTo(fallback + receiver, k)) <==>
            Carries(lt, k, AssignedTo(fallback, k), AssignedTo(receiver, k))
  {
    TreeIsBuilt(lt, receiver, k);
    TreeIsBuilt(lt, fallback, k);
    AssignedConcat(fallback, receiver, k);
    PriorNeverMentionsItsKey(lt, fallback, k);
    MergedExactly(lt, env, AssignAll(lt, receiver).obj, AssignAll(lt, fallback).obj, k, AssignedTo(fallback, k),
                  AssignedTo(receiver, k));
  }

  ghost predicate AllCarry(lt: LetterTest, receiver: seq<Field>, fallback: seq<Field>) {
    forall k :: Carries(lt, k, AssignedTo(fallback, k), AssignedTo(receiver, k))
  }

  lemma {:induction false} MergedBuiltExactly(lt: LetterTest, env: Env, receiver: seq<Field>, fallback: seq<Field>)
    requires forall k :: Mergeable(lt, env, receiver, fallback, k)
    ensures BuiltFrom(lt, MergeUnresolved(lt, AssignAll(lt, receiver).obj, AssignAll(lt, fallback).obj),
                      fallback + receiver) <==>
            AllCarry(lt, receiver, fallback)
  {
    var m := MergeUnresolved(lt, AssignAll(lt, receiver).obj, AssignAll(lt, fallback).obj);
    forall k ensures BuiltAt(lt, m, k, AssignedTo(fallback + receiver, k)) <==>
      Carries(lt, k, AssignedTo(fallback, k), AssignedTo(receiver, k)) {
      assert Mergeable(lt, env, receiver, fallback, k);
      MergedKeyExactly(lt, env, receiver, fallback, k);
    }
  }

  /** Merging the tree built from one document over the tree built from another is
      building the one that has the fallback's assignments first, exactly when every
      prior is carried: values, priors and the order of keys. */
  lemma {:induction false} FallbackIsEarlierDocument(lt: LetterTest, env: Env, receiver: seq<Field>,
                                                     fallback: seq<Field>)
    requires forall k :: Mergeable(lt, env, receiver, fallback, k)
    ensures MergeUnresolved(lt, AssignAll(lt, receiver).obj, AssignAll(lt, fallback).obj) ==
            AssignAll(lt, fallback + receiver).obj <==>
            AllCarry(lt, receiver, fallback)
  {
    var m, all := MergeUnresolved(lt, AssignAll(lt, receiver).obj, AssignAll(lt, fallback).obj),
      AssignAll(lt, fallback + receiver).obj;
    MergedBuiltExactly(lt, env, receiver, fallback);
    forall k ensures BuiltAt(lt, all, k, AssignedTo(fallback + receiver, k)) {
      TreeIsBuilt(lt, fallback + receiver, k);
    }
    MergedRootKeys(lt, receiver, fallback);
    RootKeys(lt, fallback + receiver);
    SameBuilt(lt, m, all, fallback + receiver);
  }
}
