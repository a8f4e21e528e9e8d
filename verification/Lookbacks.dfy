/**
 Priors that hold references.  A reference whose key is being resolved already is
 looked up in the prior of that key, with nothing that guards the step
 (internal/resolver/resolver.go:940-963).  Phase 2 ends when the references in
 every prior that a run can look at rank below the key it belongs to, whatever
 cycles there are elsewhere.  It never ends where look-backs lead from one
 reference to the next in a closed set of them.
 */
module Lookbacks {
  import opened Paths
  import opened Values
  import opened Merge
  import opened Concats
  import opened Resolve
  import opened ResolveLaws
  import opened Termination

  // ---------- ranks ----------

  /** What bounds a run: the references it may meet, their keys, the keys of the
      paths above theirs, and a rank of each key, less than "most" for all of them. */
  datatype Bounds = Bounds(live: set<Val>, keys: set<string>, above: set<string>, rank: string -> nat, most: nat)

  /** The references that a run may meet in v are within the bounds, and their keys
      rank below n. */
  ghost predicate Within(lt: LetterTest, b: Bounds, v: Val, n: nat) {
    match v
    case Scalar(_, _, _) => true
    case Subst(_, segs, _, absent) => absent || (v in b.live && RefWithin(lt, b, segs, n))
    case Arr(es) => forall i | 0 <= i < |es| :: Within(lt, b, es[i], n)
    case Concat(ps) => forall i | 0 <= i < |ps| :: Within(lt, b, ps[i], n)
    case Obj(_, vals, priors) =>
      && (forall k | k in vals :: Within(lt, b, vals[k], n))
      && (forall k | k in priors :: (k in vals && Firm(vals[k])) || Within(lt, b, priors[k], n))
  }

  ghost predicate RefWithin(lt: LetterTest, b: Bounds, segs: seq<string>, n: nat) {
    && KeyOf(lt, segs) in b.keys && b.rank(KeyOf(lt, segs)) < n
    && forall i | 0 < i < |segs| :: KeyOf(lt, segs[..i]) in b.above
  }

  /** The prior found for a path, by whatever key it is filed. */
  function FoundPrior(lt: LetterTest, root: Val, segs: seq<string>): Option<Val>
    requires root.Obj?
  {
    FindPrior(Start(lt, root), segs, KeyOf(lt, segs))
  }

  ghost predicate PriorWithin(lt: LetterTest, root: Val, b: Bounds, segs: seq<string>, n: nat)
    requires root.Obj?
  {
    FoundPrior(lt, root, segs).Some? ==> Within(lt, b, FoundPrior(lt, root, segs).value, n)
  }

  /** The path leads to data, and no object: it is never looked back from. */
  ghost predicate Fixed(root: Val, segs: seq<string>) {
    Lookup(root, segs).Some? && Concrete(Lookup(root, segs).value) && !Lookup(root, segs).value.Obj?
  }

  /** The prior that s may look back at, and those of the paths above it. */
  ghost predicate Followed(lt: LetterTest, root: Val, b: Bounds, s: Val)
    requires root.Obj?
  {
    && s.Subst? && b.rank(KeyOf(lt, s.segs)) < b.most
    && (Fixed(root, s.segs) || PriorWithin(lt, root, b, s.segs, b.rank(KeyOf(lt, s.segs))))
    && forall i | 0 < i < |s.segs| :: PriorWithin(lt, root, b, s.segs[..i], b.most)
  }

  ghost predicate Ranked(c: Ctx, b: Bounds) {
    && c.root.Obj? && c.top == c.root.priors && Within(c.lt, b, c.root, b.most)
    && (forall s | s in b.live :: Followed(c.lt, c.root, b, s))
    && (forall s | s in b.live && s.Subst? && Fixed(c.root, s.segs) :: KeyOf(c.lt, s.segs) !in c.resolving)
  }

  lemma {:induction false} WithinMore(lt: LetterTest, b: Bounds, v: Val, n: nat, m: nat)
    requires Within(lt, b, v, n) && n <= m
    ensures Within(lt, b, v, m)
  {
    match v
    case Arr(es) => forall i | 0 <= i < |es| { WithinMore(lt, b, es[i], n, m); }
    case Concat(ps) => forall i | 0 <= i < |ps| { WithinMore(lt, b, ps[i], n, m); }
    case Obj(_, vals, priors) =>
      forall k | k in vals { WithinMore(lt, b, vals[k], n, m); }
      forall k | k in priors && Within(lt, b, priors[k], n) { WithinMore(lt, b, priors[k], n, m); }
    case _ =>
  }

  lemma {:induction false} LookupWithin(lt: LetterTest, b: Bounds, o: Val, segs: seq<string>, n: nat)
    requires Within(lt, b, o, n) && Lookup(o, segs).Some?
    ensures Within(lt, b, Lookup(o, segs).value, n)
    decreases |segs|
  {
    if |segs| > 1 {
      LookupWithin(lt, b, o.vals[segs[0]], segs[1..], n);
    }
  }

  /** The value at a path is one of its parent's values. */
  lemma {:induction false} LookupParent(o: Val, segs: seq<string>)
    requires |segs| > 1
    ensures var last, parent := segs[|segs| - 1], Lookup(o, segs[..|segs| - 1]);
            Lookup(o, segs) == if parent.Some? && parent.value.Obj? then Get(parent.value.vals, last) else None
    decreases |segs|
  {
    if o.Obj? && segs[0] in o.vals && |segs| > 2 {
      assert segs[1..][..|segs[1..]| - 1] == segs[..|segs| - 1][1..];
      LookupParent(o.vals[segs[0]], segs[1..]);
    } else if |segs| == 2 {
      assert segs[..1] == [segs[0]] && segs[1..] == [segs[1]];
    }
  }

  /** The prior saved next to a value that is undefined. */
  lemma {:induction false} PriorAtWithin(lt: LetterTest, b: Bounds, root: Val, segs: seq<string>, n: nat)
    requires root.Obj? && Within(lt, b, root, n) && PriorAt(root, segs).Some?
    requires Lookup(root, segs).Some? && !Firm(Lookup(root, segs).value)
    ensures Within(lt, b, PriorAt(root, segs).value, n)
  {
    if |segs| > 1 {
      LookupParent(root, segs);
      LookupWithin(lt, b, root, segs[..|segs| - 1], n);
    }
  }

  lemma {:induction false} RankedOn(c: Ctx, b: Bounds, segs: seq<string>)
    requires Ranked(c, b) && !Fixed(c.root, segs)
    ensures Ranked(c.(resolving := c.resolving + {KeyOf(c.lt, segs)}), b)
  {
    forall s | s in b.live && s.Subst? && Fixed(c.root, s.segs) ensures KeyOf(c.lt, s.segs) != KeyOf(c.lt, segs) {
      KeysNeverCollide(c.lt, s.segs, segs);
    }
  }

  // ---------- the budget ----------

  function Times(a: nat, b: nat): nat {
    a * b
  }

  lemma {:induction false} TimesMonotone(a: nat, b: nat, c: nat)
    requires a <= b
    ensures Times(a, c) <= Times(b, c)
  {
  }

  lemma {:induction false} TimesLess(a: nat, b: nat, c: nat)
    requires a < b
    ensures Times(a, c) + c <= Times(b, c)
  {
    assert Times(a + 1, c) == Times(a, c) + c;
    TimesMonotone(a + 1, b, c);
  }

  /** The steps one key may take: every guard once, each with every rank. */
  function Width(b: Bounds): nat {
    Times(|b.above| + 1, b.most + 1)
  }

  /** No more steps than this are left for a value whose references rank below n. */
  function Left(b: Bounds, resolving: set<string>, guards: set<string>, n: nat): nat {
    Times(|b.keys - resolving|, Width(b)) + Times(|b.above - guards|, b.most + 1) + n
  }

  lemma {:induction false} LeftAfterKey(b: Bounds, resolving: set<string>, guards: set<string>, key: string, n: nat)
    requires key in b.keys && key !in resolving
    ensures Left(b, resolving + {key}, guards, b.most) < Left(b, resolving, guards, n)
  {
    OneLess(b.keys, resolving, key);
    TimesLess(|b.keys - (resolving + {key})|, |b.keys - resolving|, Width(b));
    FewerThan(b.above, guards);
    TimesLess(|b.above - guards|, |b.above| + 1, b.most + 1);
  }

  lemma {:induction false} FewerThan(a: set<string>, b: set<string>)
    ensures |a - b| <= |a|
  {
    assert a == (a - b) + (a * b);
  }

  lemma {:induction false} LeftAfterGuard(b: Bounds, resolving: set<string>, guards: set<string>, guard: string, n: nat)
    requires guard in b.above && guard !in guards
    ensures Left(b, resolving, guards + {guard}, b.most) < Left(b, resolving, guards, n)
  {
    OneLess(b.above, guards, guard);
    TimesLess(|b.above - (guards + {guard})|, |b.above - guards|, b.most + 1);
  }

  // ---------- phase 2 within the bounds ----------

  lemma {:induction false} ValEnds(c: Ctx, fuel: nat, v: Val, b: Bounds, n: nat)
    requires Ranked(c, b) && Within(c.lt, b, v, n) && Left(b, c.resolving, c.guards, n) < fuel
    ensures !ResolveVal(c, fuel, v).Diverge?
    decreases fuel, v, 3
  {
    match v
    case Subst(_, _, _, _) => SubstEnds(c, fuel, v, b, n);
    case Concat(ps) =>
      AllEnd(c, fuel, ps, b, n);
      if ResolveAll(c, fuel, ps).Vals? { JoinEnds(ResolveAll(c, fuel, ps).vs); }
    case Arr(es) => AllEnd(c, fuel, es, b, n);
    case Obj(names, _, _) => FieldsEnd(c, fuel, v, names, false, EMPTY_OBJ, b, n);
    case _ =>
  }

  lemma {:induction false} AllEnd(c: Ctx, fuel: nat, vs: seq<Val>, b: Bounds, n: nat)
    requires Ranked(c, b) && Left(b, c.resolving, c.guards, n) < fuel
    requires forall i | 0 <= i < |vs| :: Within(c.lt, b, vs[i], n)
    ensures !ResolveAll(c, fuel, vs).SeqDiverge?
    decreases fuel, vs, 0
  {
    if vs != [] {
      ValEnds(c, fuel, vs[0], b, n);
      AllEnd(c, fuel, vs[1..], b, n);
    }
  }

  lemma {:induction false} FieldsEnd(c: Ctx, fuel: nat, o: Val, names: seq<string>, atRoot: bool, acc: Val, b: Bounds,
                                     n: nat)
    requires Ranked(c, b) && Left(b, c.resolving, c.guards, n) < fuel && acc.Obj?
    requires o.Obj? && Within(c.lt, b, o, n)
    ensures !ResolveFields(c, fuel, o, names, atRoot, acc).ObjDiverge?
    decreases fuel, o, 0, |names|
  {
    if names != [] {
      var k, c' := names[0], c.(field := c.field + [names[0]]);
      if k in o.vals { ValEnds(c', fuel, o.vals[k], b, n); }
      if k in o.priors && !(k in o.vals && Firm(o.vals[k])) { ValEnds(c', fuel, o.priors[k], b, n); }
      var r := ResolveField(c, fuel, o, k);
      if r.Ok? {
        var c'' := if atRoot then c.(cache := c.cache[KeyOf(c.lt, [k]) := r.v]) else c;
        FieldsEnd(c'', fuel, o, names[1..], atRoot, Set(acc, k, r.v), b, n);
      } else if r.Absent? {
        FieldsEnd(c, fuel, o, names[1..], atRoot, acc, b, n);
      }
    }
  }

  lemma {:induction false} SubstEnds(c: Ctx, fuel: nat, s: Val, b: Bounds, n: nat)
    requires s.Subst? && Ranked(c, b) && Within(c.lt, b, s, n) && Left(b, c.resolving, c.guards, n) < fuel
    ensures !ResolveSubst(c, fuel, s).Diverge?
    decreases fuel, s, 2
  {
    var key := KeyOf(c.lt, s.segs);
    if s.knownAbsent {
    } else if LooksBelow(c, s) {
      BelowEnds(c, fuel, s, b, n);
    } else if key in c.cache {
    } else if key in c.resolving {
      assert Followed(c.lt, c.root, b, s);
      BackEnds(c, fuel, s, b, b.rank(key));
    } else {
      AheadEnds(c, fuel, s, b, n);
    }
  }

  lemma {:induction false} BelowEnds(c: Ctx, fuel: nat, s: Val, b: Bounds, n: nat)
    requires s.Subst? && Ranked(c, b) && s in b.live && RefWithin(c.lt, b, s.segs, n) &&
             Left(b, c.resolving, c.guards, n) < fuel
    requires LooksBelow(c, s)
    ensures !ResolveBelow(c, fuel, s).Diverge?
    decreases fuel, s, 1
  {
    var guard := KeyOf(c.lt, c.field);
    var prior := FindPrior(c, c.field, guard);
    if guard !in c.guards && prior.Some? {
      KeysNeverCollide(c.lt, s.segs[..|c.field|], c.field);
      assert Followed(c.lt, c.root, b, s) && prior == FoundPrior(c.lt, c.root, s.segs[..|c.field|]);
      LeftAfterGuard(b, c.resolving, c.guards, guard, n);
      ValEnds(c.(guards := c.guards + {guard}), fuel - 1, prior.value, b, b.most);
    }
  }

  /** Looking back into a prior whose references rank below n. */
  lemma {:induction false} BackEnds(c: Ctx, fuel: nat, s: Val, b: Bounds, n: nat)
    requires s.Subst? && Ranked(c, b) && fuel > 0 && Left(b, c.resolving, c.guards, n) < fuel - 1
    requires var prior := FoundPrior(c.lt, c.root, s.segs); prior.Some? ==> Within(c.lt, b, prior.value, n)
    ensures !ResolveBack(c, fuel, s).Diverge?
    decreases fuel, s, 0
  {
    var prior := FindPrior(c, s.segs, KeyOf(c.lt, s.segs));
    assert prior == FoundPrior(c.lt, c.root, s.segs);
    if prior.Some? { ValEnds(c, fuel - 1, prior.value, b, n); }
  }

  lemma {:induction false} AheadEnds(c: Ctx, fuel: nat, s: Val, b: Bounds, n: nat)
    requires s.Subst? && !s.knownAbsent && s in b.live && Ranked(c, b) && RefWithin(c.lt, b, s.segs, n)
    requires Left(b, c.resolving, c.guards, n) < fuel
    requires !LooksBelow(c, s) && KeyOf(c.lt, s.segs) !in c.cache && KeyOf(c.lt, s.segs) !in c.resolving
    ensures !ResolveSubst(c, fuel, s).Diverge?
    decreases fuel, s, 1
  {
    var found := Lookup(c.root, s.segs);
    if found.Some? {
      if Fixed(c.root, s.segs) {
        FixedEnds(c, fuel, s);
      } else if ContainsId(found.value, s.id) {
        var key := KeyOf(c.lt, s.segs);
        assert Followed(c.lt, c.root, b, s);
        RankedOn(c, b, s.segs);
        LeftAfterKey(b, c.resolving, c.guards, key, n);
        BackEnds(c.(resolving := c.resolving + {key}), fuel, s, b, b.rank(key));
      } else {
        FoundEnds(c, fuel, s, found.value, b, n);
      }
    }
  }

  lemma {:induction false} FixedEnds(c: Ctx, fuel: nat, s: Val)
    requires c.root.Obj? && s.Subst? && !s.knownAbsent && fuel > 0 && Fixed(c.root, s.segs)
    requires !LooksBelow(c, s) && KeyOf(c.lt, s.segs) !in c.cache && KeyOf(c.lt, s.segs) !in c.resolving
    ensures ResolveSubst(c, fuel, s) == Ok(Lookup(c.root, s.segs).value)
  {
    var v := Lookup(c.root, s.segs).value;
    ConcreteHasNoId(v, s.id);
    ConcreteResolvesToItself(c.(resolving := c.resolving + {KeyOf(c.lt, s.segs)}), fuel - 1, v);
  }

  /** The value found, and the prior that it may look at. */
  lemma {:induction false} FoundEnds(c: Ctx, fuel: nat, s: Val, v: Val, b: Bounds, n: nat)
    requires s.Subst? && !s.knownAbsent && s in b.live && Ranked(c, b) && RefWithin(c.lt, b, s.segs, n)
    requires Left(b, c.resolving, c.guards, n) < fuel
    requires !LooksBelow(c, s) && KeyOf(c.lt, s.segs) !in c.cache && KeyOf(c.lt, s.segs) !in c.resolving
    requires Lookup(c.root, s.segs) == Some(v) && !Fixed(c.root, s.segs) && !ContainsId(v, s.id)
    ensures !ResolveSubst(c, fuel, s).Diverge?
    decreases fuel, s, 0, 1
  {
    var key := KeyOf(c.lt, s.segs);
    var c' := c.(resolving := c.resolving + {key});
    assert Followed(c.lt, c.root, b, s);
    LookupWithin(c.lt, b, c.root, s.segs, b.most);
    ThroughEnds(c, fuel, s, v, b, n);
    var r := ResolveVal(c', fuel - 1, v);
    if r.Absent? {
      if PriorAt(c.root, s.segs).Some? {
        PriorAtWithin(c.lt, b, c.root, s.segs, b.most);
        ThroughEnds(c, fuel, s, PriorAt(c.root, s.segs).value, b, n);
      }
    } else {
      var prior := FindPrior(c, s.segs, key);
      assert prior == FoundPrior(c.lt, c.root, s.segs);
      if prior.Some? {
        WithinMore(c.lt, b, prior.value, b.rank(key), b.most);
        ThroughEnds(c, fuel, s, prior.value, b, n);
      }
    }
  }

  /** What a reference is resolved through, its key now being resolved too. */
  lemma {:induction false} ThroughEnds(c: Ctx, fuel: nat, s: Val, e: Val, b: Bounds, n: nat)
    requires s.Subst? && Ranked(c, b) && RefWithin(c.lt, b, s.segs, n) && Left(b, c.resolving, c.guards, n) < fuel
    requires KeyOf(c.lt, s.segs) !in c.resolving && !Fixed(c.root, s.segs) && Within(c.lt, b, e, b.most)
    ensures !ResolveVal(c.(resolving := c.resolving + {KeyOf(c.lt, s.segs)}), fuel - 1, e).Diverge?
    decreases fuel, s, 0, 0
  {
    var key := KeyOf(c.lt, s.segs);
    RankedOn(c, b, s.segs);
    LeftAfterKey(b, c.resolving, c.guards, key, n);
    ValEnds(c.(resolving := c.resolving + {key}), fuel - 1, e, b, b.most);
  }

  // ---------- when phase 2 ends ----------

  /** The references that a run may meet in v: not those of priors that are not looked at. */
  ghost function Shown(v: Val): set<Val> {
    match v
    case Scalar(_, _, _) => {}
    case Subst(_, _, _, absent) => if absent then {} else {v}
    case Arr(es) => set i, s | 0 <= i < |es| && s in Shown(es[i]) :: s
    case Concat(ps) => set i, s | 0 <= i < |ps| && s in Shown(ps[i]) :: s
    case Obj(_, vals, priors) =>
      (set k, s | k in vals && s in Shown(vals[k]) :: s)
      + (set k, s | k in priors && !(k in vals && Firm(vals[k])) && s in Shown(priors[k]) :: s)
  }

  /** The references shown by v are among the given ones, and their keys rank below n. */
  ghost predicate RankedBelow(lt: LetterTest, live: set<Val>, rank: string -> nat, v: Val, n: nat) {
    Shown(v) <= live && forall s | s in Shown(v) && s.Subst? :: rank(KeyOf(lt, s.segs)) < n
  }

  ghost predicate PriorBelow(lt: LetterTest, tree: Val, live: set<Val>, rank: string -> nat, segs: seq<string>, n: nat)
    requires tree.Obj?
  {
    FoundPrior(lt, tree, segs).Some? ==> RankedBelow(lt, live, rank, FoundPrior(lt, tree, segs).value, n)
  }

  /** What s may look back at ranks below s, unless s leads to data that is no object. */
  ghost predicate Descends(lt: LetterTest, tree: Val, live: set<Val>, rank: string -> nat, most: nat, s: Val)
    requires tree.Obj?
  {
    && s.Subst? && rank(KeyOf(lt, s.segs)) < most
    && (Fixed(tree, s.segs) || PriorBelow(lt, tree, live, rank, s.segs, rank(KeyOf(lt, s.segs))))
    && forall i | 0 < i < |s.segs| :: PriorBelow(lt, tree, live, rank, s.segs[..i], most)
  }

  /** A set of references that a run does not leave, and in which look-backs descend. */
  ghost predicate PriorsDescend(lt: LetterTest, tree: Val, live: set<Val>, rank: string -> nat, most: nat)
    requires tree.Obj?
  {
    RankedBelow(lt, live, rank, tree, most) && forall s | s in live :: Descends(lt, tree, live, rank, most, s)
  }

  ghost function BoundsOf(lt: LetterTest, live: set<Val>, rank: string -> nat, most: nat): Bounds {
    Bounds(live, set s | s in live && s.Subst? :: KeyOf(lt, s.segs),
           set s, i | s in live && s.Subst? && 0 < i < |s.segs| :: KeyOf(lt, s.segs[..i]), rank, most)
  }

  lemma {:induction false} WithinByRank(lt: LetterTest, live: set<Val>, rank: string -> nat, most: nat, v: Val, n: nat)
    requires RankedBelow(lt, live, rank, v, n)
    ensures Within(lt, BoundsOf(lt, live, rank, most), v, n)
  {
    var b := BoundsOf(lt, live, rank, most);
    match v
    case Subst(_, segs, _, absent) => assert !absent ==> v in Shown(v);
    case Arr(es) =>
      forall i | 0 <= i < |es| ensures Within(lt, b, es[i], n) {
        assert Shown(es[i]) <= Shown(v);
        WithinByRank(lt, live, rank, most, es[i], n);
      }
    case Concat(ps) =>
      forall i | 0 <= i < |ps| ensures Within(lt, b, ps[i], n) {
        assert Shown(ps[i]) <= Shown(v);
        WithinByRank(lt, live, rank, most, ps[i], n);
      }
    case Obj(_, vals, priors) =>
      forall k | k in vals ensures Within(lt, b, vals[k], n) {
        assert Shown(vals[k]) <= Shown(v);
        WithinByRank(lt, live, rank, most, vals[k], n);
      }
      forall k | k in priors && !(k in vals && Firm(vals[k])) ensures Within(lt, b, priors[k], n) {
        assert Shown(priors[k]) <= Shown(v);
        WithinByRank(lt, live, rank, most, priors[k], n);
      }
    case _ =>
  }

  lemma {:induction false} FollowedByRank(lt: LetterTest, tree: Val, live: set<Val>, rank: string -> nat, most: nat,
                                          s: Val)
    requires tree.Obj? && Descends(lt, tree, live, rank, most, s)
    ensures Followed(lt, tree, BoundsOf(lt, live, rank, most), s)
  {
    var b, key := BoundsOf(lt, live, rank, most), KeyOf(lt, s.segs);
    if !Fixed(tree, s.segs) && FoundPrior(lt, tree, s.segs).Some? {
      WithinByRank(lt, live, rank, most, FoundPrior(lt, tree, s.segs).value, rank(key));
    }
    forall i | 0 < i < |s.segs| ensures PriorWithin(lt, tree, b, s.segs[..i], most) {
      assert PriorBelow(lt, tree, live, rank, s.segs[..i], most);
      if FoundPrior(lt, tree, s.segs[..i]).Some? {
        WithinByRank(lt, live, rank, most, FoundPrior(lt, tree, s.segs[..i]).value, most);
      }
    }
  }

  /** Phase 2 ends whenever the references that a run can meet look back only at
      references that rank below them; cycles of references elsewhere do not matter,
      nor do priors that no run looks at.  The budget is that of the keys of these
      references, the paths above them and the ranks. */
  lemma {:induction false} EndsWherePriorsDescend(lt: LetterTest, tree: Val, live: set<Val>, rank: string -> nat,
                                                  most: nat, fuel: nat)
    requires tree.Obj? && PriorsDescend(lt, tree, live, rank, most)
    requires fuel > Left(BoundsOf(lt, live, rank, most), {}, {}, most)
    ensures !ResolveTree(lt, tree, fuel).Diverge?
  {
    var b := BoundsOf(lt, live, rank, most);
    WithinByRank(lt, live, rank, most, tree, most);
    forall s | s in live ensures Followed(lt, tree, b, s) {
      FollowedByRank(lt, tree, live, rank, most, s);
    }
    FieldsEnd(Start(lt, tree), fuel, tree, tree.keys, true, EMPTY_OBJ, b, most);
  }

  // ---------- when it never ends ----------

  /** The field is plain data, not merged with a prior. */
  ghost predicate DataField(o: Val, k: string)
    requires o.Obj?
  {
    k in o.vals && Concrete(o.vals[k]) && (o.vals[k].Obj? ==> k !in o.priors)
  }

  /** The first thing in v that is not data is one of the references. */
  ghost predicate Leads(v: Val, members: set<Val>) {
    match v
    case Scalar(_, _, _) => false
    case Subst(_, _, _, _) => v in members
    case Arr(es) => exists i | 0 <= i < |es| :: Leads(es[i], members) && forall j | 0 <= j < i :: Concrete(es[j])
    case Concat(ps) => exists i | 0 <= i < |ps| :: Leads(ps[i], members) && forall j | 0 <= j < i :: Concrete(ps[j])
    case Obj(keys, vals, _) =>
      exists i | 0 <= i < |keys| :: keys[i] in vals && Leads(vals[keys[i]], members) &&
        forall j | 0 <= j < i :: DataField(v, keys[j])
  }

  /** s leads on to the references whichever way it is taken: what it names holds s
      itself or leads to them, and so does the prior it would look back at. */
  ghost predicate LeadsOn(lt: LetterTest, root: Val, members: set<Val>, s: Val)
    requires root.Obj?
  {
    && s.Subst? && !s.knownAbsent
    && Lookup(root, s.segs).Some? && (LooksBack(root, s) || Leads(Lookup(root, s.segs).value, members))
    && FoundPrior(lt, root, s.segs).Some? && Leads(FoundPrior(lt, root, s.segs).value, members)
  }

  ghost predicate ClosedUnderLookback(lt: LetterTest, root: Val, members: set<Val>)
    requires root.Obj?
  {
    forall s {:trigger LeadsOn(lt, root, members, s)} :: s in members ==> LeadsOn(lt, root, members, s)
  }

  ghost predicate Open(c: Ctx, s: Val) {
    s.Subst? && !LooksBelow(c, s) && KeyOf(c.lt, s.segs) !in c.cache
  }

  ghost predicate Circling(c: Ctx, members: set<Val>) {
    && c.root.Obj? && c.top == c.root.priors && ClosedUnderLookback(c.lt, c.root, members) && c.field != []
    && forall s {:trigger Open(c, s)} :: s in members ==> Open(c, s)
  }

  lemma {:induction false} ConcreteLeadsNowhere(v: Val, members: set<Val>)
    requires Concrete(v)
    ensures !Leads(v, members)
  {
    match v
    case Arr(es) => forall i | 0 <= i < |es| { ConcreteLeadsNowhere(es[i], members); }
    case Obj(_, vals, _) => forall k | k in vals { ConcreteLeadsNowhere(vals[k], members); }
    case _ =>
  }

  /** What lies below a field lies below the fields around it. */
  lemma {:induction false} BelowAbove(c: Ctx, d: Ctx, s: Val)
    requires s.Subst? && LooksBelow(d, s) && d.lt == c.lt && c.field != [] && c.field <= d.field
    ensures LooksBelow(c, s)
  {
    KeysNeverCollide(c.lt, s.segs[..|d.field|], d.field);
    assert s.segs[..|c.field|] == s.segs[..|d.field|][..|c.field|] == d.field[..|c.field|] == c.field;
  }

  lemma {:induction false} CirclingOn(c: Ctx, d: Ctx, members: set<Val>)
    requires Circling(c, members) && d.lt == c.lt && d.root == c.root && d.top == c.top && d.cache == c.cache &&
             c.field <= d.field
    ensures Circling(d, members)
  {
    forall s | s in members ensures Open(d, s) {
      assert Open(c, s);
      if LooksBelow(d, s) {
        BelowAbove(c, d, s);
      }
    }
  }

  lemma {:induction false} ValNeverEnds(c: Ctx, fuel: nat, v: Val, members: set<Val>)
    requires Circling(c, members) && Leads(v, members)
    ensures ResolveVal(c, fuel, v) == Diverge
    decreases fuel, v, 3
  {
    match v
    case Subst(_, _, _, _) => SubstNeverEnds(c, fuel, v, members);
    case Concat(ps) =>
      var i :| 0 <= i < |ps| && Leads(ps[i], members) && forall j | 0 <= j < i :: Concrete(ps[j]);
      AllNeverEnd(c, fuel, ps, i, members);
    case Arr(es) =>
      var i :| 0 <= i < |es| && Leads(es[i], members) && forall j | 0 <= j < i :: Concrete(es[j]);
      AllNeverEnd(c, fuel, es, i, members);
    case Obj(keys, vals, _) =>
      var i :| 0 <= i < |keys| && keys[i] in vals && Leads(vals[keys[i]], members) &&
        forall j | 0 <= j < i :: DataField(v, keys[j]);
      FieldsNeverEnd(c, fuel, v, keys, i, EMPTY_OBJ, members);
  }

  lemma {:induction false} AllNeverEnd(c: Ctx, fuel: nat, vs: seq<Val>, i: nat, members: set<Val>)
    requires Circling(c, members) && i < |vs| && Leads(vs[i], members) && forall j | 0 <= j < i :: Concrete(vs[j])
    ensures ResolveAll(c, fuel, vs) == SeqDiverge
    decreases fuel, vs, 0
  {
    if i == 0 {
      ValNeverEnds(c, fuel, vs[0], members);
    } else {
      ConcreteResolvesToItself(c, fuel, vs[0]);
      AllNeverEnd(c, fuel, vs[1..], i - 1, members);
    }
  }

  /** A field that is data is walked past. */
  lemma {:induction false} DataFieldResolves(c: Ctx, fuel: nat, o: Val, k: string)
    requires o.Obj? && DataField(o, k)
    ensures ResolveField(c, fuel, o, k) == Ok(o.vals[k])
  {
    ConcreteResolvesToItself(c.(field := c.field + [k]), fuel, o.vals[k]);
  }

  lemma {:induction false} FieldsNeverEnd(c: Ctx, fuel: nat, o: Val, keys: seq<string>, i: nat, acc: Val,
                                          members: set<Val>)
    requires Circling(c, members) && o.Obj? && acc.Obj? && i < |keys| && keys[i] in o.vals &&
             Leads(o.vals[keys[i]], members)
    requires forall j | 0 <= j < i :: DataField(o, keys[j])
    ensures ResolveFields(c, fuel, o, keys, false, acc) == ObjDiverge
    decreases fuel, o, 0, |keys|
  {
    var k, c' := keys[0], c.(field := c.field + [keys[0]]);
    if i == 0 {
      CirclingOn(c, c', members);
      ValNeverEnds(c', fuel, o.vals[k], members);
    } else {
      DataFieldResolves(c, fuel, o, k);
      FieldsNeverEnd(c, fuel, o, keys[1..], i - 1, Set(acc, k, o.vals[k]), members);
    }
  }

  lemma {:induction false} SubstNeverEnds(c: Ctx, fuel: nat, s: Val, members: set<Val>)
    requires s.Subst? && Circling(c, members) && s in members
    ensures ResolveSubst(c, fuel, s) == Diverge
    decreases fuel, s, 2
  {
    var key := KeyOf(c.lt, s.segs);
    assert LeadsOn(c.lt, c.root, members, s) && Open(c, s);
    if fuel > 0 {
      var c' := c.(resolving := c.resolving + {key});
      CirclingOn(c, c', members);
      if key in c.resolving {
        BackNeverEnds(c, fuel, s, members);
      } else if LooksBack(c.root, s) {
        BackNeverEnds(c', fuel, s, members);
      } else {
        ValNeverEnds(c', fuel - 1, Lookup(c.root, s.segs).value, members);
      }
    }
  }

  lemma {:induction false} BackNeverEnds(c: Ctx, fuel: nat, s: Val, members: set<Val>)
    requires s.Subst? && Circling(c, members) && s in members && fuel > 0
    ensures ResolveBack(c, fuel, s) == Diverge
    decreases fuel, s, 1
  {
    assert LeadsOn(c.lt, c.root, members, s);
    assert FindPrior(c, s.segs, KeyOf(c.lt, s.segs)) == FoundPrior(c.lt, c.root, s.segs);
    ValNeverEnds(c, fuel - 1, FoundPrior(c.lt, c.root, s.segs).value, members);
  }

  /** No member's path goes below the field with this name. */
  ghost predicate NoneBelow(members: set<Val>, k: string) {
    forall s | s in members && s.Subst? :: |s.segs| > 1 ==> s.segs[0] != k
  }

  /** The root's walk before the i-th field: everything so far was data. */
  lemma {:induction false} RootNeverEnds(c: Ctx, fuel: nat, i: nat, at: nat, acc: Val, members: set<Val>)
    requires c.root.Obj? && c.top == c.root.priors && c.field == [] && acc.Obj? && at <= i < |c.root.keys|
    requires ClosedUnderLookback(c.lt, c.root, members) && NoneBelow(members, c.root.keys[i])
    requires c.root.keys[i] in c.root.vals && Leads(c.root.vals[c.root.keys[i]], members)
    requires forall j | 0 <= j < i :: DataField(c.root, c.root.keys[j])
    requires forall s | s in members && s.Subst? :: KeyOf(c.lt, s.segs) !in c.cache
    ensures ResolveFields(c, fuel, c.root, c.root.keys[at..], true, acc) == ObjDiverge
    decreases i - at
  {
    var k := c.root.keys[at];
    assert c.root.keys[at..][0] == k && c.root.keys[at..][1..] == c.root.keys[at + 1..];
    if at == i {
      var c' := c.(field := [] + [k]);
      forall s | s in members ensures Open(c', s) {
        assert LeadsOn(c.lt, c.root, members, s);
        if LooksBelow(c', s) {
          KeysNeverCollide(c.lt, s.segs[..1], [k]);
        }
      }
      ValNeverEnds(c', fuel, c.root.vals[k], members);
    } else {
      DataFieldResolves(c, fuel, c.root, k);
      var c' := c.(cache := c.cache[KeyOf(c.lt, [k]) := c.root.vals[k]]);
      forall s | s in members && s.Subst? ensures KeyOf(c.lt, s.segs) !in c'.cache {
        assert LeadsOn(c.lt, c.root, members, s);
        KeysNeverCollide(c.lt, s.segs, [k]);
        ConcreteLeadsNowhere(c.root.vals[k], members);
        ConcreteHasNoId(c.root.vals[k], s.id);
      }
      RootNeverEnds(c', fuel, i, at + 1, Set(acc, k, c.root.vals[k]), members);
    }
  }

  /** Look-backs that lead round in a closed set of references use up every budget:
      the first field that is not data leads to one of them. */
  lemma {:induction false} ClosedLookbacksNeverEnd(lt: LetterTest, tree: Val, members: set<Val>, i: nat, fuel: nat)
    requires tree.Obj? && ClosedUnderLookback(lt, tree, members)
    requires i < |tree.keys| && tree.keys[i] in tree.vals && Leads(tree.vals[tree.keys[i]], members)
    requires NoneBelow(members, tree.keys[i]) && forall j | 0 <= j < i :: DataField(tree, tree.keys[j])
    ensures ResolveTree(lt, tree, fuel) == Diverge
  {
    assert tree.keys[0..] == tree.keys;
    RootNeverEnds(Start(lt, tree), fuel, i, 0, EMPTY_OBJ, members);
  }

  // ---------- the smallest such tree ----------

  /** What phase 1 builds from  a = ${b}, a = ${a}, b = ${a}, b = ${b}. */
  const MUTUAL_PRIORS: Val := Obj(["a", "b"],
    map["a" := Subst(1, ["a"], false, false), "b" := Subst(3, ["b"], false, false)],
    map["a" := Subst(0, ["b"], false, false), "b" := Subst(2, ["a"], false, false)])

  const MUTUAL_REFS: set<Val> := {Subst(0, ["b"], false, false), Subst(1, ["a"], false, false),
                                  Subst(2, ["a"], false, false), Subst(3, ["b"], false, false)}

  /** Two priors that refer to each other are followed forever. */
  lemma {:induction false} MutualPriorsNeverEnd(lt: LetterTest, fuel: nat)
    requires lt('a') && lt('b')
    ensures ResolveTree(lt, MUTUAL_PRIORS, fuel) == Diverge
  {
    PlainKey(lt, "a");
    PlainKey(lt, "b");
    assert "a"[0] != "b"[0];
    var root := MUTUAL_PRIORS;
    assert FoundPrior(lt, root, ["a"]) == Some(Subst(0, ["b"], false, false));
    assert FoundPrior(lt, root, ["b"]) == Some(Subst(2, ["a"], false, false));
    assert Lookup(root, ["a"]) == Some(root.vals["a"]) && Lookup(root, ["b"]) == Some(root.vals["b"]);
    ClosedLookbacksNeverEnd(lt, root, MUTUAL_REFS, 0, fuel);
  }

  lemma {:induction false} ConcreteShowsNothing(v: Val)
    requires Concrete(v)
    ensures Shown(v) == {}
  {
    match v
    case Scalar(_, _, _) =>
    case Arr(es) => forall i | 0 <= i < |es| { ConcreteShowsNothing(es[i]); }
    case Obj(_, vals, _) => forall k | k in vals { ConcreteShowsNothing(vals[k]); }
  }

  lemma {:induction false} NothingLeft(lt: LetterTest)
    ensures Left(BoundsOf(lt, {}, _ => 0, 0), {}, {}, 0) == 0
  {
    var b := BoundsOf(lt, {}, _ => 0, 0);
    assert b.keys == {} && b.above == {};
    assert b.keys - {} == {} && b.above - {} == {};
  }

  /** Whatever the priors beside data are, as in  a = ${b}, a = 1, b = ${a}, b = 2:
      they are not looked at. */
  lemma {:induction false} PriorsOfDataEnd(lt: LetterTest, tree: Val, fuel: nat)
    requires tree.Obj? && forall k | k in tree.vals :: Concrete(tree.vals[k]) && !tree.vals[k].Obj?
    requires (forall k | k in tree.priors :: k in tree.vals) && fuel > 0
    ensures !ResolveTree(lt, tree, fuel).Diverge?
  {
    forall k | k in tree.vals ensures Shown(tree.vals[k]) == {} && Firm(tree.vals[k]) {
      ConcreteShowsNothing(tree.vals[k]);
    }
    assert Shown(tree) == {};
    NothingLeft(lt);
    EndsWherePriorsDescend(lt, tree, {}, _ => 0, 0, fuel);
  }
}
