/**
 A field inside object literals in a row that refers to itself by its path, as in
 o { l = [1] }, o { l = ${?o.l} [2] }: what the deep merge of phase 1 saves for it
 (deepMergeAt and selfRefFullKey in internal/resolver/resolver.go), and what phase 2
 makes of it.
 */
module Interiors {
  import opened Paths
  import opened Values
  import opened Fold
  import opened Merge
  import opened MergeLaws
  import opened Concats
  import opened Resolve
  import opened ResolveLaws
  import opened Assignments
  import opened Layers
  import opened Chains
  import opened Fallbacks

  // ---------- the values in question ----------

  /** Scalars, arrays, concatenations and references to the path itself, folded to
      absent ones included; data of any kind inside arrays. */
  predicate Bit(v: Val, path: seq<string>) {
    match v
    case Scalar(_, _, _) => true
    case Obj(_, _, _) => false
    case Subst(_, segs, optional, absent) => segs == path && path != [] && (absent ==> optional)
    case Arr(es) => forall i | 0 <= i < |es| :: Concrete(es[i]) || Bit(es[i], path)
    case Concat(ps) => ps != [] && forall i | 0 <= i < |ps| :: Bit(ps[i], path)
  }

  /** As it stands in a document. */
  predicate Written(v: Val, path: seq<string>) {
    Bit(v, path) && !ContainsSentinel(v)
  }

  /** A required reference to the path. */
  predicate Needs(v: Val, path: seq<string>) {
    match v
    case Scalar(_, _, _) => false
    case Obj(_, _, _) => false
    case Subst(_, segs, optional, absent) => !absent && !optional
    case Arr(es) => exists i | 0 <= i < |es| :: Needs(es[i], path)
    case Concat(ps) => exists i | 0 <= i < |ps| :: Needs(ps[i], path)
  }

  /** A reference that is not inside an array. */
  predicate Direct(v: Val) {
    match v
    case Subst(_, _, _, _) => true
    case Concat(ps) => exists i | 0 <= i < |ps| :: Direct(ps[i])
    case _ => false
  }

  /** What a value comes to over what lies below it. */
  function ValueOver(lt: LetterTest, v: Val, below: Option<Res>): Res {
    LayerValue(lt, map[], v, below)
  }

  // ---------- folding ----------

  lemma {:induction false} DataBit(lt: LetterTest, v: Val, path: seq<string>, below: Option<Res>)
    requires Concrete(v)
    ensures !Mentions(lt, v, KeyOf(lt, path)) && !Needs(v, path) && ValueOver(lt, v, below) == Ok(v)
    decreases v
  {
    ConcreteLayerValue(lt, map[], v, below);
    ConcreteHasNoPlaceholders(v);
    SavedAsIs(lt, v, KeyOf(lt, path), true);
    FoldedIsFree(lt, v, KeyOf(lt, path), None, true);
    match v
    case Arr(es) => forall i | 0 <= i < |es| { DataBit(lt, es[i], path, below); }
    case _ =>
  }

  /** A bit has no reference below its path. */
  lemma {:induction false} BitHit(lt: LetterTest, v: Val, path: seq<string>, r: Option<Val>, stack: bool)
    requires Bit(v, path) || Concrete(v)
    ensures FoldSelfRef(lt, v, KeyOf(lt, path), r, stack).hit <==> Mentions(lt, v, KeyOf(lt, path))
    decreases v
  {
    if Concrete(v) {
      DataBit(lt, v, path, None);
      ConcreteHasNoPlaceholders(v);
      SavedAsIs(lt, v, KeyOf(lt, path), stack);
      HitIgnoresReplacement(lt, v, KeyOf(lt, path), r, stack);
    } else {
      match v
      case Scalar(_, _, _) =>
      case Subst(_, segs, _, _) => RemainderIsExact(lt, segs, path);
      case Arr(es) => forall i | 0 <= i < |es| { BitHit(lt, es[i], path, r, stack); }
      case Concat(ps) => forall i | 0 <= i < |ps| { BitHit(lt, ps[i], path, r, stack); }
    }
  }

  /** Without a live reference it does not matter what lies below. */
  lemma {:induction false} StillOver(lt: LetterTest, v: Val, path: seq<string>, a: Option<Res>, b: Option<Res>)
    requires Bit(v, path) || Concrete(v)
    requires !Mentions(lt, v, KeyOf(lt, path))
    ensures ValueOver(lt, v, a) == ValueOver(lt, v, b)
    decreases v
  {
    if Concrete(v) {
      DataBit(lt, v, path, a);
      DataBit(lt, v, path, b);
    } else {
      match v
      case Scalar(_, _, _) =>
      case Subst(_, _, _, _) =>
      case Arr(es) =>
        forall i | 0 <= i < |es| ensures ValueOver(lt, es[i], a) == ValueOver(lt, es[i], b) {
          StillOver(lt, es[i], path, a, b);
        }
        SameLayerValues(lt, map[], es, es, a, b);
      case Concat(ps) =>
        forall i | 0 <= i < |ps| ensures ValueOver(lt, ps[i], a) == ValueOver(lt, ps[i], b) {
          StillOver(lt, ps[i], path, a, b);
        }
        SameLayerValues(lt, map[], ps, ps, a, b);
    }
  }

  /** f is v with what q stands for in place of its references. */
  ghost predicate FilledWith(lt: LetterTest, f: Val, v: Val, path: seq<string>, q: Val, any: Option<Res>) {
    && (Bit(f, path) || Concrete(f)) && !Mentions(lt, f, KeyOf(lt, path))
    && ValueOver(lt, f, any) == ValueOver(lt, v, Some(ValueOver(lt, q, None)))
  }

  lemma {:induction false} FoldFills(lt: LetterTest, v: Val, path: seq<string>, q: Val, any: Option<Res>, stack: bool)
    requires (Bit(v, path) || Concrete(v)) && Bit(q, path) && !Mentions(lt, q, KeyOf(lt, path))
    ensures var f := FoldSelfRef(lt, v, KeyOf(lt, path), Some(q), stack).v;
            FilledWith(lt, f, v, path, q, any) && (Bit(v, path) ==> Bit(f, path))
    decreases v
  {
    var key := KeyOf(lt, path);
    var f := FoldSelfRef(lt, v, key, Some(q), stack).v;
    FoldedIsFree(lt, v, key, Some(q), stack);
    BitHit(lt, v, path, Some(q), stack);
    if !Mentions(lt, v, key) {
      StillOver(lt, v, path, any, Some(ValueOver(lt, q, None)));
    } else {
      if Concrete(v) { DataBit(lt, v, path, None); }
      match v
      case Subst(_, _, _, _) => StillOver(lt, q, path, any, None);
      case Arr(es) => FillsAll(lt, v, es, path, q, any, stack);
      case Concat(ps) => FillsAll(lt, v, ps, path, q, any, stack);
    }
  }

  lemma {:induction false} FillsAll(lt: LetterTest, v: Val, vs: seq<Val>, path: seq<string>, q: Val, any: Option<Res>,
                                    stack: bool)
    requires (v == Arr(vs) || v == Concat(vs)) && Bit(v, path) && Bit(q, path) && !Mentions(lt, q, KeyOf(lt, path))
    ensures var f := FoldSelfRef(lt, v, KeyOf(lt, path), Some(q), stack).v;
            Bit(f, path) && ValueOver(lt, f, any) == ValueOver(lt, v, Some(ValueOver(lt, q, None)))
    decreases v, 0
  {
    var key := KeyOf(lt, path);
    FoldedParts(lt, v, vs, key, q, stack);
    var us := seq(|vs|, i requires 0 <= i < |vs| => FoldSelfRef(lt, vs[i], key, Some(q), stack).v);
    forall i | 0 <= i < |vs|
      ensures FilledWith(lt, us[i], vs[i], path, q, any) && (Bit(vs[i], path) ==> Bit(us[i], path)) {
      FoldFills(lt, vs[i], path, q, any, stack);
    }
    SameLayerValues(lt, map[], us, vs, any, Some(ValueOver(lt, q, None)));
  }

  lemma {:induction false} AbsentFills(lt: LetterTest, v: Val, path: seq<string>, any: Option<Res>, stack: bool)
    requires Bit(v, path) || Concrete(v)
    ensures var f := FoldAbsent(lt, v, KeyOf(lt, path), stack);
            && (f.Some? <==> !Needs(v, path))
            && (f.Some? ==> (Bit(v, path) ==> Bit(f.value, path)) && (Concrete(v) ==> f.value == v)
                            && !Mentions(lt, f.value, KeyOf(lt, path)) &&
                              ValueOver(lt, f.value, any) == ValueOver(lt, v, None))
    decreases v
  {
    var key := KeyOf(lt, path);
    if Concrete(v) {
      DataBit(lt, v, path, any);
      DataBit(lt, v, path, None);
      ConcreteHasNoPlaceholders(v);
      AbsentOfData(lt, v, key, stack);
    } else {
      match v
      case Scalar(_, _, _) =>
      case Subst(_, segs, _, _) => RemainderIsExact(lt, segs, path);
      case Arr(es) => AbsentFillsAll(lt, v, es, path, any, stack);
      case Concat(ps) => AbsentFillsAll(lt, v, ps, path, any, stack);
    }
  }

  lemma {:induction false} AbsentOfData(lt: LetterTest, v: Val, key: string, stack: bool)
    requires Concrete(v)
    ensures FoldAbsent(lt, v, key, stack) == Some(v)
  {
    match v
    case Scalar(_, _, _) =>
    case Arr(es) =>
      forall i | 0 <= i < |es| { AbsentOfData(lt, es[i], key, stack); }
      assert FoldAbsent(lt, v, key, stack).value.elems == es;
    case Obj(_, vals, _) =>
      forall k | k in vals { AbsentOfData(lt, vals[k], key, false); }
      assert FoldAbsent(lt, v, key, stack).value.vals == vals;
  }

  lemma {:induction false} AbsentFillsAll(lt: LetterTest, v: Val, vs: seq<Val>, path: seq<string>, any: Option<Res>,
                                          stack: bool)
    requires (v == Arr(vs) || v == Concat(vs)) && Bit(v, path)
    ensures var f := FoldAbsent(lt, v, KeyOf(lt, path), stack);
            && (f.Some? <==> !Needs(v, path))
            && (f.Some? ==> Bit(f.value, path) && !Mentions(lt, f.value, KeyOf(lt, path))
                            && ValueOver(lt, f.value, any) == ValueOver(lt, v, None))
    decreases v, 0
  {
    var key := KeyOf(lt, path);
    AbsentParts(lt, v, vs, key, stack);
    forall i | 0 <= i < |vs| { AbsentFills(lt, vs[i], path, any, stack); }
    var f := FoldAbsent(lt, v, key, stack);
    if f.Some? {
      var us := if v.Concat? then f.value.parts else f.value.elems;
      forall i | 0 <= i < |vs|
        ensures (Bit(vs[i], path) ==> Bit(us[i], path)) && (Concrete(vs[i]) ==> us[i] == vs[i]) &&
                !Mentions(lt, us[i], key) && ValueOver(lt, us[i], any) == ValueOver(lt, vs[i], None) {
        AbsentFills(lt, vs[i], path, any, stack);
      }
      SameLayerValues(lt, map[], us, vs, any, None);
    }
  }

  // ---------- one save ----------

  /** p stands for what lies below. */
  ghost predicate Stands(lt: LetterTest, path: seq<string>, p: Option<Val>, below: Option<Res>) {
    && (p.Some? <==> below.Some?)
    && (p.Some? ==>
          Bit(p.value, path) && !Mentions(lt, p.value, KeyOf(lt, path)) &&
          ValueOver(lt, p.value, None) == below.value)
  }

  /** A value over what lies below it, or nothing where it needs what is not there. */
  function Stack(lt: LetterTest, path: seq<string>, v: Val, below: Option<Res>): Option<Res> {
    if below.None? && Needs(v, path) then None else Some(ValueOver(lt, v, below))
  }

  lemma {:induction false} SaveStands(lt: LetterTest, path: seq<string>, e: Val, q: Option<Val>, below: Option<Res>)
    requires Written(e, path) && Stands(lt, path, q, below)
    ensures Stands(lt, path, FoldOrSkip(lt, e, KeyOf(lt, path), q), Stack(lt, path, e, below))
  {
    var key := KeyOf(lt, path);
    if e.Subst? { RemainderIsExact(lt, e.segs, path); }
    BitHit(lt, e, path, q, true);
    AbsentFills(lt, e, path, None, true);
    if !Mentions(lt, e, key) {
      StillOver(lt, e, path, None, below);
      StillNeedsNothing(lt, e, path);
    } else if q.Some? {
      FoldFills(lt, e, path, q.value, None, true);
    }
  }

  lemma {:induction false} StillNeedsNothing(lt: LetterTest, v: Val, path: seq<string>)
    requires Bit(v, path) && !Mentions(lt, v, KeyOf(lt, path))
    ensures !Needs(v, path)
  {
    match v
    case Arr(es) =>
      forall i | 0 <= i < |es| ensures !Needs(es[i], path) {
        if Concrete(es[i]) { DataBit(lt, es[i], path, None); } else { StillNeedsNothing(lt, es[i], path); }
      }
    case Concat(ps) => forall i | 0 <= i < |ps| { StillNeedsNothing(lt, ps[i], path); }
    case _ =>
  }

  // ---------- literals in a row ----------

  function Literal(l: string, v: Val): (o: Val)
    ensures o.Obj?
  {
    Obj([l], map[l := v], map[])
  }

  function Literals(l: string, vs: seq<Val>): (r: seq<Val>)
    ensures |r| == |vs|
  {
    seq(|vs|, i requires 0 <= i < |vs| => Literal(l, vs[i]))
  }

  /** o { l = v }, one after the other. */
  function Rows(o: string, l: string, vs: seq<Val>): seq<Field> {
    seq(|vs|, i requires 0 <= i < |vs| => Field(o, Literal(l, vs[i]), false, 0))
  }

  ghost predicate AllWritten(o: string, l: string, vs: seq<Val>) {
    forall i | 0 <= i < |vs| :: Written(vs[i], [o, l])
  }

  /** The references of a value outside arrays are found, and they are its own. */
  lemma {:induction false} DirectIsFound(lt: LetterTest, v: Val, path: seq<string>)
    requires path != [] && Bit(v, path)
    ensures SelfRefFullKey(lt, v, path[|path| - 1]) == if Direct(v) then Some(KeyOf(lt, path)) else None
    decreases v, 1
  {
    match v
    case Concat(ps) => FirstIsFound(lt, ps, path);
    case _ =>
  }

  lemma {:induction false} FirstIsFound(lt: LetterTest, ps: seq<Val>, path: seq<string>)
    requires path != [] && forall i | 0 <= i < |ps| :: Bit(ps[i], path)
    ensures FirstSelfRef(lt, ps, path[|path| - 1]) ==
            if exists i | 0 <= i < |ps| :: Direct(ps[i]) then Some(KeyOf(lt, path)) else None
    decreases ps, 0
  {
    if ps != [] {
      DirectIsFound(lt, ps[0], path);
      FirstIsFound(lt, ps[1..], path);
      if i :| 0 <= i < |ps[1..]| && Direct(ps[1..][i]) {
        assert Direct(ps[i + 1]);
      }
      if i :| 0 <= i < |ps| && Direct(ps[i]) && i > 0 {
        assert Direct(ps[1..][i - 1]);
      }
    }
  }

  /** What the deep merge keeps for the field under v, the value before being e. */
  function KeptUnder(lt: LetterTest, path: seq<string>, v: Val, e: Val, below: Option<Res>): Option<Res> {
    var full, alone := Stack(lt, path, e, below), Stack(lt, path, e, None);
    if Direct(v) && full.Some? then full else if alone.Some? then alone else below
  }

  /** What the prior of the field stands for after these literals. */
  function Kept(lt: LetterTest, path: seq<string>, vs: seq<Val>): Option<Res> {
    if |vs| <= 1 then None
    else KeptUnder(lt, path, vs[|vs| - 1], vs[|vs| - 2], Kept(lt, path, vs[..|vs| - 1]))
  }

  /** The object after these literals: the last value, and such a prior. */
  ghost predicate IsStored(lt: LetterTest, o: string, l: string, vs: seq<Val>, s: Val)
    requires vs != []
  {
    && s.Obj? && s.keys == [l] && s.vals == map[l := vs[|vs| - 1]]
    && (forall j | j in s.priors :: j == l) && Stands(lt, [o, l], Get(s.priors, l), Kept(lt, [o, l], vs))
  }

  lemma {:induction false} MergedLiteral(lt: LetterTest, o: string, l: string, vs: seq<Val>, v: Val, s: Val)
    requires vs != [] && AllWritten(o, l, vs + [v]) && IsStored(lt, o, l, vs, s)
    ensures IsStored(lt, o, l, vs + [v], DeepMergeAt(lt, Literal(l, v), s, [o], true))
  {
    var d, path, e, us := Literal(l, v), [o, l], vs[|vs| - 1], vs + [v];
    var r := DeepMergeAt(lt, d, s, [o], true);
    assert us[|us| - 1] == v && us[|us| - 2] == e && us[..|us| - 1] == vs && [o] + [l] == path;
    assert Written(us[|vs|], path) && Written(us[|vs| - 1], path);
    assert NewKeys(d, [l]) == [] by { assert [l][1..] == []; }
    assert [l] + [] == [l];
    DeepValue(lt, d, s, [o], true, l);
    forall j ensures Get(r.vals, j) == Get(map[l := v], j) { DeepValue(lt, d, s, [o], true, j); }
    SameMaps(r.vals, map[l := v]);
    LiteralPrior(lt, o, l, v, e, s, Kept(lt, path, vs));
    forall j | j in r.priors ensures j == l { assert Get(r.priors, j) == DeepPrior(lt, d, s, [o], true, j); }
  }

  lemma {:induction false} LiteralPrior(lt: LetterTest, o: string, l: string, v: Val, e: Val, s: Val,
                                        below: Option<Res>)
    requires Written(v, [o, l]) && Written(e, [o, l]) && s.Obj? && s.vals == map[l := e]
    requires Stands(lt, [o, l], Get(s.priors, l), below)
    ensures Stands(lt, [o, l], Get(DeepMergeAt(lt, Literal(l, v), s, [o], true).priors, l),
                   KeptUnder(lt, [o, l], v, e, below))
  {
    var d, path := Literal(l, v), [o, l];
    assert [o] + [l] == path && path[|path| - 1] == l;
    DirectIsFound(lt, v, path);
    SaveStands(lt, path, e, None, None);
    SaveStands(lt, path, e, Get(s.priors, l), below);
    assert Get(DeepMergeAt(lt, d, s, [o], true).priors, l) == DeepPrior(lt, d, s, [o], true, l);
  }

  lemma {:induction false} StoredLiterals(lt: LetterTest, o: string, l: string, vs: seq<Val>)
    requires vs != [] && AllWritten(o, l, vs)
    ensures IsStored(lt, o, l, vs, Stored(lt, o, Literals(l, vs)))
  {
    var init, v := vs[..|vs| - 1], vs[|vs| - 1];
    if init == [] {
      assert vs == [v];
    } else {
      StoredLiterals(lt, o, l, init);
      assert vs == init + [v] && Literals(l, vs)[..|vs| - 1] == Literals(l, init);
      MergedLiteral(lt, o, l, init, v, Stored(lt, o, Literals(l, init)));
    }
  }

  // ---------- what the values come to ----------

  /** Neither an object nor out of budget. */
  predicate Flat(r: Res) {
    !r.Diverge? && (r.Ok? ==> Concrete(r.v) && !r.v.Obj?)
  }

  predicate FlatBelow(below: Option<Res>) {
    below.Some? ==> Flat(below.value)
  }

  predicate FlatOptions(vs: seq<Option<Val>>) {
    forall i | 0 <= i < |vs| :: vs[i].Some? ==> Concrete(vs[i].value) && !vs[i].value.Obj?
  }

  lemma {:induction false} FlatJoin(acc: Val, vs: seq<Val>)
    requires Concrete(acc) && !acc.Obj? && forall i | 0 <= i < |vs| :: Concrete(vs[i]) && !vs[i].Obj?
    ensures Flat(JoinFrom(acc, vs)) && !JoinFrom(acc, vs).Absent?
    decreases |vs|
  {
    if vs != [] && JoinPair(acc, vs[0]).Some? {
      assert forall i | 0 <= i < |vs[1..]| :: vs[1..][i] == vs[i + 1];
      FlatJoin(JoinPair(acc, vs[0]).value, vs[1..]);
    }
  }

  lemma {:induction false} FlatMeaningful(vs: seq<Option<Val>>)
    requires FlatOptions(vs)
    ensures forall i | 0 <= i < |Meaningful(vs)| :: Concrete(Meaningful(vs)[i]) && !Meaningful(vs)[i].Obj?
  {
    if vs != [] {
      assert forall i | 0 <= i < |vs[1..]| :: vs[1..][i] == vs[i + 1];
      FlatMeaningful(vs[1..]);
    }
  }

  lemma {:induction false} FlatConcat(vs: seq<Option<Val>>)
    requires FlatOptions(vs)
    ensures Flat(JoinConcat(vs)) && (JoinConcat(vs).Absent? ==> forall i | 0 <= i < |vs| :: vs[i].None?)
  {
    var m := Meaningful(vs);
    FlatMeaningful(vs);
    if m != [] && HasContainer(m) {
      assert forall i | 0 <= i < |m[1..]| :: m[1..][i] == m[i + 1];
      FlatJoin(m[0], m[1..]);
    }
    forall i | 0 <= i < |vs| && vs[i].Some? ensures m != [] || HasSeparator(vs) {
      if !IsSeparator(vs[i].value) { SomethingMeant(vs, i); }
    }
  }

  lemma {:induction false} SomethingMeant(vs: seq<Option<Val>>, i: nat)
    requires i < |vs| && vs[i].Some? && !IsSeparator(vs[i].value)
    ensures Meaningful(vs) != []
  {
    if i > 0 { SomethingMeant(vs[1..], i - 1); }
  }

  /** A bit over something flat is flat, and undefined only over nothing. */
  lemma {:induction false} BitIsFlat(lt: LetterTest, v: Val, path: seq<string>, below: Option<Res>)
    requires Bit(v, path) && FlatBelow(below)
    ensures var r := ValueOver(lt, v, below);
            Flat(r) && (r.Absent? && !ContainsSentinel(v) ==> below.None? || below.value.Absent?)
    decreases v, 1
  {
    match v
    case Scalar(_, _, _) =>
    case Subst(_, _, _, _) =>
    case Arr(es) =>
      ElementsAreData(lt, es, path, below);
      if LayerValues(lt, map[], es, below).Vals? { DefinedIsConcrete(LayerValues(lt, map[], es, below).vs); }
    case Concat(ps) =>
      PiecesAreFlat(lt, ps, path, below);
      BitIsFlat(lt, ps[0], path, below);
      if LayerValues(lt, map[], ps, below).Vals? { FlatConcat(LayerValues(lt, map[], ps, below).vs); }
  }

  lemma {:induction false} ElementsAreData(lt: LetterTest, es: seq<Val>, path: seq<string>, below: Option<Res>)
    requires FlatBelow(below) && forall i | 0 <= i < |es| :: Concrete(es[i]) || Bit(es[i], path)
    ensures var r := LayerValues(lt, map[], es, below); !r.SeqDiverge? && (r.Vals? ==> ConcreteOptions(r.vs))
    decreases es, 0
  {
    if es != [] {
      if Concrete(es[0]) { ConcreteLayerValue(lt, map[], es[0], below); } else { BitIsFlat(lt, es[0], path, below); }
      ElementsAreData(lt, es[1..], path, below);
    }
  }

  lemma {:induction false} PiecesAreFlat(lt: LetterTest, ps: seq<Val>, path: seq<string>, below: Option<Res>)
    requires FlatBelow(below) && forall i | 0 <= i < |ps| :: Bit(ps[i], path)
    ensures var r := LayerValues(lt, map[], ps, below);
            !r.SeqDiverge? &&
              (r.Vals? ==> FlatOptions(r.vs) && (ps != [] ==> r.vs[0] == OptionOf(ValueOver(lt, ps[0], below))))
    decreases ps, 0
  {
    if ps != [] {
      BitIsFlat(lt, ps[0], path, below);
      PiecesAreFlat(lt, ps[1..], path, below);
    }
  }

  lemma {:induction false} KeptIsFlat(lt: LetterTest, path: seq<string>, vs: seq<Val>)
    requires forall i | 0 <= i < |vs| :: Written(vs[i], path)
    ensures FlatBelow(Kept(lt, path, vs))
  {
    if |vs| > 1 {
      var init, e := vs[..|vs| - 1], vs[|vs| - 2];
      KeptIsFlat(lt, path, init);
      BitIsFlat(lt, e, path, Kept(lt, path, init));
      BitIsFlat(lt, e, path, None);
    }
  }

  // ---------- phase 2 ----------

  /** Every reference of v gives what lies below. */
  ghost predicate RefsGive(c: Ctx, fuel: nat, v: Val, path: seq<string>, below: Option<Res>) {
    forall id, optional | ContainsId(v, id) ::
      ResolveSubst(c, fuel, Subst(id, path, optional, false)) ==
        RefValue(map[], Subst(id, path, optional, false), below)
  }

  lemma {:induction false} BitResolves(c: Ctx, fuel: nat, v: Val, path: seq<string>, below: Option<Res>)
    requires Bit(v, path) && RefsGive(c, fuel, v, path, below)
    ensures ResolveVal(c, fuel, v) == ValueOver(c.lt, v, below)
    decreases v, 1
  {
    match v
    case Scalar(_, _, _) =>
    case Subst(id, _, optional, absent) => if !absent { assert ContainsId(v, id); }
    case Arr(es) => BitsResolve(c, fuel, v, es, path, below);
    case Concat(ps) => BitsResolve(c, fuel, v, ps, path, below);
  }

  lemma {:induction false} BitsResolve(c: Ctx, fuel: nat, v: Val, vs: seq<Val>, path: seq<string>, below: Option<Res>)
    requires RefsGive(c, fuel, v, path, below) && forall i | 0 <= i < |vs| :: Concrete(vs[i]) || Bit(vs[i], path)
    requires forall i, id | 0 <= i < |vs| && ContainsId(vs[i], id) :: ContainsId(v, id)
    ensures ResolveAll(c, fuel, vs) == LayerValues(c.lt, map[], vs, below)
    decreases vs, 0
  {
    if vs != [] {
      if Concrete(vs[0]) {
        ConcreteResolvesToItself(c, fuel, vs[0]);
        ConcreteLayerValue(c.lt, map[], vs[0], below);
      } else {
        assert forall id | ContainsId(vs[0], id) :: ContainsId(v, id);
        BitResolves(c, fuel, vs[0], path, below);
      }
      assert forall i | 0 <= i < |vs[1..]| :: vs[1..][i] == vs[i + 1];
      BitsResolve(c, fuel, v, vs[1..], path, below);
    }
  }

  lemma {:induction false} StillHasNoId(lt: LetterTest, v: Val, path: seq<string>, id: nat)
    requires (Bit(v, path) || Concrete(v)) && !Mentions(lt, v, KeyOf(lt, path))
    ensures !ContainsId(v, id)
    decreases v
  {
    if Concrete(v) {
      ConcreteHasNoId(v, id);
    } else {
      match v
      case Scalar(_, _, _) =>
      case Subst(_, _, _, _) =>
      case Arr(es) => forall i | 0 <= i < |es| { StillHasNoId(lt, es[i], path, id); }
      case Concat(ps) => forall i | 0 <= i < |ps| { StillHasNoId(lt, ps[i], path, id); }
    }
  }

  lemma {:induction false} PriorResolves(c: Ctx, fuel: nat, path: seq<string>, p: Val)
    requires Bit(p, path) && !Mentions(c.lt, p, KeyOf(c.lt, path))
    ensures ResolveVal(c, fuel, p) == ValueOver(c.lt, p, None)
  {
    forall id ensures !ContainsId(p, id) { StillHasNoId(c.lt, p, path, id); }
    BitResolves(c, fuel, p, path, None);
  }

  lemma {:induction false} ReplacedIsNoShorter(s: string, c: char, into: string)
    requires into != ""
    ensures |ReplaceAll(s, c, into)| >= |s|
  {
    if s != "" { ReplacedIsNoShorter(s[1..], c, into); }
  }

  lemma {:induction false} EscapeLengthens(s: string)
    ensures |Escape(s)| >= |s|
  {
    ReplacedIsNoShorter(s, '\\', "\\\\");
    ReplacedIsNoShorter(ReplaceAll(s, '\\', "\\\\"), '"', "\\\"");
  }

  lemma {:induction false} NotTheField(lt: LetterTest, o: string, l: string)
    ensures KeyOf(lt, [o, l]) != o && KeyOf(lt, [o, l]) != KeyOf(lt, [o])
  {
    EscapeLengthens(o);
    KeysNeverCollide(lt, [o, l], [o]);
    var parts := Parts(lt, [o, l]);
    assert parts[0] == Paths.Part(lt, o) && |parts| == 2 && parts[1..] == [parts[1]];
    assert Join(parts) == parts[0] + "." + Join(parts[1..]) && Join(parts[1..]) == parts[1];
  }

  /** The root that these literals build, seen from within it. */
  ghost predicate Within(c: Ctx, o: string, l: string, vs: seq<Val>) {
    && vs != [] && AllWritten(o, l, vs) && c.root.Obj? && o in c.root.vals && IsStored(c.lt, o, l, vs, c.root.vals[o])
    && (forall j | j in c.top :: j == o) && c.cache == map[] && c.field == [o, l]
  }

  lemma {:induction false} FieldPrior(c: Ctx, o: string, l: string, vs: seq<Val>)
    requires Within(c, o, l, vs)
    ensures var p := Get(c.root.vals[o].priors, l);
            FindPrior(c, [o, l], KeyOf(c.lt, [o, l])) == p && PriorAt(c.root, [o, l]) == p
    ensures Lookup(c.root, [o, l]) == Some(vs[|vs| - 1])
  {
    var path := [o, l];
    NotTheField(c.lt, o, l);
    assert path[..1] == [o] && path[1] == l && path[1..] == [l];
    assert Lookup(c.root, [o]) == Some(c.root.vals[o]);
  }

  /** References of the last value look back. */
  lemma {:induction false} LastLooksBack(c: Ctx, fuel: nat, o: string, l: string, vs: seq<Val>)
    requires Within(c, o, l, vs) && fuel > 1
    ensures RefsGive(c, fuel, vs[|vs| - 1], [o, l], Kept(c.lt, [o, l], vs))
    ensures ResolveVal(c, fuel, vs[|vs| - 1]) == ValueOver(c.lt, vs[|vs| - 1], Kept(c.lt, [o, l], vs))
  {
    var path, v, key := [o, l], vs[|vs| - 1], KeyOf(c.lt, [o, l]);
    FieldPrior(c, o, l, vs);
    var p := Get(c.root.vals[o].priors, l);
    forall id, optional | ContainsId(v, id)
      ensures ResolveSubst(c, fuel, Subst(id, path, optional, false)) ==
              RefValue(map[], Subst(id, path, optional, false), Kept(c.lt, path, vs)) {
      var s, c' := Subst(id, path, optional, false), c.(resolving := c.resolving + {key});
      assert FindPrior(c', path, key) == FindPrior(c, path, key);
      assert ResolveSubst(c, fuel, s) == ResolveBack(if key in c.resolving then c else c', fuel, s);
      if p.Some? { PriorResolves(if key in c.resolving then c else c', fuel - 1, path, p.value); }
    }
    BitResolves(c, fuel, v, path, Kept(c.lt, path, vs));
  }

  /** References of another value are resolved through the last one. */
  lemma {:induction false} OthersGoThrough(c: Ctx, fuel: nat, o: string, l: string, vs: seq<Val>, e: Val)
    requires Within(c, o, l, vs) && fuel > 2 && KeyOf(c.lt, [o, l]) !in c.resolving && Bit(e, [o, l])
    requires NoneShared(e, vs[|vs| - 1])
    ensures ResolveVal(c, fuel, e) == ValueOver(c.lt, e, Some(ValueOver(c.lt, vs[|vs| - 1], Kept(c.lt, [o, l], vs))))
  {
    var path, v, key := [o, l], vs[|vs| - 1], KeyOf(c.lt, [o, l]);
    var want, c' := ValueOver(c.lt, v, Kept(c.lt, path, vs)), c.(resolving := c.resolving + {key});
    FieldPrior(c, o, l, vs);
    LastLooksBack(c', fuel - 1, o, l, vs);
    KeptIsFlat(c.lt, path, vs);
    assert Written(v, path);
    BitIsFlat(c.lt, v, path, Kept(c.lt, path, vs));
    var p := Get(c.root.vals[o].priors, l);
    forall id, optional | ContainsId(e, id)
      ensures ResolveSubst(c, fuel, Subst(id, path, optional, false)) ==
              RefValue(map[], Subst(id, path, optional, false), Some(want)) {
      if p.Some? { PriorResolves(c', fuel - 1, path, p.value); }
    }
    BitResolves(c, fuel, e, path, Some(want));
  }

  // ---------- the whole document ----------

  /** What the field comes to. */
  function Final(lt: LetterTest, path: seq<string>, vs: seq<Val>): Res
    requires vs != []
  {
    ValueOver(lt, vs[|vs| - 1], Kept(lt, path, vs))
  }

  /** What the field of the object before the last literal comes to, the prior of the
      whole object: its references reach the final value. */
  function Earlier(lt: LetterTest, path: seq<string>, vs: seq<Val>): Res
    requires |vs| > 1
  {
    var init := vs[..|vs| - 1];
    var r, below := ValueOver(lt, init[|init| - 1], Some(Final(lt, path, vs))), Kept(lt, path, init);
    if r.Absent? && below.Some? then below.value else r
  }

  function Holding(l: string, r: Res): (o: Val)
    ensures o.Obj?
  {
    if r.Ok? then Literal(l, r.v) else EMPTY_OBJ
  }

  /** The reference nodes of the last two values are different ones. */
  ghost predicate OwnReferences(vs: seq<Val>) {
    |vs| > 1 ==> NoneShared(vs[|vs| - 2], vs[|vs| - 1])
  }

  ghost predicate NoneShared(e: Val, v: Val) {
    forall id | ContainsId(e, id) :: !ContainsId(v, id)
  }

  /** The root that the literals build. */
  ghost predicate IsRow(lt: LetterTest, root: Val, o: string, l: string, vs: seq<Val>) {
    && vs != [] && AllWritten(o, l, vs) && root.Obj? && root.keys == [o] && o in root.vals
    && IsStored(lt, o, l, vs, root.vals[o]) && (forall j | j in root.priors :: j == o)
    && (o in root.priors <==> |vs| > 1) && (|vs| > 1 ==> IsStored(lt, o, l, vs[..|vs| - 1], root.priors[o]))
  }

  lemma {:induction false} ObjectHasNoHit(lt: LetterTest, o: string, l: string, v: Val, s: Val, r: Option<Val>)
    requires Written(v, [o, l]) && s.Obj? && s.vals == map[l := v]
    ensures FoldOrSkip(lt, s, KeyOf(lt, [o]), r) == Some(s)
  {
    NoHitInside(lt, v, o, l, r);
    assert !FoldSelfRef(lt, s, KeyOf(lt, [o]), r, true).hit;
  }

  lemma {:induction false} NoHitInside(lt: LetterTest, v: Val, o: string, l: string, r: Option<Val>)
    requires Bit(v, [o, l]) || Concrete(v)
    ensures !FoldSelfRef(lt, v, KeyOf(lt, [o]), r, false).hit
    decreases v
  {
    if Concrete(v) {
      ConcreteHasNoPlaceholders(v);
      SavedAsIs(lt, v, KeyOf(lt, [o]), false);
      HitIgnoresReplacement(lt, v, KeyOf(lt, [o]), r, false);
    } else {
      match v
      case Scalar(_, _, _) =>
      case Subst(_, _, _, _) => NotTheField(lt, o, l);
      case Arr(es) => forall i | 0 <= i < |es| { NoHitInside(lt, es[i], o, l, r); }
      case Concat(ps) => forall i | 0 <= i < |ps| { NoHitInside(lt, ps[i], o, l, r); }
    }
  }

  lemma {:induction false} RowsAssign(o: string, l: string, vs: seq<Val>, j: string)
    ensures AssignedTo(Rows(o, l, vs), j) == if j == o then Literals(l, vs) else []
    ensures KeysOf(Rows(o, l, vs)) == if vs == [] then [] else [o]
  {
    if vs != [] {
      var init := vs[..|vs| - 1];
      RowsAssign(o, l, init, j);
      assert Rows(o, l, vs)[..|vs| - 1] == Rows(o, l, init);
      assert j == o ==> Literals(l, vs) == Literals(l, init) + [Literal(l, vs[|vs| - 1])];
      assert [] + [o] == [o] && o in [o];
    }
  }

  /** The prior of the whole object is the object before the last literal. */
  lemma {:induction false} RowsPrior(lt: LetterTest, o: string, l: string, vs: seq<Val>)
    requires |vs| > 1 && AllWritten(o, l, vs)
    ensures PriorOf(lt, o, Literals(l, vs)) == Some(Stored(lt, o, Literals(l, vs[..|vs| - 1])))
    ensures IsStored(lt, o, l, vs[..|vs| - 1], Stored(lt, o, Literals(l, vs[..|vs| - 1])))
  {
    var lits, init := Literals(l, vs), vs[..|vs| - 1];
    assert lits == Literals(l, init) + [lits[|vs| - 1]];
    StoredLiterals(lt, o, l, init);
    PriorOfNext(lt, o, Literals(l, init), lits[|vs| - 1]);
    assert init[|init| - 1] == vs[|vs| - 2] && Written(vs[|vs| - 2], [o, l]);
    ObjectHasNoHit(lt, o, l, init[|init| - 1], Stored(lt, o, Literals(l, init)), PriorOf(lt, o, Literals(l, init)));
  }

  lemma {:induction false} RowsBuild(lt: LetterTest, o: string, l: string, vs: seq<Val>)
    requires vs != [] && AllWritten(o, l, vs)
    ensures IsRow(lt, AssignAll(lt, Rows(o, l, vs)).obj, o, l, vs)
  {
    var fields, root, lits := Rows(o, l, vs), AssignAll(lt, Rows(o, l, vs)).obj, Literals(l, vs);
    RowsAssign(o, l, vs, o);
    TreeIsBuilt(lt, fields, o);
    RootKeys(lt, fields);
    StoredLiterals(lt, o, l, vs);
    if |vs| > 1 { RowsPrior(lt, o, l, vs); } else { NoPriorYet(lt, o, lits); }
    forall j | j in root.priors ensures j == o {
      RowsAssign(o, l, vs, j);
      TreeIsBuilt(lt, fields, j);
    }
  }

  lemma {:induction false} NoPriorYet(lt: LetterTest, o: string, lits: seq<Val>)
    requires |lits| == 1
    ensures PriorOf(lt, o, lits) == None
  {
    assert lits[..0] == [];
  }

  /** One field of an object, over the prior next to it. */
  lemma {:induction false} OneField(c: Ctx, fuel: nat, s: Val, l: string, r: Res)
    requires s.Obj? && s.keys == [l] && ResolveField(c, fuel, s, l) == r && !r.Diverge?
    ensures ResolveVal(c, fuel, s) == if Settles(r) then Ok(Holding(l, r)) else Fail
  {
    assert [l][1..] == [] && [] + [l] == [l];
    var acc := if r.Ok? then Set(EMPTY_OBJ, l, r.v) else EMPTY_OBJ;
    assert ResolveFields(c, fuel, s, [], false, acc) == Built(acc, c.cache);
    assert Settles(r) ==> ResolveFields(c, fuel, s, [l], false, EMPTY_OBJ) == Built(acc, c.cache);
    assert r.Ok? ==> EMPTY_OBJ.vals[l := r.v] == map[l := r.v];
  }

  ghost predicate AtRoot(c: Ctx, o: string, l: string, vs: seq<Val>) {
    IsRow(c.lt, c.root, o, l, vs) && c.top == c.root.priors && c.cache == map[] && c.field == [] && c.resolving == {}
  }

  lemma {:induction false} LastObject(c: Ctx, fuel: nat, o: string, l: string, vs: seq<Val>)
    requires AtRoot(c, o, l, vs) && fuel > 1
    ensures var w := Final(c.lt, [o, l], vs);
            Flat(w) && ResolveVal(c.(field := [o]), fuel, c.root.vals[o]) ==
              if Settles(w) then Ok(Holding(l, w)) else Fail
  {
    var path, c1, s := [o, l], c.(field := [o]), c.root.vals[o];
    var c2, w := c1.(field := c1.field + [l]), Final(c.lt, path, vs);
    assert c1.field + [l] == path && Within(c2, o, l, vs);
    LastLooksBack(c2, fuel, o, l, vs);
    KeptIsFlat(c.lt, path, vs);
    assert Written(vs[|vs| - 1], path);
    BitIsFlat(c.lt, vs[|vs| - 1], path, Kept(c.lt, path, vs));
    if l in s.priors { PriorResolves(c2, fuel, path, s.priors[l]); }
    OneField(c1, fuel, s, l, w);
  }

  lemma {:induction false} EarlierObject(c: Ctx, fuel: nat, o: string, l: string, vs: seq<Val>)
    requires AtRoot(c, o, l, vs) && fuel > 2 && |vs| > 1 && OwnReferences(vs)
    ensures var r := Earlier(c.lt, [o, l], vs);
            && !r.Diverge?
            && ResolveVal(c.(field := [o]), fuel, c.root.priors[o]) == if Settles(r) then Ok(Holding(l, r)) else Fail
  {
    var path, c1, s, init := [o, l], c.(field := [o]), c.root.priors[o], vs[..|vs| - 1];
    var c2, w, e := c1.(field := c1.field + [l]), Final(c.lt, path, vs), init[|init| - 1];
    assert c1.field + [l] == path && Within(c2, o, l, vs) && e == vs[|vs| - 2];
    assert Written(e, path) && Written(vs[|vs| - 1], path);
    OthersGoThrough(c2, fuel, o, l, vs, e);
    KeptIsFlat(c.lt, path, vs);
    KeptIsFlat(c.lt, path, init);
    BitIsFlat(c.lt, vs[|vs| - 1], path, Kept(c.lt, path, vs));
    BitIsFlat(c.lt, e, path, Some(w));
    if l in s.priors { PriorResolves(c2, fuel, path, s.priors[l]); }
    OneField(c1, fuel, s, l, Earlier(c.lt, path, vs));
  }

  /** The outcome: the last object over the one before it. */
  function Row(lt: LetterTest, o: string, l: string, vs: seq<Val>): Res
    requires vs != []
  {
    var w := Final(lt, [o, l], vs);
    if !Settles(w) then Fail
    else if |vs| == 1 then Ok(Literal(o, Holding(l, w)))
    else
      var e := Earlier(lt, [o, l], vs);
      if !Settles(e) then Fail else Ok(Literal(o, Holding(l, if w.Ok? then w else e)))
  }

  lemma {:induction false} HeldOver(lt: LetterTest, l: string, w: Res, e: Res)
    requires Settles(w) && Settles(e) && Flat(w)
    ensures DeepMerge(lt, Holding(l, w), Holding(l, e)) == Holding(l, if w.Ok? then w else e)
  {
    var a, b := Holding(l, w), Holding(l, e);
    var r, want := DeepMerge(lt, a, b), Holding(l, if w.Ok? then w else e);
    if w.Ok? { ConcreteHasNoSentinel(w.v); }
    forall j ensures Get(r.vals, j) == Get(want.vals, j) { DeepValue(lt, a, b, [], false, j); }
    SameMaps(r.vals, want.vals);
    assert [l][1..] == [] && NewKeys(a, []) == [];
    assert NewKeys(a, [l]) == if w.Ok? then [] else [l];
    assert [l] + [] == [l] && [] + [l] == [l];
    assert r.priors == map[];
  }

  /** Literals of one field in a row, its values referring to its path, are resolved to
      this, failures included. */
  lemma {:induction false} RowsResolve(lt: LetterTest, o: string, l: string, vs: seq<Val>, fuel: nat)
    requires vs != [] && AllWritten(o, l, vs) && OwnReferences(vs) && fuel > 2
    ensures ResolveTree(lt, AssignAll(lt, Rows(o, l, vs)).obj, fuel) == Row(lt, o, l, vs)
  {
    var root := AssignAll(lt, Rows(o, l, vs)).obj;
    var c, w := Start(lt, root), Final(lt, [o, l], vs);
    RowsBuild(lt, o, l, vs);
    LastObject(c, fuel, o, l, vs);
    assert c.field + [o] == [o];
    if |vs| > 1 {
      EarlierObject(c, fuel, o, l, vs);
      var e := Earlier(lt, [o, l], vs);
      if Settles(w) && Settles(e) { HeldOver(lt, l, w, e); }
    }
    OneRootField(c, fuel, o, Row(lt, o, l, vs));
  }

  /** A root of one field. */
  lemma {:induction false} OneRootField(c: Ctx, fuel: nat, o: string, r: Res)
    requires c.root.Obj? && c == Start(c.lt, c.root) && c.root.keys == [o]
    requires match ResolveField(c, fuel, c.root, o)
             case Ok(v) => r == Ok(Literal(o, v))
             case Fail => r == Fail
             case _ => false
    ensures ResolveTree(c.lt, c.root, fuel) == r
  {
    assert [o][1..] == [] && [] + [o] == [o];
    var x := ResolveField(c, fuel, c.root, o);
    if x.Ok? {
      var c', acc := c.(cache := c.cache[KeyOf(c.lt, [o]) := x.v]), Set(EMPTY_OBJ, o, x.v);
      assert EMPTY_OBJ.vals[o := x.v] == map[o := x.v];
      assert ResolveFields(c', fuel, c.root, [], true, acc) == Built(acc, c'.cache);
      assert ResolveFields(c, fuel, c.root, [o], true, EMPTY_OBJ) == Built(acc, c'.cache);
    }
  }

  // ---------- against the layers ----------

  /** What the values come to, layer by layer. */
  function LayersBelow(lt: LetterTest, path: seq<string>, vs: seq<Val>): Option<Res> {
    if vs == [] then None else Stack(lt, path, vs[|vs| - 1], LayersBelow(lt, path, vs[..|vs| - 1]))
  }

  function Layer(lt: LetterTest, path: seq<string>, vs: seq<Val>): Res
    requires vs != []
  {
    ValueOver(lt, vs[|vs| - 1], LayersBelow(lt, path, vs[..|vs| - 1]))
  }

  predicate Looks(lt: LetterTest, v: Val, path: seq<string>) {
    Mentions(lt, v, KeyOf(lt, path))
  }

  /** Where a value looks back, and the one before it does too, one of its references
      stands outside arrays. */
  predicate Seen(lt: LetterTest, path: seq<string>, vs: seq<Val>) {
    |vs| <= 1 ||
    (&& Seen(lt, path, vs[..|vs| - 1])
     && (Looks(lt, vs[|vs| - 1], path) && Looks(lt, vs[|vs| - 2], path) ==> Direct(vs[|vs| - 1])))
  }

  lemma {:induction false} KeptIsLayers(lt: LetterTest, path: seq<string>, vs: seq<Val>)
    requires vs != [] && Seen(lt, path, vs) && Looks(lt, vs[|vs| - 1], path)
    requires forall i | 0 <= i < |vs| :: Written(vs[i], path)
    ensures Kept(lt, path, vs) == LayersBelow(lt, path, vs[..|vs| - 1])
  {
    if |vs| > 1 {
      var v, e, init := vs[|vs| - 1], vs[|vs| - 2], vs[..|vs| - 1];
      assert init[|init| - 1] == e && Written(vs[|vs| - 2], path);
      if Looks(lt, e, path) {
        KeptIsLayers(lt, path, init);
      } else {
        StillNeedsNothing(lt, e, path);
        StillOver(lt, e, path, Kept(lt, path, init), LayersBelow(lt, path, init[..|init| - 1]));
        StillOver(lt, e, path, None, LayersBelow(lt, path, init[..|init| - 1]));
      }
    } else {
      assert vs[..0] == [];
    }
  }

  lemma {:induction false} FinalIsLayer(lt: LetterTest, path: seq<string>, vs: seq<Val>)
    requires vs != [] && Seen(lt, path, vs) && forall i | 0 <= i < |vs| :: Written(vs[i], path)
    ensures Final(lt, path, vs) == Layer(lt, path, vs)
  {
    var v := vs[|vs| - 1];
    if Looks(lt, v, path) {
      KeptIsLayers(lt, path, vs);
    } else {
      assert Written(v, path);
      StillOver(lt, v, path, Kept(lt, path, vs), LayersBelow(lt, path, vs[..|vs| - 1]));
    }
  }

  /** Where every value that looks back past another one that does has a reference
      outside arrays, the field comes to its layers: if they come to a value, the whole
      document does, exactly when the literal before the last one can be read over that
      value too. */
  lemma {:induction false} RowsAreLayers(lt: LetterTest, o: string, l: string, vs: seq<Val>, w: Val, fuel: nat)
    requires vs != [] && AllWritten(o, l, vs) && OwnReferences(vs) && Seen(lt, [o, l], vs) && fuel > 2
    requires Layer(lt, [o, l], vs) == Ok(w)
    ensures ResolveTree(lt, AssignAll(lt, Rows(o, l, vs)).obj, fuel) == Ok(Literal(o, Literal(l, w))) <==>
            |vs| > 1 ==> Settles(Earlier(lt, [o, l], vs))
  {
    FinalIsLayer(lt, [o, l], vs);
    RowsResolve(lt, o, l, vs, fuel);
  }
}
