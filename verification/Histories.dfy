/**
 Self-references that are reached from other fields, where the order of fields
 decides.  In o { h = ${o} } the reference means the old o; reached from another
 field through o.h it is looked up in the cache first
 (internal/resolver/resolver.go:929-938), and once o has been walked the cache holds
 the new one.  In o = ${o.h} it means the old o.h, but only while o is the field
 being walked (internal/resolver/resolver.go:895-921).
 */
module Histories {
  import opened Paths
  import opened Values
  import opened Merge
  import opened MergeLaws
  import opened Concats
  import opened Resolve
  import opened ResolveLaws

  /** The key o, whose present value "own" refers to o at its key h; "was" is the
      value it had before. */
  datatype History = History(o: string, h: string, id: nat, optional: bool, own: Val, was: Val)

  function SelfRef(d: History): Val {
    Subst(d.id, [d.o], d.optional, false)
  }

  /** The present value with the old one at h. */
  function Kept(d: History): Val
    requires d.own.Obj?
  {
    Obj(d.own.keys, d.own.vals[d.h := d.was], d.own.priors)
  }

  /** What the field o comes to: the two values of o are merged if both are objects. */
  function Latest(lt: LetterTest, d: History): Val
    requires d.own.Obj?
  {
    if d.was.Obj? then DeepMerge(lt, Kept(d), d.was) else Kept(d)
  }

  /** A reference to o.h from outside. */
  predicate Outside(v: Val, d: History) {
    v.Subst? && v.segs == [d.o, d.h] && !v.knownAbsent && v.id != d.id
  }

  ghost predicate IsHistory(lt: LetterTest, d: History) {
    && d.own.Obj? && Get(d.own.vals, d.h) == Some(SelfRef(d)) && Concrete(Kept(d)) && Concrete(d.was)
    && KeyOf(lt, [d.o, d.h]) != d.o
  }

  /** The tree holds the history, references to o.h and data, in any order. */
  ghost predicate Holds(lt: LetterTest, tree: Val, d: History) {
    && IsHistory(lt, d) && tree.Obj? && KeysMatch(tree) && tree.priors == map[d.o := d.was]
    && Get(tree.vals, d.o) == Some(d.own)
    && forall k | k in tree.vals && k != d.o :: Concrete(tree.vals[k]) || Outside(tree.vals[k], d)
  }

  /** a comes before b, or stands there without b. */
  predicate Precedes(keys: seq<string>, a: string, b: string) {
    keys != [] && (keys[0] == a || (keys[0] != b && Precedes(keys[1..], a, b)))
  }

  // ---------- the reference inside ----------

  ghost predicate Inside(c: Ctx, d: History) {
    Holds(c.lt, c.root, d) && c.top == c.root.priors && c.field != []
  }

  lemma {:induction false} OldIsFound(c: Ctx, d: History)
    requires Inside(c, d)
    ensures FindPrior(c, [d.o], KeyOf(c.lt, [d.o])) == Some(d.was)
    ensures Lookup(c.root, [d.o]) == Some(d.own) && ContainsId(d.own, d.id)
  {
    assert ContainsId(d.own.vals[d.h], d.id);
  }

  /** While o is not cached its self-reference means the old o. */
  lemma {:induction false} LooksBackAtOld(c: Ctx, fuel: nat, d: History)
    requires Inside(c, d) && KeyOf(c.lt, [d.o]) !in c.cache && fuel > 0
    ensures ResolveVal(c, fuel, SelfRef(d)) == Ok(d.was)
  {
    var s, key := SelfRef(d), KeyOf(c.lt, [d.o]);
    var c' := c.(resolving := c.resolving + {key});
    OldIsFound(c, d);
    ConcreteResolvesToItself(c, fuel - 1, d.was);
    ConcreteResolvesToItself(c', fuel - 1, d.was);
    assert FindPrior(c', [d.o], key) == Some(d.was);
    assert ResolveSubst(c, fuel, s) == ResolveBack(if key in c.resolving then c else c', fuel, s);
  }

  lemma {:induction false} FindsCached(c: Ctx, fuel: nat, d: History)
    requires Inside(c, d) && KeyOf(c.lt, [d.o]) in c.cache && fuel > 0
    ensures ResolveVal(c, fuel, SelfRef(d)) == Ok(c.cache[KeyOf(c.lt, [d.o])])
  {
    assert ResolveSubst(c, fuel, SelfRef(d)) == Ok(c.cache[KeyOf(c.lt, [d.o])]);
  }

  // ---------- the field o ----------

  lemma {:induction false} OwnResolves(c: Ctx, fuel: nat, d: History)
    requires Inside(c, d) && KeyOf(c.lt, [d.o]) !in c.cache && fuel > 0
    ensures ResolveVal(c, fuel, d.own) == Ok(Kept(d))
  {
    var kept := Kept(d);
    forall i | 0 <= i < |d.own.keys|
      ensures ResolveField(c, fuel, d.own, d.own.keys[i]) == ResolveField(c, fuel, kept, d.own.keys[i]) {
      var k := d.own.keys[i];
      var c' := c.(field := c.field + [k]);
      assert k in kept.vals;
      ConcreteResolvesToItself(c', fuel, kept.vals[k]);
      if k == d.h {
        LooksBackAtOld(c', fuel, d);
      } else {
        assert d.own.vals[k] == kept.vals[k];
      }
    }
    SameFields(c, fuel, d.own, kept, d.own.keys, EMPTY_OBJ);
    ConcreteResolvesToItself(c, fuel, kept);
    assert ResolveVal(c, fuel, d.own) == ResolveVal(c, fuel, kept);
  }

  ghost predicate AtRoot(c: Ctx, d: History) {
    Holds(c.lt, c.root, d) && c.top == c.root.priors && c.field == [] && c.resolving == {}
  }

  lemma {:induction false} HistoryField(c: Ctx, fuel: nat, d: History)
    requires AtRoot(c, d) && KeyOf(c.lt, [d.o]) !in c.cache && fuel > 0
    ensures ResolveField(c, fuel, c.root, d.o) == Ok(Latest(c.lt, d))
  {
    var c' := c.(field := c.field + [d.o]);
    OwnResolves(c', fuel, d);
    ConcreteResolvesToItself(c', fuel, d.was);
  }

  // ---------- a reference from outside ----------

  /** The cache holds root fields only, o at its latest if at all. */
  ghost predicate CacheIs(c: Ctx, d: History, seen: bool) {
    && (KeyOf(c.lt, [d.o]) in c.cache <==> seen) &&
      (seen ==> IsHistory(c.lt, d) && c.cache[KeyOf(c.lt, [d.o])] == Latest(c.lt, d))
    && KeyOf(c.lt, [d.o, d.h]) !in c.cache
  }

  lemma {:induction false} NothingAtHistory(c: Ctx, d: History)
    requires Inside(c, d)
    ensures Lookup(c.root, [d.o, d.h]) == Some(SelfRef(d))
    ensures FindPrior(c, [d.o, d.h], KeyOf(c.lt, [d.o, d.h])) == None && PriorAt(c.root, [d.o, d.h]) == None
  {
    assert [d.o, d.h][1..] == [d.h] && [d.o, d.h][..1] == [d.o];
  }

  lemma {:induction false} OutsideField(c: Ctx, fuel: nat, d: History, k: string, seen: bool)
    requires AtRoot(c, d) && CacheIs(c, d, seen) && k in c.root.vals && k != d.o && Outside(c.root.vals[k], d) &&
             fuel >= 2
    ensures ResolveField(c, fuel, c.root, k) == Ok(if seen then Latest(c.lt, d) else d.was)
  {
    var r, c' := c.root.vals[k], c.(field := c.field + [k]);
    var d' := c'.(resolving := c'.resolving + {KeyOf(c.lt, r.segs)});
    NothingAtHistory(c', d);
    if seen { FindsCached(d', fuel - 1, d); } else { LooksBackAtOld(d', fuel - 1, d); }
    assert !LooksBelow(c', r) by {
      KeysNeverCollide(c.lt, [d.o], [k]);
      assert r.segs[..1] == [d.o];
    }
    assert ResolveSubst(c', fuel, r) == ResolveVal(d', fuel - 1, SelfRef(d));
  }

  // ---------- the whole run ----------

  /** What a field comes to, o having been walked before these keys or not. */
  function ValueAt(lt: LetterTest, tree: Val, d: History, keys: seq<string>, seen: bool, k: string): Val
    requires tree.Obj? && d.own.Obj? && k in tree.vals
  {
    if k == d.o then Latest(lt, d)
    else if !Outside(tree.vals[k], d) then tree.vals[k]
    else if seen || Precedes(keys, d.o, k) then Latest(lt, d)
    else d.was
  }

  lemma {:induction false} OneField(c: Ctx, fuel: nat, d: History, keys: seq<string>, seen: bool)
    requires AtRoot(c, d) && CacheIs(c, d, seen) && fuel >= 2 && keys != [] && keys[0] in c.root.vals &&
             (keys[0] == d.o ==> !seen)
    ensures ResolveField(c, fuel, c.root, keys[0]) == Ok(ValueAt(c.lt, c.root, d, keys, seen, keys[0]))
  {
    var k := keys[0];
    if k == d.o {
      HistoryField(c, fuel, d);
    } else if Outside(c.root.vals[k], d) {
      OutsideField(c, fuel, d, k, seen);
    } else {
      ConcreteResolvesToItself(c.(field := c.field + [k]), fuel, c.root.vals[k]);
    }
  }

  lemma {:induction false} CacheField(c: Ctx, d: History, seen: bool, k: string, v: Val)
    requires AtRoot(c, d) && CacheIs(c, d, seen) && (k == d.o ==> v == Latest(c.lt, d))
    ensures CacheIs(c.(cache := c.cache[KeyOf(c.lt, [k]) := v]), d, seen || k == d.o)
  {
    KeysNeverCollide(c.lt, [k], [d.o]);
    KeysNeverCollide(c.lt, [k], [d.o, d.h]);
  }

  /** The object gives the keys their values, and the others what acc has. */
  ghost predicate Gives(lt: LetterTest, r: Val, tree: Val, d: History, keys: seq<string>, seen: bool, acc: Val)
    requires r.Obj? && tree.Obj? && acc.Obj? && d.own.Obj?
  {
    forall k :: Get(r.vals, k) ==
      if k in keys && k in tree.vals then Some(ValueAt(lt, tree, d, keys, seen, k)) else Get(acc.vals, k)
  }

  lemma {:induction false} GivesOneMore(lt: LetterTest, r: Val, tree: Val, d: History, keys: seq<string>, seen: bool,
                                        acc: Val)
    requires r.Obj? && tree.Obj? && acc.Obj? && d.own.Obj? && keys != [] && keys[0] !in keys[1..] &&
             keys[0] in tree.vals
    requires Gives(lt, r, tree, d, keys[1..], seen || keys[0] == d.o,
                   Set(acc, keys[0], ValueAt(lt, tree, d, keys, seen, keys[0])))
    ensures Gives(lt, r, tree, d, keys, seen, acc)
  {
    assert forall j :: j in keys <==> j == keys[0] || j in keys[1..];
  }

  lemma {:induction false} WalkHistory(c: Ctx, fuel: nat, d: History, keys: seq<string>, seen: bool, acc: Val)
    requires AtRoot(c, d) && CacheIs(c, d, seen) && fuel >= 2 && acc.Obj? && Distinct(keys) && (seen ==> d.o !in keys)
    requires forall k | k in keys :: k in c.root.vals
    ensures var r := ResolveFields(c, fuel, c.root, keys, true, acc);
            r.Built? && Gives(c.lt, r.o, c.root, d, keys, seen, acc)
    decreases |keys|
  {
    if keys != [] {
      var k := keys[0];
      assert k in keys && k !in keys[1..];
      OneField(c, fuel, d, keys, seen);
      var v := ValueAt(c.lt, c.root, d, keys, seen, k);
      CacheField(c, d, seen, k, v);
      var c' := c.(cache := c.cache[KeyOf(c.lt, [k]) := v]);
      WalkHistory(c', fuel, d, keys[1..], seen || k == d.o, Set(acc, k, v));
      GivesOneMore(c.lt, ResolveFields(c, fuel, c.root, keys, true, acc).o, c.root, d, keys, seen, acc);
    }
  }

  /** Every field of such a tree: a reference from outside gives the old o exactly
      when its field stands before o. */
  lemma {:induction false} HistoryResolves(lt: LetterTest, tree: Val, d: History, fuel: nat)
    requires Holds(lt, tree, d) && fuel >= 2
    ensures var r := ResolveTree(lt, tree, fuel);
            && r.Ok? && r.v.Obj? && r.v.vals.Keys == tree.vals.Keys
            && forall k | k in tree.vals :: k in r.v.vals && r.v.vals[k] == ValueAt(lt, tree, d, tree.keys, false, k)
  {
    WalkHistory(Start(lt, tree), fuel, d, tree.keys, false, EMPTY_OBJ);
    var r := ResolveTree(lt, tree, fuel).v;
    forall k ensures Get(r.vals, k) ==
      if k in tree.vals then Some(ValueAt(lt, tree, d, tree.keys, false, k)) else None {
      assert k in tree.keys <==> k in tree.vals;
    }
    forall k ensures k in r.vals <==> k in tree.vals {
      assert Get(r.vals, k) == if k in tree.vals then Some(ValueAt(lt, tree, d, tree.keys, false, k)) else None;
    }
    forall k | k in tree.vals ensures r.vals[k] == ValueAt(lt, tree, d, tree.keys, false, k) {
      assert Get(r.vals, k) == Some(ValueAt(lt, tree, d, tree.keys, false, k));
    }
  }

  // ---------- the old o is never the new one ----------

  /** No object has at a key its own merge with what it has there. */
  lemma {:induction false} NotItsOwnMerge(lt: LetterTest, a: Val, h: string, path: seq<string>)
    requires a.Obj? && Concrete(a) && h in a.vals && a.vals[h].Obj?
    ensures a.vals[h] != DeepMergeAt(lt, a, a.vals[h], path, false)
  {
    var b := a.vals[h];
    DeepValue(lt, a, b, path, false, h);
    ConcreteHasNoSentinel(b);
    if h in b.vals && b.vals[h].Obj? {
      NotItsOwnMerge(lt, b, h, path + [h]);
    }
  }

  lemma {:induction false} LatestIsNew(lt: LetterTest, d: History)
    requires IsHistory(lt, d)
    ensures Latest(lt, d) != d.was
  {
    if d.was.Obj? {
      var kept := Kept(d);
      DeepValue(lt, kept, d.was, [], false, d.h);
      ConcreteHasNoSentinel(d.was);
      if d.h in d.was.vals && d.was.vals[d.h].Obj? {
        NotItsOwnMerge(lt, d.was, d.h, [] + [d.h]);
      }
    }
  }

  lemma {:induction false} OneIsFirst(keys: seq<string>, a: string, b: string)
    requires a != b && (a in keys || b in keys)
    ensures Precedes(keys, a, b) <==> !Precedes(keys, b, a)
  {
    if keys[0] != a && keys[0] != b {
      OneIsFirst(keys[1..], a, b);
    }
  }

  /** The reference from x sees the old o exactly when x stands before o. */
  lemma {:induction false} OutsideSeesOldExactly(lt: LetterTest, tree: Val, d: History, x: string, fuel: nat)
    requires Holds(lt, tree, d) && fuel >= 2 && x in tree.vals && x != d.o && Outside(tree.vals[x], d)
    ensures var r := ResolveTree(lt, tree, fuel);
            r.Ok? && r.v.Obj? && x in r.v.vals && (r.v.vals[x] == d.was <==> Precedes(tree.keys, x, d.o))
  {
    HistoryResolves(lt, tree, d, fuel);
    LatestIsNew(lt, d);
    assert x in tree.keys;
    OneIsFirst(tree.keys, x, d.o);
  }

  /** The same fields in two orders: the results agree exactly when every reference
      from outside stands on the same side of o in both. */
  lemma {:induction false} HistoryOrdersAgreeExactly(lt: LetterTest, tree: Val, other: Val, d: History, fuel: nat)
    requires Holds(lt, tree, d) && Holds(lt, other, d) && tree.vals == other.vals && fuel >= 2
    ensures var a, b := ResolveTree(lt, tree, fuel), ResolveTree(lt, other, fuel);
            && a.Ok? && b.Ok? && a.v.Obj? && b.v.Obj?
            && (a.v.vals == b.v.vals <==>
                  forall x | x in tree.vals && x != d.o && Outside(tree.vals[x], d) ::
                    Precedes(tree.keys, d.o, x) == Precedes(other.keys, d.o, x))
  {
    HistoryResolves(lt, tree, d, fuel);
    HistoryResolves(lt, other, d, fuel);
    LatestIsNew(lt, d);
    var a, b := ResolveTree(lt, tree, fuel).v, ResolveTree(lt, other, fuel).v;
    if a.vals == b.vals {
      forall x | x in tree.vals && x != d.o && Outside(tree.vals[x], d)
        ensures Precedes(tree.keys, d.o, x) == Precedes(other.keys, d.o, x) {
        assert a.vals[x] == b.vals[x];
      }
    }
  }

  // ---------- the smallest such tree ----------

  const OLD_O: Val := Obj(["v"], map["v" := Text("1")], map[])
  const NEW_O: Val := Obj(["h", "v"], map["h" := Subst(0, ["o"], false, false), "v" := Text("1")], map[])

  /** o { v = 1 }, o { h = ${o} }, x = ${o.h} */
  const O_HISTORY: History := History("o", "h", 0, false, NEW_O, OLD_O)

  function HistoryTree(keys: seq<string>): Val {
    Obj(keys, map["o" := NEW_O, "x" := Subst(1, ["o", "h"], false, false)], map["o" := OLD_O])
  }

  lemma {:induction false} OIsHistory(lt: LetterTest)
    ensures IsHistory(lt, O_HISTORY)
  {
    assert "h"[0] != "v"[0];
    assert OLD_O.keys[0] == "v" && NEW_O.keys[0] == "h" && NEW_O.keys[1] == "v";
    assert Concrete(OLD_O);
    assert Concrete(Kept(O_HISTORY));
    KeyOfUnfold(lt, ["o", "h"]);
    assert |KeyOf(lt, ["o", "h"])| >= |Part(lt, "o")| + 1;
  }

  lemma {:induction false} HistoryTreeHolds(lt: LetterTest, keys: seq<string>)
    requires keys == ["x", "o"] || keys == ["o", "x"]
    ensures Holds(lt, HistoryTree(keys), O_HISTORY)
  {
    OIsHistory(lt);
    assert keys[0] in keys && keys[1] in keys && "x"[0] != "o"[0];
  }

  lemma {:induction false} HistoryTreeAt(lt: LetterTest, keys: seq<string>, fuel: nat)
    requires (keys == ["x", "o"] || keys == ["o", "x"]) && fuel >= 2
    ensures var r := ResolveTree(lt, HistoryTree(keys), fuel);
            r.Ok? && Lookup(r.v, ["x"]) == Some(if keys[0] == "x" then OLD_O else Latest(lt, O_HISTORY))
  {
    assert "x"[0] != "o"[0];
    HistoryTreeHolds(lt, keys);
    HistoryResolves(lt, HistoryTree(keys), O_HISTORY, fuel);
    var tree := HistoryTree(keys);
    assert Outside(tree.vals["x"], O_HISTORY);
    assert Precedes(keys, "o", "x") <==> keys[0] == "o";
  }

  /** The two orders of this tree: x is the old o in one, the new one in the other. */
  lemma {:induction false} HistoryDependsOnOrder(lt: LetterTest, fuel: nat)
    requires fuel >= 2
    ensures var a, b := ResolveTree(lt, HistoryTree(["x", "o"]), fuel), ResolveTree(lt, HistoryTree(["o", "x"]), fuel);
            a.Ok? && b.Ok? && Lookup(a.v, ["x"]) == Some(OLD_O) && Lookup(b.v, ["x"]).Some? &&
              Lookup(b.v, ["x"]).value != OLD_O
  {
    assert "x"[0] != "o"[0];
    HistoryTreeAt(lt, ["x", "o"], fuel);
    HistoryTreeAt(lt, ["o", "x"], fuel);
    HistoryTreeHolds(lt, ["o", "x"]);
    LatestIsNew(lt, O_HISTORY);
  }

  // ---------- a reference below its own key ----------

  /** o = ${o.h}, over an object "was" that o had before. */
  datatype Descent = Descent(o: string, h: string, id: nat, was: Val)

  function DescentRef(d: Descent): Val {
    Subst(d.id, [d.o, d.h], false, false)
  }

  /** A reference to o itself from another field. */
  predicate ToWhole(v: Val, d: Descent) {
    v.Subst? && v.segs == [d.o] && !v.knownAbsent && v.id != d.id
  }

  ghost predicate IsDescent(d: Descent) {
    d.was.Obj? && Concrete(d.was) && d.h in d.was.vals
  }

  /** The tree holds the descent, references to o and data, in any order. */
  ghost predicate Descends(tree: Val, d: Descent) {
    && IsDescent(d) && tree.Obj? && KeysMatch(tree) && tree.priors == map[d.o := d.was]
    && Get(tree.vals, d.o) == Some(DescentRef(d))
    && forall k | k in tree.vals && k != d.o :: Concrete(tree.vals[k]) || ToWhole(tree.vals[k], d)
  }

  ghost predicate AtDescent(c: Ctx, d: Descent) {
    Descends(c.root, d) && c.top == c.root.priors && c.field == [] && c.resolving == {} && c.guards == {}
    && KeyOf(c.lt, [d.o, d.h]) !in c.cache
  }

  /** The field o looks into the value it had before. */
  lemma {:induction false} DescentField(c: Ctx, fuel: nat, d: Descent)
    requires AtDescent(c, d) && fuel > 0
    ensures ResolveField(c, fuel, c.root, d.o).Ok?
  {
    var s, c' := DescentRef(d), c.(field := c.field + [d.o]);
    var guard := KeyOf(c.lt, [d.o]);
    assert c'.field == [d.o] && s.segs[..1] == [d.o] && s.segs[1..] == [d.h];
    assert FindPrior(c', [d.o], guard) == Some(d.was);
    ConcreteResolvesToItself(c'.(guards := c'.guards + {guard}), fuel - 1, d.was);
    ConcreteResolvesToItself(c', fuel, d.was);
    assert NavigateResolved(d.was, [d.h]) == Some(d.was.vals[d.h]) by { assert [d.h][1..] == []; }
    assert ResolveBelow(c', fuel, s) == Ok(d.was.vals[d.h]);
    assert ResolveVal(c', fuel, s) == Ok(d.was.vals[d.h]);
  }

  /** From any other field the path leads nowhere. */
  lemma {:induction false} DescentElsewhere(c: Ctx, fuel: nat, d: Descent)
    requires Descends(c.root, d) && KeyOf(c.lt, [d.o, d.h]) !in c.cache && fuel > 0
    requires |c.field| == 1 && c.field != [d.o] && KeyOf(c.lt, [d.o, d.h]) !in c.resolving
    ensures ResolveVal(c, fuel, DescentRef(d)) == Fail
  {
    var s := DescentRef(d);
    assert s.segs[..1] == [d.o] && s.segs[1..] == [d.h];
    KeysNeverCollide(c.lt, [d.o], c.field);
    assert Lookup(c.root, s.segs) == None;
    assert ResolveSubst(c, fuel, s) == Fail;
  }

  lemma {:induction false} WholeIsLost(c: Ctx, fuel: nat, d: Descent, r: Val)
    requires Descends(c.root, d) && KeyOf(c.lt, [d.o, d.h]) !in c.cache && ToWhole(r, d) && fuel >= 2
    requires |c.field| == 1 && c.field != [d.o] && c.resolving == {} && KeyOf(c.lt, [d.o]) !in c.cache
    ensures ResolveSubst(c, fuel, r) == Fail
  {
    var key := KeyOf(c.lt, [d.o]);
    KeysNeverCollide(c.lt, [d.o, d.h], [d.o]);
    DescentElsewhere(c.(resolving := c.resolving + {key}), fuel - 1, d);
    assert Lookup(c.root, r.segs) == Some(DescentRef(d));
  }

  lemma {:induction false} WholeField(c: Ctx, fuel: nat, d: Descent, k: string)
    requires AtDescent(c, d) && k in c.root.vals && k != d.o && ToWhole(c.root.vals[k], d) && fuel >= 2
    ensures var r := ResolveField(c, fuel, c.root, k);
            if KeyOf(c.lt, [d.o]) in c.cache then r == Ok(c.cache[KeyOf(c.lt, [d.o])]) else r == Fail
  {
    var r, c', key := c.root.vals[k], c.(field := c.field + [k]), KeyOf(c.lt, [d.o]);
    assert c'.field == [k];
    if key in c.cache {
      assert ResolveSubst(c', fuel, r) == Ok(c.cache[key]);
    } else {
      WholeIsLost(c', fuel, d, r);
    }
    assert k !in c.root.priors;
  }

  /** No reference to o stands before o, which was walked already or not. */
  ghost predicate NoneTooEarly(tree: Val, d: Descent, keys: seq<string>, seen: bool)
    requires tree.Obj?
  {
    seen || forall k | k in keys && k in tree.vals && k != d.o && ToWhole(tree.vals[k], d) :: !Precedes(keys, k, d.o)
  }

  lemma {:induction false} EarlyStep(tree: Val, d: Descent, keys: seq<string>)
    requires tree.Obj? && keys != [] && keys[0] in tree.vals && Distinct(keys)
    ensures NoneTooEarly(tree, d, keys, false) <==>
            if keys[0] == d.o then true
            else !ToWhole(tree.vals[keys[0]], d) && NoneTooEarly(tree, d, keys[1..], false)
  {
    var first := keys[0];
    assert forall k :: k in keys <==> k == first || k in keys[1..];
    assert first !in keys[1..];
  }

  lemma {:induction false} WalkDescent(c: Ctx, fuel: nat, d: Descent, keys: seq<string>, acc: Val)
    requires AtDescent(c, d) && fuel >= 2 && acc.Obj? && Distinct(keys) && forall k | k in keys :: k in c.root.vals
    ensures var r := ResolveFields(c, fuel, c.root, keys, true, acc);
            if NoneTooEarly(c.root, d, keys, KeyOf(c.lt, [d.o]) in c.cache) then r.Built? else r == ObjFail
    decreases |keys|
  {
    if keys != [] {
      var k := keys[0];
      assert k in keys;
      if k == d.o {
        DescentField(c, fuel, d);
      } else if ToWhole(c.root.vals[k], d) {
        WholeField(c, fuel, d, k);
      } else {
        ConcreteResolvesToItself(c.(field := c.field + [k]), fuel, c.root.vals[k]);
      }
      EarlyStep(c.root, d, keys);
      var r := ResolveField(c, fuel, c.root, k);
      if r.Ok? {
        KeysNeverCollide(c.lt, [k], [d.o, d.h]);
        KeysNeverCollide(c.lt, [k], [d.o]);
        WalkDescent(c.(cache := c.cache[KeyOf(c.lt, [k]) := r.v]), fuel, d, keys[1..], Set(acc, k, r.v));
      }
    }
  }

  /** Resolution succeeds exactly when no reference to o stands before o. */
  lemma {:induction false} DescentResolvesExactly(lt: LetterTest, tree: Val, d: Descent, fuel: nat)
    requires Descends(tree, d) && fuel >= 2
    ensures ResolveTree(lt, tree, fuel).Ok? || ResolveTree(lt, tree, fuel) == Fail
    ensures ResolveTree(lt, tree, fuel).Ok? <==>
            forall x | x in tree.vals && x != d.o && ToWhole(tree.vals[x], d) :: !Precedes(tree.keys, x, d.o)
  {
    WalkDescent(Start(lt, tree), fuel, d, tree.keys, EMPTY_OBJ);
    assert forall k :: k in tree.keys <==> k in tree.vals;
  }
}
