/**
 Where the spelling of a key decides what resolution does: phase 2 seeds the
 root's priors under their raw keys and looks them up under printed ones
 (internal/resolver/resolver.go:450 against 1226-1243).
 */
module Limits {
  import opened Paths
  import opened Values
  import opened Concats
  import opened Resolve
  import opened ResolveLaws
  import opened Refinement

  ghost predicate Latin(lt: LetterTest) {
    forall c: char | 'a' <= c <= 'z' :: lt(c)
  }

  lemma {:induction false} TwoPlainKeys(lt: LetterTest, a: string, b: string)
    requires !NeedsQuoting(lt, a) && !NeedsQuoting(lt, b)
    ensures KeyOf(lt, [a, b]) == a + "." + b
  {
    KeyOfUnfold(lt, [a, b]);
    assert [a, b][1..] == [b];
    PlainKey(lt, b);
  }

  /** No prior is mistaken for another path's exactly when no key that has one is
      the printed form of another path. */
  lemma {:induction false} FaithfulExactly(lt: LetterTest, root: Val)
    requires root.Obj?
    ensures PriorsFaithful(lt, root) <==>
            forall k | k in root.priors :: KeyOf(lt, SplitPath(k)) == k ==> SplitPath(k) == [k]
  {
    if PriorsFaithful(lt, root) {
      forall k | k in root.priors && KeyOf(lt, SplitPath(k)) == k ensures SplitPath(k) == [k] {
        assert KeyOf(lt, SplitPath(k)) in root.priors;
      }
    } else {
      var segs :| KeyOf(lt, segs) in root.priors && segs != [KeyOf(lt, segs)];
      SplitPathInvertsKeyOf(lt, segs);
      assert SplitPath(KeyOf(lt, segs)) == segs;
    }
  }

  ghost predicate FindsOwnPrior(lt: LetterTest, root: Val, segs: seq<string>)
    requires root.Obj?
  {
    FindPrior(Start(lt, root), segs, KeyOf(lt, segs)) == PriorAt(root, segs)
  }

  /** The key is no other path's printed form, or that path has the same prior. */
  ghost predicate Unmistaken(lt: LetterTest, root: Val, k: string)
    requires root.Obj? && k in root.priors
  {
    KeyOf(lt, SplitPath(k)) == k ==> SplitPath(k) == [k] || PriorAt(root, SplitPath(k)) == Some(root.priors[k])
  }

  /** Every path finds the prior saved next to it, and nothing where there is none,
      exactly when no key with a prior is the printed form of a path with another. */
  lemma {:induction false} EveryPathFindsItsPrior(lt: LetterTest, root: Val)
    requires root.Obj?
    ensures (forall segs {:trigger FindsOwnPrior(lt, root, segs)} :: FindsOwnPrior(lt, root, segs)) <==>
            forall k | k in root.priors :: Unmistaken(lt, root, k)
  {
    if forall segs {:trigger FindsOwnPrior(lt, root, segs)} :: FindsOwnPrior(lt, root, segs) {
      forall k | k in root.priors ensures Unmistaken(lt, root, k) {
        assert FindsOwnPrior(lt, root, SplitPath(k));
      }
    }
    if forall k | k in root.priors :: Unmistaken(lt, root, k) {
      forall segs ensures FindsOwnPrior(lt, root, segs) {
        SplitPathInvertsKeyOf(lt, segs);
        if KeyOf(lt, segs) in root.priors {
          assert Unmistaken(lt, root, KeyOf(lt, segs));
        }
      }
    }
  }

  /** "a.b" = 1, "a.b" = 2, a { b = ${?a.b}x }: the quoted key's prior is taken
      for the path's, and a.b is 1x where it should be x. */
  const QUOTED_KEY: Val := Obj(["a.b", "a"],
    map["a.b" := Text("2"),
        "a" := Obj(["b"], map["b" := Concat([QUOTED_REF, Text("x")])], map[])],
    map["a.b" := Text("1")])

  const QUOTED_REF: Val := Subst(0, ["a", "b"], true, false)

  /** The reference, met below a, takes the other key's prior. */
  lemma {:induction false} QuotedRefStealsPrior(c: Ctx, fuel: nat)
    requires Latin(c.lt) && c.root == QUOTED_KEY && c.top == QUOTED_KEY.priors && fuel >= 1
    requires c.field == ["a", "b"] && c.resolving == {} && "a.b" !in c.cache
    ensures ResolveVal(c, fuel, QUOTED_REF) == Ok(Text("1"))
  {
    TwoPlainKeys(c.lt, "a", "b");
    assert "a" + "." + "b" == "a.b";
    var o := QUOTED_KEY.vals["a"];
    assert ["a", "b"][1..] == ["b"];
    assert Lookup(o, ["b"]) == Some(o.vals["b"]);
    assert Lookup(QUOTED_KEY, ["a", "b"]) == Some(o.vals["b"]);
    assert ContainsId(o.vals["b"].parts[0], 0);
    var c' := c.(resolving := c.resolving + {"a.b"});
    assert ResolveBack(c', fuel, QUOTED_REF) == ResolveVal(c', fuel - 1, Text("1"));
    assert ResolveSubst(c, fuel, QUOTED_REF) == ResolveBack(c', fuel, QUOTED_REF);
  }

  lemma {:induction false} QuotedInner(c: Ctx, fuel: nat)
    requires Latin(c.lt) && c.root == QUOTED_KEY && c.top == QUOTED_KEY.priors && fuel >= 1
    requires c.field == ["a"] && c.resolving == {} && "a.b" !in c.cache
    ensures ResolveVal(c, fuel, QUOTED_KEY.vals["a"]) == Ok(Set(EMPTY_OBJ, "b", Text("1x")))
  {
    var o, below, built := QUOTED_KEY.vals["a"], c.(field := ["a", "b"]), Set(EMPTY_OBJ, "b", Text("1x"));
    assert ["a"] + ["b"] == ["a", "b"] && ["b"] + [] == ["b"];
    QuotedRefStealsPrior(below, fuel);
    TwoPieces(below, fuel, QUOTED_REF, "1", "x");
    assert "1" + "x" == "1x";
    FieldsNext(c, fuel, o, "b", [], false, EMPTY_OBJ, Text("1x"));
    FieldsDone(c, fuel, o, false, built);
  }

  lemma {:induction false} QuotedRest(c: Ctx, fuel: nat, acc: Val)
    requires Latin(c.lt) && c.root == QUOTED_KEY && c.top == QUOTED_KEY.priors && fuel >= 1 && acc.Obj?
    requires c.field == [] && c.resolving == {} && "a.b" !in c.cache
    ensures var r := ResolveFields(c, fuel, QUOTED_KEY, ["a"], true, acc);
            r.Built? && r.o == Set(acc, "a", Set(EMPTY_OBJ, "b", Text("1x")))
  {
    var built := Set(EMPTY_OBJ, "b", Text("1x"));
    assert [] + ["a"] == ["a"] && ["a"] + [] == ["a"];
    QuotedInner(c.(field := ["a"]), fuel);
    FieldsNext(c, fuel, QUOTED_KEY, "a", [], true, acc, built);
    FieldsDone(c.(cache := c.cache[KeyOf(c.lt, ["a"]) := built]), fuel, QUOTED_KEY, true, Set(acc, "a", built));
  }

  lemma {:induction false} QuotedFields(lt: LetterTest, fuel: nat)
    requires Latin(lt) && fuel >= 1
    ensures var c, two := Start(lt, QUOTED_KEY), Text("2");
            ResolveFields(c, fuel, QUOTED_KEY, ["a.b"] + ["a"], true, EMPTY_OBJ) ==
            ResolveFields(c.(cache := c.cache[KeyOf(lt, ["a.b"]) := two]), fuel, QUOTED_KEY, ["a"], true,
                          Set(EMPTY_OBJ, "a.b", two))
  {
    FieldsNext(Start(lt, QUOTED_KEY), fuel, QUOTED_KEY, "a.b", ["a"], true, EMPTY_OBJ, Text("2"));
  }

  lemma {:induction false} QuotedPathHasNoPrior()
    ensures PriorAt(QUOTED_KEY, ["a", "b"]) == None
  {
    assert ["a", "b"][..1] == ["a"];
  }

  lemma {:induction false} QuotedKeyStealsPrior(lt: LetterTest, fuel: nat)
    requires Latin(lt) && fuel >= 1
    ensures PriorAt(QUOTED_KEY, ["a", "b"]) == None
    ensures ResolveTree(lt, QUOTED_KEY, fuel).Ok?
    ensures Lookup(ResolveTree(lt, QUOTED_KEY, fuel).v, ["a", "b"]) == Some(Text("1x"))
  {
    var c, two := Start(lt, QUOTED_KEY), Text("2");
    QuotedPathHasNoPrior();
    TwoPlainKeys(lt, "a", "b");
    KeysNeverCollide(lt, ["a.b"], ["a", "b"]);
    assert "a" + "." + "b" == "a.b" && QUOTED_KEY.keys == ["a.b"] + ["a"];
    QuotedFields(lt, fuel);
    QuotedRest(c.(cache := c.cache[KeyOf(lt, ["a.b"]) := two]), fuel, Set(EMPTY_OBJ, "a.b", two));
    assert ["a", "b"][1..] == ["b"];
    assert Lookup(Set(EMPTY_OBJ, "b", Text("1x")), ["b"]) == Some(Text("1x"));
  }
}
