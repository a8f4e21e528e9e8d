/**
 Resolving a receiver with an unresolved fallback, against resolving one document
 that has the fallback's assignments first.
 */
module FallbackRuns {
  import opened Paths
  import opened Values
  import opened Merge
  import opened MergeLaws
  import opened Concats
  import opened Resolve
  import opened Assignments
  import opened Layers
  import opened Walks
  import opened Chains
  import opened Losses
  import opened Fallbacks
  import opened Carries

  /** The tree of receiver.WithFallback(fallback). */
  function MergedTree(lt: LetterTest, receiver: seq<Field>, fallback: seq<Field>): (r: Val)
    ensures r.Obj?
  {
    MergeUnresolved(lt, AssignAll(lt, receiver).obj, AssignAll(lt, fallback).obj)
  }

  /** Where every prior is carried and every save keeps what lies below it, resolving
      the merged tree is evaluating the layers of both, the fallback's below. */
  lemma {:induction false} FallbackIsLowerLayers(lt: LetterTest, env: Env, receiver: seq<Field>, fallback: seq<Field>,
                                                 fuel: nat)
    requires (forall k :: Mergeable(lt, env, receiver, fallback, k)) && AllCarry(lt, receiver, fallback) && fuel > 1
    requires var doc := fallback + receiver;
             && EnvOf(env, doc) && Links(lt, env, doc) && NoMistakenKey(lt, AssignAll(lt, doc).obj)
             && forall k :: ChainKept(lt, env, doc, k) && ChainFits(lt, env, doc, k)
    ensures var doc := fallback + receiver;
            Gives(ResolveTree(lt, MergedTree(lt, receiver, fallback), fuel), KeysOf(doc), LayeredAll(lt, env, doc))
  {
    FallbackIsEarlierDocument(lt, env, receiver, fallback);
    ChainsAreLayers(lt, env, fallback + receiver, fuel);
  }

  // ---------- documents of one key ----------

  lemma {:induction false} OtherKeys(lt: LetterTest, receiver: seq<Field>, fallback: seq<Field>, j: string)
    requires AssignedTo(receiver, j) == [] && AssignedTo(fallback, j) == []
    ensures j !in MergedTree(lt, receiver, fallback).vals && j !in MergedTree(lt, receiver, fallback).priors
  {
    var r, f := AssignAll(lt, receiver).obj, AssignAll(lt, fallback).obj;
    TreeIsBuilt(lt, receiver, j);
    TreeIsBuilt(lt, fallback, j);
    UnresolvedValue(lt, r, f, j);
    UnresolvedPriorOf(lt, r, f, j);
    assert Get(MergedTree(lt, receiver, fallback).vals, j) == None &&
           Get(MergedTree(lt, receiver, fallback).priors, j) == None;
  }

  /** What a tree of one key is resolved to. */
  ghost predicate ComesOut(r: Res, k: string, w: Res) {
    if Settles(w) then r.Ok? && r.v.Obj? && Get(r.v.vals, k) == OptionOf(w) else r == Fail
  }

  lemma {:induction false} OneKeyGives(r: Res, k: string, want: map<string, Res>)
    requires Gives(r, [k], want) && k in want
    ensures ComesOut(r, k, want[k])
  {
    assert AllSettle([k], want) <==> Settles(want[k]);
    assert k in [k];
  }

  lemma {:induction false} OneKeyTree(lt: LetterTest, root: Val, k: string, fuel: nat)
    requires root.Obj? && root.keys == [k] && KeysMatch(root) && k in root.vals && !NeedsQuoting(lt, k) && fuel > 1
    requires Piece(map[], root.vals[k], k) && forall j | j in root.priors ::
             j == k && Piece(map[], root.priors[j], k) && Dead(root.priors[j], k)
    ensures ComesOut(ResolveTree(lt, root, fuel), k, FieldOver(lt, map[], root, k))
  {
    PlainKey(lt, k);
    forall j | j in root.vals ensures j == k { assert j in root.keys; }
    RootResolves(lt, map[], root, fuel);
    OneKeyGives(ResolveTree(lt, root, fuel), k, FieldsOver(lt, map[], root));
  }

  lemma {:induction false} OneKeyDocument(lt: LetterTest, fields: seq<Field>, k: string, fuel: nat)
    requires KeysOf(fields) == [k] && Buildable(lt, map[], k, AssignedTo(fields, k)) && AssignedTo(fields, k) != [] &&
             !NeedsQuoting(lt, k) && fuel > 1
    ensures ComesOut(ResolveTree(lt, AssignAll(lt, fields).obj, fuel), k, Coded(lt, map[], k, AssignedTo(fields, k)))
  {
    OneKeyIsPlain(lt, fields, k);
    forall j ensures Buildable(lt, map[], j, AssignedTo(fields, j)) { KeysAreAssigned(fields, j); }
    BuiltAndResolved(lt, map[], fields, fuel);
    assert k in KeysOf(fields) by { assert [k][0] == k; }
    OneKeyGives(ResolveTree(lt, AssignAll(lt, fields).obj, fuel), k, CodedAll(lt, map[], fields));
  }

  // ---------- texts ----------

  /** ${k} text */
  function Suffixed(k: string, id: nat, text: string): Val {
    Concat([Subst(id, [k], false, false), Text(text)])
  }

  lemma {:induction false} TextsJoin(a: string, b: string)
    ensures JoinConcat([Some(Text(a)), Some(Text(b))]) == Ok(Text(a + b))
  {
    var vs := [Some(Text(a)), Some(Text(b))];
    assert vs[1..] == [Some(Text(b))] && vs[1..][1..] == [];
    assert Meaningful(vs[1..]) == [Text(b)] by { assert [Text(b)] + [] == [Text(b)]; }
    assert Meaningful(vs) == [Text(a), Text(b)] by { assert [Text(a)] + [Text(b)] == [Text(a), Text(b)]; }
    assert ConcatStrings(vs[1..]) == b by { assert b + [] == b; }
  }

  lemma {:induction false} SuffixIs(lt: LetterTest, k: string, id: nat, text: string, below: string)
    ensures var v := Suffixed(k, id, text);
            && LayerValue(lt, map[], v, Some(Ok(Text(below)))) == Ok(Text(below + text))
            && Unfolded(map[], v, k) && !Dead(v, k) && Demands(v, k) && !Bare(v, k)
  {
    var v, b := Suffixed(k, id, text), Some(Ok(Text(below)));
    var ps := v.parts;
    assert Piece(map[], ps[0], k) && Piece(map[], ps[1], k) && Demands(ps[0], k) && !Dead(ps[0], k);
    assert ps[1..] == [Text(text)] && ps[1..][1..] == [];
    assert LayerValues(lt, map[], ps[1..], b) == Vals([Some(Text(text))]) by {
      assert [Some(Text(text))] + [] == [Some(Text(text))];
    }
    assert LayerValues(lt, map[], ps, b) == Vals([Some(Text(below)), Some(Text(text))]) by {
      assert [Some(Text(below))] + [Some(Text(text))] == [Some(Text(below)), Some(Text(text))];
    }
    TextsJoin(below, text);
  }

  /** k = x, k = ${k}y, k = ${k}z */
  function Texts(k: string, x: string, i: nat, y: string, j: nat, z: string): seq<Field> {
    [Field(k, Text(x), false, 0), Field(k, Suffixed(k, i, y), false, 0), Field(k, Suffixed(k, j, z), false, 0)]
  }

  function TextVals(k: string, x: string, i: nat, y: string, j: nat, z: string): seq<Val> {
    [Text(x), Suffixed(k, i, y), Suffixed(k, j, z)]
  }

  lemma {:induction false} TextsAssign(k: string, x: string, i: nat, y: string, j: nat, z: string, n: nat, q: string)
    requires 0 < n < 3
    ensures var fields, vs := Texts(k, x, i, y, j, z), TextVals(k, x, i, y, j, z);
            && AssignedTo(fields, q) == (if q == k then vs else [])
            && AssignedTo(fields[..n], q) == (if q == k then vs[..n] else []) &&
              AssignedTo(fields[n..], q) == (if q == k then vs[n..] else [])
            && KeysOf(fields) == [k]
  {
    var fields, vs := Texts(k, x, i, y, j, z), TextVals(k, x, i, y, j, z);
    var one, two := fields[..1], fields[..2];
    assert one[..0] == [] && two[..1] == one && fields[..|fields| - 1] == two;
    assert AssignedTo(one, q) == (if q == k then vs[..1] else []) && KeysOf(one) == [k];
    assert AssignedTo(two, q) == (if q == k then vs[..2] else []) && KeysOf(two) == [k];
    assert AssignedTo(fields, q) == (if q == k then vs else []);
    assert fields[..n] + fields[n..] == fields;
    AssignedConcat(fields[..n], fields[n..], q);
    if q == k {
      assert vs == vs[..n] + vs[n..];
      assert AssignedTo(fields[n..], q) == (vs[..n] + AssignedTo(fields[n..], q))[n..];
    }
  }

  lemma {:induction false} TextsCoded(lt: LetterTest, k: string, x: string, i: nat, y: string, j: nat, z: string)
    ensures var vs := TextVals(k, x, i, y, j, z);
            Buildable(lt, map[], k, vs) && Coded(lt, map[], k, vs) == Ok(Text(x + y + z))
  {
    var vs := TextVals(k, x, i, y, j, z);
    assert vs[..2][..1] == [Text(x)] && vs[..2][..1][..0] == [];
    SuffixIs(lt, k, i, y, x);
    SuffixIs(lt, k, j, z, x + y);
    assert Buildable(lt, map[], k, []);
    assert Buildable(lt, map[], k, [Text(x)]);
    assert Saved(lt, map[], k, [Text(x)]) == Some(Ok(Text(x)));
    assert Buildable(lt, map[], k, vs[..2]) && Saved(lt, map[], k, vs[..2]) == Some(Ok(Text(x + y)));
  }

  /** Cut anywhere, the merge keeps x as the prior and z as the value. */
  lemma {:induction false} TextsAtKey(lt: LetterTest, k: string, x: string, i: nat, y: string, j: nat, z: string,
                                      n: nat)
    requires 0 < n < 3 && KeyOf(lt, [k]) == k
    ensures var fields := Texts(k, x, i, y, j, z);
            var m := MergedTree(lt, fields[n..], fields[..n]);
            Get(m.vals, k) == Some(Suffixed(k, j, z)) && Get(m.priors, k) == Some(Text(x))
  {
    var fields, vs := Texts(k, x, i, y, j, z), TextVals(k, x, i, y, j, z);
    var r, f := AssignAll(lt, fields[n..]).obj, AssignAll(lt, fields[..n]).obj;
    TextsAssign(k, x, i, y, j, z, n, k);
    assert vs[..n] + vs[n..] == vs;
    TreeIsBuilt(lt, fields[n..], k);
    TreeIsBuilt(lt, fields[..n], k);
    Carries.MergedAtKey(lt, r, f, k, vs[..n], vs[n..]);
    TextPriors(lt, k, x, i, y, j, z, n);
  }

  lemma {:induction false} TextsMerged(lt: LetterTest, k: string, x: string, i: nat, y: string, j: nat, z: string,
                                       n: nat)
    requires 0 < n < 3
    ensures var fields := Texts(k, x, i, y, j, z);
            var m := MergedTree(lt, fields[n..], fields[..n]);
            m.keys == [k] && KeysMatch(m) && forall q | q in m.priors :: q == k
  {
    var fields := Texts(k, x, i, y, j, z);
    TextsAssign(k, x, i, y, j, z, n, k);
    assert fields[..n] + fields[n..] == fields;
    MergedRootKeys(lt, fields[n..], fields[..n]);
    MergedTreeKeys(lt, fields[n..], fields[..n]);
    forall q | q in MergedTree(lt, fields[n..], fields[..n]).priors ensures q == k {
      if q != k {
        TextsAssign(k, x, i, y, j, z, n, q);
        OtherKeys(lt, fields[n..], fields[..n], q);
      }
    }
  }

  lemma {:induction false} MergedTreeKeys(lt: LetterTest, receiver: seq<Field>, fallback: seq<Field>)
    ensures KeysMatch(MergedTree(lt, receiver, fallback))
  {
    var r, f, m := AssignAll(lt, receiver).obj, AssignAll(lt, fallback).obj, MergedTree(lt, receiver, fallback);
    RootKeys(lt, receiver);
    RootKeys(lt, fallback);
    forall j ensures j in m.vals <==> j in f.vals || j in r.vals { UnresolvedValue(lt, r, f, j); }
    MergedKeysMatch(f, r, m);
  }

  /** What either side has as its prior, and what is captured of the fallback. */
  lemma {:induction false} TextPriors(lt: LetterTest, k: string, x: string, i: nat, y: string, j: nat, z: string,
                                      n: nat)
    requires 0 < n < 3
    ensures var vs := TextVals(k, x, i, y, j, z);
            && Carried(PriorOf(lt, k, vs[n..]), Captured(lt, k, vs[..n])) == Some(Text(x)) &&
              Stored(lt, k, vs) == Suffixed(k, j, z)
            && Separate(vs[..n], vs[n..])
  {
    var vs := TextVals(k, x, i, y, j, z);
    SuffixIs(lt, k, i, y, x);
    StoredObject(lt, k, vs);
    StoredObject(lt, k, vs[..n]);
    CaptureIs(lt, map[], k, Suffixed(k, i, y), Some(Text(x)));
    CaptureIs(lt, map[], k, Text(x), None);
    SaveIs(lt, map[], k, None, Suffixed(k, i, y));
    SaveIs(lt, map[], k, None, Text(x));
    if n == 1 {
      assert vs[..n] == [Text(x)] && vs[n..] == [Suffixed(k, i, y)] + [Suffixed(k, j, z)] &&
             [Suffixed(k, i, y)][..0] == [];
      SecondPrior(lt, k, Suffixed(k, i, y), Suffixed(k, j, z));
      FirstPrior(lt, k, Text(x));
    } else {
      assert vs[..n] == [Text(x)] + [Suffixed(k, i, y)] && vs[n..] == [Suffixed(k, j, z)];
      SecondPrior(lt, k, Text(x), Suffixed(k, i, y));
      FirstPrior(lt, k, Suffixed(k, j, z));
    }
  }

  lemma {:induction false} FirstPrior(lt: LetterTest, k: string, v: Val)
    ensures PriorOf(lt, k, [v]) == None && Stored(lt, k, [v]) == v
  {
    PriorOfNext(lt, k, [], v);
    assert [] + [v] == [v];
  }

  lemma {:induction false} SecondPrior(lt: LetterTest, k: string, u: Val, v: Val)
    ensures PriorOf(lt, k, [u] + [v]) == SaveOne(lt, k, None, u)
  {
    FirstPrior(lt, k, u);
    PriorOfNext(lt, k, [u], v);
  }

  lemma {:induction false} MergedText(lt: LetterTest, k: string, x: string, i: nat, y: string, j: nat, z: string,
                                      n: nat, fuel: nat)
    requires 0 < n < 3 && !NeedsQuoting(lt, k) && fuel > 1
    ensures var fields := Texts(k, x, i, y, j, z);
            ComesOut(ResolveTree(lt, MergedTree(lt, fields[n..], fields[..n]), fuel), k, Ok(Text(x + z)))
  {
    var fields := Texts(k, x, i, y, j, z);
    var m := MergedTree(lt, fields[n..], fields[..n]);
    PlainKey(lt, k);
    TextsAtKey(lt, k, x, i, y, j, z, n);
    TextsMerged(lt, k, x, i, y, j, z, n);
    SuffixIs(lt, k, j, z, x);
    assert k in m.vals && k in m.priors;
    assert FieldOver(lt, map[], m, k) == Ok(Text(x + z));
    OneKeyTree(lt, m, k, fuel);
  }

  lemma {:induction false} DocumentText(lt: LetterTest, k: string, x: string, i: nat, y: string, j: nat, z: string,
                                        fuel: nat)
    requires !NeedsQuoting(lt, k) && fuel > 1
    ensures ComesOut(ResolveTree(lt, AssignAll(lt, Texts(k, x, i, y, j, z)).obj, fuel), k, Ok(Text(x + y + z)))
  {
    TextsAssign(k, x, i, y, j, z, 1, k);
    TextsCoded(lt, k, x, i, y, j, z);
    OneKeyDocument(lt, Texts(k, x, i, y, j, z), k, fuel);
  }

  lemma {:induction false} TextsEqual(x: string, y: string, z: string)
    ensures x + z == x + y + z <==> y == ""
  {
    if x + z == x + y + z { assert |y| == 0; }
    if y == "" { assert x + y == x; }
  }

  /** For every k = x, k = ${k}y, k = ${k}z, cut into a fallback and a receiver behind
      the first or the second assignment: the merged tree comes to xz, the document to
      xyz, the same exactly when y is empty. */
  lemma {:induction false} FallbackLosesAppend(lt: LetterTest, k: string, x: string, i: nat, y: string, j: nat,
                                               z: string,
                                               n: nat, fuel: nat)
    requires 0 < n < 3 && !NeedsQuoting(lt, k) && fuel > 1
    ensures var fields := Texts(k, x, i, y, j, z);
            var m := ResolveTree(lt, MergedTree(lt, fields[n..], fields[..n]), fuel);
            var d := ResolveTree(lt, AssignAll(lt, fields).obj, fuel);
            && m.Ok? && m.v.Obj? && Get(m.v.vals, k) == Some(Text(x + z))
            && d.Ok? && d.v.Obj? && Get(d.v.vals, k) == Some(Text(x + y + z))
            && (Get(m.v.vals, k) == Get(d.v.vals, k) <==> y == "")
  {
    MergedText(lt, k, x, i, y, j, z, n, fuel);
    DocumentText(lt, k, x, i, y, j, z, fuel);
    TextsEqual(x, y, z);
  }
}
