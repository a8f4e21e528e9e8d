/**
 Two ways to nest flat dotted keys: the sort-and-replace loop for .properties files
 (propsToObjectVal in internal/resolver/resolver.go) and the scope set of the
 adapters (adapters/internal/pathmap/pathmap.go).
 */
module Nesting {
  import opened Paths
  import Values

  datatype Nest = Leaf(value: string) | Branch(kids: map<string, Nest>)

  datatype Entry = Entry(path: seq<string>, value: string)

  // ---------- what the nested map should be ----------

  datatype Shape = Absent | IsLeaf(value: string) | IsBranch

  function Find(kids: map<string, Nest>, p: seq<string>): Option<Nest>
    requires p != []
    decreases |p|
  {
    if p[0] !in kids then None
    else if |p| == 1 then Some(kids[p[0]])
    else if kids[p[0]].Leaf? then None
    else Find(kids[p[0]].kids, p[1..])
  }

  function ShapeAt(kids: map<string, Nest>, p: seq<string>): Shape
    requires p != []
  {
    match Find(kids, p)
    case None => Absent
    case Some(Leaf(v)) => IsLeaf(v)
    case Some(Branch(_)) => IsBranch
  }

  predicate Extended(es: seq<Entry>, p: seq<string>) {
    exists i | 0 <= i < |es| :: p < es[i].path
  }

  /** A path that some entry extends is an object, whatever its own value; any
      other entry is a leaf. */
  ghost predicate Expected(es: seq<Entry>, p: seq<string>, s: Shape) {
    if Extended(es, p) then s == IsBranch
    else if exists i :: Holds(es, i, p) then exists i :: Holds(es, i, p) && s == IsLeaf(es[i].value)
    else s == Absent
  }

  ghost predicate Holds(es: seq<Entry>, i: int, p: seq<string>) {
    0 <= i < |es| && es[i].path == p
  }

  ghost predicate DistinctPaths(es: seq<Entry>) {
    forall i, j | 0 <= i < |es| && 0 <= j < |es| && es[i].path == es[j].path :: i == j
  }

  ghost predicate Rooted(es: seq<Entry>) {
    forall i | 0 <= i < |es| :: es[i].path != []
  }

  // ---------- inserting one entry ----------

  /** The inner loop of propsToObjectVal: a scalar in the way is replaced. */
  function Put(kids: map<string, Nest>, path: seq<string>, value: string): map<string, Nest>
    requires path != []
    decreases |path|
  {
    if |path| == 1 then kids[path[0] := Leaf(value)]
    else
      var below := if path[0] in kids && kids[path[0]].Branch? then kids[path[0]].kids else map[];
      kids[path[0] := Branch(Put(below, path[1..], value))]
  }

  /** pathmap's insert: a scalar in the way is an error. */
  function Insert(kids: map<string, Nest>, path: seq<string>, value: string): Option<map<string, Nest>>
    requires path != []
    decreases |path|
  {
    if |path| == 1 then Some(kids[path[0] := Leaf(value)])
    else if path[0] in kids && kids[path[0]].Leaf? then None
    else
      var below := Insert(if path[0] in kids then kids[path[0]].kids else map[], path[1..], value);
      if below.None? then None else Some(kids[path[0] := Branch(below.value)])
  }

  lemma {:induction false} PutShapes(kids: map<string, Nest>, path: seq<string>, value: string, p: seq<string>)
    requires path != [] && p != []
    ensures ShapeAt(Put(kids, path, value), p) ==
            if p == path then IsLeaf(value)
            else if p < path then IsBranch
            else if path < p then Absent
            else ShapeAt(kids, p)
    decreases |path|
  {
    if p[0] == path[0] && |path| > 1 && |p| > 1 {
      var below := if path[0] in kids && kids[path[0]].Branch? then kids[path[0]].kids else map[];
      PutShapes(below, path[1..], value, p[1..]);
      assert p == [p[0]] + p[1..] && path == [path[0]] + path[1..];
    }
  }

  lemma {:induction false} InsertIsPut(kids: map<string, Nest>, path: seq<string>, value: string)
    requires path != [] && forall n | 0 < n < |path| :: !ShapeAt(kids, path[..n]).IsLeaf?
    ensures Insert(kids, path, value) == Some(Put(kids, path, value))
    decreases |path|
  {
    if |path| > 1 {
      assert path[..1] == [path[0]] && !ShapeAt(kids, path[..1]).IsLeaf?;
      var below := if path[0] in kids then kids[path[0]].kids else map[];
      forall n | 0 < n < |path[1..]| ensures !ShapeAt(below, path[1..][..n]).IsLeaf? {
        assert path[..n + 1][1..] == path[1..][..n] && path[..n + 1][0] == path[0];
        assert !ShapeAt(kids, path[..n + 1]).IsLeaf?;
      }
      InsertIsPut(below, path[1..], value);
    }
  }

  // ---------- inserting all of them ----------

  function PutAll(es: seq<Entry>): map<string, Nest>
    requires Rooted(es)
  {
    if es == [] then map[] else Put(PutAll(es[..|es| - 1]), es[|es| - 1].path, es[|es| - 1].value)
  }

  /** No entry comes after one that extends it. */
  ghost predicate ParentsFirst(es: seq<Entry>) {
    forall i, j | 0 <= i < j < |es| :: !(es[j].path < es[i].path)
  }

  lemma {:induction false} PutAllShapes(es: seq<Entry>, p: seq<string>)
    requires Rooted(es) && DistinctPaths(es) && ParentsFirst(es) && p != []
    ensures Expected(es, p, ShapeAt(PutAll(es), p))
  {
    if es != [] {
      var init, last := es[..|es| - 1], es[|es| - 1];
      PutAllShapes(init, p);
      PutShapes(PutAll(init), last.path, last.value, p);
      LastEntry(es, p, ShapeAt(PutAll(init), p));
    }
  }

  lemma {:induction false} LastEntry(es: seq<Entry>, p: seq<string>, s: Shape)
    requires es != [] && DistinctPaths(es) && ParentsFirst(es) && p != []
    requires Expected(es[..|es| - 1], p, s)
    ensures var path := es[|es| - 1].path;
            Expected(es, p, if p == path then IsLeaf(es[|es| - 1].value)
                            else if p < path then IsBranch
                            else if path < p then Absent else s)
  {
    var n, path := |es| - 1, es[|es| - 1].path;
    var init := es[..n];
    assert forall i | 0 <= i < n :: init[i] == es[i];
    if p == path {
      assert Holds(es, n, p);
      assert forall i | 0 <= i < n :: !(es[n].path < es[i].path);
    } else if p < path {
      assert Extended(es, p);
    } else if path < p {
      forall i | 0 <= i < |es| ensures !(p < es[i].path) && !Holds(es, i, p) {
        assert i < n ==> !(es[n].path < es[i].path);
      }
    } else {
      assert Extended(es, p) == Extended(init, p);
      assert forall i :: Holds(es, i, p) == Holds(init, i, p);
    }
  }

  // ---------- shapes decide the map ----------

  lemma {:induction false} FindBelow(kids: map<string, Nest>, k: string, q: seq<string>)
    requires k in kids && kids[k].Branch? && q != []
    ensures Find(kids, [k] + q) == Find(kids[k].kids, q)
  {
    assert ([k] + q)[1..] == q;
  }

  ghost predicate SameShapes(a: map<string, Nest>, b: map<string, Nest>) {
    forall p: seq<string> {:trigger ShapeAt(a, p)} :: p != [] ==> ShapeAt(a, p) == ShapeAt(b, p)
  }

  lemma {:induction false} SameShapesSameNest(a: Nest, b: Nest)
    requires a.Branch? && b.Branch? && SameShapes(a.kids, b.kids)
    ensures a == b
  {
    forall k ensures (k in a.kids <==> k in b.kids) && (k in a.kids ==> a.kids[k] == b.kids[k]) {
      assert ShapeAt(a.kids, [k]) == ShapeAt(b.kids, [k]);
      if k in a.kids && a.kids[k].Branch? {
        forall q: seq<string> | q != [] ensures ShapeAt(a.kids[k].kids, q) == ShapeAt(b.kids[k].kids, q) {
          FindBelow(a.kids, k, q);
          FindBelow(b.kids, k, q);
          assert ShapeAt(a.kids, [k] + q) == ShapeAt(b.kids, [k] + q);
        }
        SameShapesSameNest(a.kids[k], b.kids[k]);
      }
    }
    assert a.kids == b.kids;
  }

  /** Nothing but the entries as a set decides the expected shape. */
  ghost predicate SameEntries(a: seq<Entry>, b: seq<Entry>) {
    forall e: Entry :: e in a <==> e in b
  }

  lemma {:induction false} ExpectedOnce(a: seq<Entry>, b: seq<Entry>, p: seq<string>, s: Shape, t: Shape)
    requires SameEntries(a, b) && DistinctPaths(a) && Expected(a, p, s) && Expected(b, p, t)
    ensures s == t
  {
    SameExtended(a, b, p);
    SameExtended(b, a, p);
    if !Extended(a, p) {
      if i :| Holds(a, i, p) {
        assert a[i] in b;
        var j :| 0 <= j < |b| && b[j] == a[i];
        assert Holds(b, j, p);
      }
      if j :| Holds(b, j, p) && t == IsLeaf(b[j].value) {
        assert b[j] in a;
        var i :| 0 <= i < |a| && a[i] == b[j];
        assert Holds(a, i, p);
        var m :| Holds(a, m, p) && s == IsLeaf(a[m].value);
        assert m == i;
      }
    }
  }

  lemma {:induction false} SameExtended(a: seq<Entry>, b: seq<Entry>, p: seq<string>)
    requires SameEntries(a, b)
    ensures Extended(a, p) ==> Extended(b, p)
  {
    if Extended(a, p) {
      var i :| 0 <= i < |a| && p < a[i].path;
      assert a[i] in b;
    }
  }

  // ---------- pathmap.Build ----------

  const NUL: char := 0 as char

  /** joinKey */
  function JoinKey(path: seq<string>): string {
    if path == [] then "" else if |path| == 1 then path[0] else path[0] + ([NUL] + JoinKey(path[1..]))
  }

  predicate NulFree(path: seq<string>) {
    forall i | 0 <= i < |path| :: NUL !in path[i]
  }

  function NulIndex(s: string): nat {
    if s == "" || s[0] == NUL then 0 else 1 + NulIndex(s[1..])
  }

  lemma {:induction false} NulIndexIs(a: string, x: string)
    requires NUL !in a
    ensures NulIndex(a + ([NUL] + x)) == |a|
  {
    if a == "" {
      assert a + ([NUL] + x) == [NUL] + x;
    } else {
      assert (a + ([NUL] + x))[1..] == a[1..] + ([NUL] + x);
      NulIndexIs(a[1..], x);
    }
  }

  lemma {:induction false} FirstNul(a: string, b: string, x: string, y: string)
    requires NUL !in a && NUL !in b && a + ([NUL] + x) == b + ([NUL] + y)
    ensures a == b && x == y
  {
    var l, r := a + ([NUL] + x), b + ([NUL] + y);
    NulIndexIs(a, x);
    NulIndexIs(b, y);
    assert a == l[..|a|] && b == r[..|b|] && x == l[|a| + 1..] && y == r[|b| + 1..];
  }

  lemma {:induction false} HasNul(path: seq<string>)
    requires |path| > 1
    ensures NUL in JoinKey(path)
  {
    assert JoinKey(path)[|path[0]|] == NUL;
  }

  /** Paths without NUL never share a key. */
  lemma {:induction false} JoinKeyIsInjective(a: seq<string>, b: seq<string>)
    requires a != [] && b != [] && NulFree(a) && NulFree(b)
    ensures JoinKey(a) == JoinKey(b) <==> a == b
  {
    if JoinKey(a) == JoinKey(b) {
      if |a| > 1 { HasNul(a); }
      if |b| > 1 { HasNul(b); }
      if |a| > 1 && |b| > 1 {
        FirstNul(a[0], b[0], JoinKey(a[1..]), JoinKey(b[1..]));
        JoinKeyIsInjective(a[1..], b[1..]);
        assert a == [a[0]] + a[1..] && b == [b[0]] + b[1..];
      }
    }
  }

  predicate BadPath(path: seq<string>) {
    path == [] || exists i | 0 <= i < |path| :: path[i] == ""
  }

  function ScopesOf(path: seq<string>, n: nat): set<string>
    requires n <= |path|
  {
    if n <= 1 then {} else ScopesOf(path, n - 1) + {JoinKey(path[..n - 1])}
  }

  function AllScopes(es: seq<Entry>): set<string> {
    if es == [] then {} else AllScopes(es[..|es| - 1]) + ScopesOf(es[|es| - 1].path, |es[|es| - 1].path|)
  }

  ghost predicate AllNulFree(es: seq<Entry>) {
    forall i | 0 <= i < |es| :: NulFree(es[i].path)
  }

  lemma {:induction false} InScopesOf(path: seq<string>, n: nat, p: seq<string>)
    requires n <= |path| && NulFree(path) && NulFree(p) && p != []
    ensures JoinKey(p) in ScopesOf(path, n) <==> |p| < n && p == path[..|p|]
  {
    if n > 1 {
      InScopesOf(path, n - 1, p);
      JoinKeyIsInjective(path[..n - 1], p);
    }
  }

  lemma {:induction false} InScopes(es: seq<Entry>, p: seq<string>)
    requires AllNulFree(es) && NulFree(p) && p != []
    ensures JoinKey(p) in AllScopes(es) <==> Extended(es, p)
  {
    if es != [] {
      var init, path := es[..|es| - 1], es[|es| - 1].path;
      InScopes(init, p);
      InScopesOf(path, |path|, p);
      assert forall i | 0 <= i < |init| :: init[i] == es[i];
      assert p < path <==> |p| < |path| && p == path[..|p|];
    }
  }

  /** The entries that no other one of the whole set extends, in their order. */
  function Leaves(es: seq<Entry>, all: seq<Entry>): (r: seq<Entry>)
    ensures Rooted(es) ==> Rooted(r)
  {
    if es == [] then []
    else Leaves(es[..|es| - 1], all) + if Extended(all, es[|es| - 1].path) then [] else [es[|es| - 1]]
  }

  lemma {:induction false} LeavesAre(es: seq<Entry>, all: seq<Entry>)
    ensures forall e :: e in Leaves(es, all) <==> e in es && !Extended(all, e.path)
  {
    if es != [] {
      LeavesAre(es[..|es| - 1], all);
      assert es == es[..|es| - 1] + [es[|es| - 1]];
    }
  }

  lemma {:induction false} LeavesDistinct(es: seq<Entry>, all: seq<Entry>)
    requires DistinctPaths(es)
    ensures DistinctPaths(Leaves(es, all))
  {
    if es != [] {
      var init, last := es[..|es| - 1], es[|es| - 1];
      assert forall i | 0 <= i < |init| :: init[i] == es[i];
      LeavesDistinct(init, all);
      LeavesAre(init, all);
      forall i | 0 <= i < |Leaves(init, all)| ensures Leaves(init, all)[i].path != last.path {
        assert Leaves(init, all)[i] in init;
        var j :| 0 <= j < |init| && init[j] == Leaves(init, all)[i];
        assert es[j].path == init[j].path;
      }
    }
  }

  lemma {:induction false} LeafIsEntry(es: seq<Entry>, p: seq<string>)
    requires Rooted(es) && p != [] && ShapeAt(PutAll(es), p).IsLeaf?
    ensures exists e :: e in es && e.path == p
  {
    var init, last := es[..|es| - 1], es[|es| - 1];
    PutShapes(PutAll(init), last.path, last.value, p);
    if p == last.path {
      assert last in es;
    } else {
      LeafIsEntry(init, p);
      var e :| e in init && e.path == p;
      assert e in es;
    }
  }

  lemma {:induction false} MemberExtends(es: seq<Entry>, e: Entry, p: seq<string>)
    requires e in es
    ensures p < e.path ==> Extended(es, p)
  {
    var i :| 0 <= i < |es| && es[i] == e;
    assert p < e.path ==> p < es[i].path;
  }

  lemma {:induction false} LeafNotExtended(es: seq<Entry>, all: seq<Entry>, p: seq<string>)
    requires Rooted(es) && p != []
    ensures ShapeAt(PutAll(Leaves(es, all)), p).IsLeaf? ==> !Extended(all, p)
  {
    if ShapeAt(PutAll(Leaves(es, all)), p).IsLeaf? {
      LeafIsEntry(Leaves(es, all), p);
      LeavesAre(es, all);
    }
  }

  /** Among the entries that nothing extends no insertion meets a scalar. */
  lemma {:induction false} NeverBlocked(es: seq<Entry>, all: seq<Entry>, e: Entry)
    requires Rooted(es) && e in all && e.path != []
    ensures Insert(PutAll(Leaves(es, all)), e.path, e.value) == Some(Put(PutAll(Leaves(es, all)), e.path, e.value))
  {
    forall n | 0 < n < |e.path| ensures !ShapeAt(PutAll(Leaves(es, all)), e.path[..n]).IsLeaf? {
      MemberExtends(all, e, e.path[..n]);
      LeafNotExtended(es, all, e.path[..n]);
    }
    InsertIsPut(PutAll(Leaves(es, all)), e.path, e.value);
  }

  ghost predicate AnyBad(es: seq<Entry>) {
    exists i | 0 <= i < |es| :: BadPath(es[i].path)
  }

  method HasEmptySegment(path: seq<string>) returns (bad: bool)
    requires path != []
    ensures bad == BadPath(path)
  {
    for i := 0 to |path|
      invariant forall j | 0 <= j < i :: path[j] != ""
    {
      if path[i] == "" {
        return true;
      }
    }
    return false;
  }

  /** The first loop of Build: the checks, and every proper prefix as a scope. */
  method CollectScopes(entries: seq<Entry>) returns (scopes: Option<set<string>>)
    ensures scopes.None? <==> AnyBad(entries)
    ensures scopes.Some? ==> Rooted(entries) && scopes.value == AllScopes(entries)
  {
    var found: set<string> := {};
    for k := 0 to |entries|
      invariant forall j | 0 <= j < k :: !BadPath(entries[j].path)
      invariant found == AllScopes(entries[..k])
    {
      var path := entries[k].path;
      if path == [] {
        return None;
      }
      var bad := HasEmptySegment(path);
      if bad {
        return None;
      }
      for i := 1 to |path|
        invariant found == AllScopes(entries[..k]) + ScopesOf(path, i)
      {
        found := found + {JoinKey(path[..i])};
      }
      assert entries[..k + 1][..k] == entries[..k];
    }
    assert entries[..|entries|] == entries;
    return Some(found);
  }

  /** Build: None exactly for an empty path or segment; the error of insert for a
      value that is an object too is never reached. */
  method Build(entries: seq<Entry>) returns (root: Option<map<string, Nest>>)
    requires AllNulFree(entries)
    ensures root.None? <==> AnyBad(entries)
    ensures root.Some? ==> Rooted(entries) && root.value == PutAll(Leaves(entries, entries))
  {
    var scopes := CollectScopes(entries);
    if scopes.None? {
      return None;
    }
    var nested: map<string, Nest> := map[];
    for k := 0 to |entries|
      invariant nested == PutAll(Leaves(entries[..k], entries))
    {
      var e := entries[k];
      InScopes(entries, e.path);
      LeavesSnoc(entries, k);
      if JoinKey(e.path) !in scopes.value {
        NeverBlocked(entries[..k], entries, e);
        var next := Insert(nested, e.path, e.value);
        nested := next.value;
      }
    }
    assert entries[..|entries|] == entries;
    return Some(nested);
  }

  lemma {:induction false} PutAllSnoc(es: seq<Entry>, e: Entry)
    requires Rooted(es) && e.path != []
    ensures Rooted(es + [e]) && PutAll(es + [e]) == Put(PutAll(es), e.path, e.value)
  {
    assert (es + [e])[..|es|] == es;
  }

  lemma {:induction false} LeavesSnoc(es: seq<Entry>, k: nat)
    requires k < |es| && Rooted(es)
    ensures var before, after := Leaves(es[..k], es), Leaves(es[..k + 1], es);
            PutAll(after) == if Extended(es, es[k].path) then PutAll(before)
              else Put(PutAll(before), es[k].path, es[k].value)
  {
    var before := Leaves(es[..k], es);
    assert es[..k + 1][..k] == es[..k] && es[..k + 1][k] == es[k];
    assert before + [] == before;
    PutAllSnoc(before, es[k]);
  }

  // ---------- propsToObjectVal ----------

  predicate LexLess(a: string, b: string) {
    b != "" && (a == "" || a[0] < b[0] || (a[0] == b[0] && LexLess(a[1..], b[1..])))
  }

  lemma {:induction false} LexOrder(a: string, b: string)
    ensures LexLess(a, b) || a == b || LexLess(b, a)
    ensures LexLess(a, b) ==> !LexLess(b, a) && a != b
  {
    if a != "" && b != "" {
      LexOrder(a[1..], b[1..]);
      assert a == [a[0]] + a[1..] && b == [b[0]] + b[1..];
    }
  }

  lemma {:induction false} LexTransitive(a: string, b: string, c: string)
    requires LexLess(a, b) && LexLess(b, c)
    ensures LexLess(a, c)
  {
    if a != "" && a[0] == b[0] && b[0] == c[0] {
      LexTransitive(a[1..], b[1..], c[1..]);
    }
  }

  lemma {:induction false} PrefixIsLess(a: string, b: string)
    requires a < b
    ensures LexLess(a, b)
  {
    if a != "" {
      assert a[1..] < b[1..];
      PrefixIsLess(a[1..], b[1..]);
    }
  }

  predicate Increasing(keys: seq<string>) {
    forall i, j | 0 <= i < j < |keys| :: LexLess(keys[i], keys[j])
  }

  function InsertKey(k: string, keys: seq<string>): seq<string> {
    if keys == [] || LexLess(k, keys[0]) then [k] + keys else [keys[0]] + InsertKey(k, keys[1..])
  }

  /** sort.Strings on distinct keys. */
  function SortKeys(keys: seq<string>): seq<string> {
    if keys == [] then [] else InsertKey(keys[0], SortKeys(keys[1..]))
  }

  lemma {:induction false} InsertKeyKeeps(k: string, keys: seq<string>)
    requires Increasing(keys) && k !in keys
    ensures Increasing(InsertKey(k, keys))
    ensures forall x :: x in InsertKey(k, keys) <==> x == k || x in keys
  {
    if keys == [] {
    } else if LexLess(k, keys[0]) {
      forall j | 0 <= j < |keys| ensures LexLess(k, keys[j]) {
        if j > 0 { LexTransitive(k, keys[0], keys[j]); }
      }
    } else {
      LexOrder(k, keys[0]);
      InsertKeyKeeps(k, keys[1..]);
      var rest := InsertKey(k, keys[1..]);
      forall j | 0 <= j < |rest| ensures LexLess(keys[0], rest[j]) {
        assert rest[j] in rest;
        if rest[j] != k {
          var i :| 0 <= i < |keys[1..]| && keys[1..][i] == rest[j];
          assert keys[i + 1] == rest[j];
        }
      }
    }
  }

  lemma {:induction false} SortKeysSorts(keys: seq<string>)
    requires Values.Distinct(keys)
    ensures Increasing(SortKeys(keys)) && forall x :: x in SortKeys(keys) <==> x in keys
  {
    if keys != [] {
      SortKeysSorts(keys[1..]);
      assert keys[0] !in keys[1..];
      InsertKeyKeeps(keys[0], SortKeys(keys[1..]));
      assert forall x :: x in keys <==> x == keys[0] || x in keys[1..];
    }
  }

  function EntryOf(key: string, value: string): Entry {
    Entry(SplitDots(key), value)
  }

  function EntriesOf(keys: seq<string>, props: map<string, string>): (r: seq<Entry>)
    requires forall k | k in keys :: k in props
    ensures |r| == |keys| && forall i | 0 <= i < |keys| :: r[i] == EntryOf(keys[i], props[keys[i]])
  {
    seq(|keys|, i requires 0 <= i < |keys| => EntryOf(keys[i], props[keys[i]]))
  }

  lemma {:induction false} JoinSplits(s: string)
    ensures Join(SplitDots(s)) == s
    decreases |s|
  {
    var d := IndexDot(s);
    if d < |s| {
      JoinSplits(s[d + 1..]);
      JoinCons(s[..d], SplitDots(s[d + 1..]));
      CutDot(s, d);
    }
  }

  lemma {:induction false} JoinCons(first: string, rest: seq<string>)
    requires rest != []
    ensures Join([first] + rest) == (first + ".") + Join(rest)
  {
    assert ([first] + rest)[1..] == rest;
  }

  lemma {:induction false} CutDot(s: string, d: nat)
    requires d < |s| && s[d] == '.'
    ensures s == (s[..d] + ".") + s[d + 1..]
  {
  }

  lemma {:induction false} JoinAppend(p: seq<string>, q: seq<string>)
    requires p != [] && q != []
    ensures Join(p + q) == Join(p) + ("." + Join(q))
  {
    if |p| == 1 {
      assert (p + q)[1..] == q;
      Assoc(p[0], ".", Join(q));
    } else {
      assert (p + q)[1..] == p[1..] + q;
      JoinAppend(p[1..], q);
      Assoc(p[0] + ".", Join(p[1..]), "." + Join(q));
    }
  }

  /** A key whose path is extended sorts before the extending one. */
  lemma {:induction false} ParentIsLess(a: string, b: string)
    requires SplitDots(a) < SplitDots(b)
    ensures LexLess(a, b)
  {
    var p, q := SplitDots(a), SplitDots(b)[|SplitDots(a)|..];
    assert SplitDots(b) == p + q;
    JoinSplits(a);
    JoinSplits(b);
    JoinAppend(p, q);
    PrefixIsLess(a, b);
  }

  lemma {:induction false} SortedEntries(keys: seq<string>, props: map<string, string>)
    requires Increasing(keys) && forall k | k in keys :: k in props
    ensures var es := EntriesOf(keys, props); Rooted(es) && DistinctPaths(es) && ParentsFirst(es)
  {
    var es := EntriesOf(keys, props);
    forall i, j | 0 <= i < |es| && 0 <= j < |es| && es[i].path == es[j].path ensures i == j {
      JoinSplits(keys[i]);
      JoinSplits(keys[j]);
      LexOrder(keys[i], keys[j]);
      LexOrder(keys[j], keys[i]);
    }
    forall i, j | 0 <= i < j < |es| ensures !(es[j].path < es[i].path) {
      if es[j].path < es[i].path {
        ParentIsLess(keys[j], keys[i]);
        LexOrder(keys[i], keys[j]);
      }
    }
  }

  /** The iteration order of a Go map: every key once. */
  ghost predicate Lists(order: seq<string>, props: map<string, string>) {
    Values.Distinct(order) && forall k :: k in order <==> k in props
  }

  function PropsNest(props: map<string, string>, order: seq<string>): map<string, Nest>
    requires forall k | k in SortKeys(order) :: k in props
  {
    var es := EntriesOf(SortKeys(order), props);
    PutAll(es)
  }

  lemma {:induction false} KeysSnoc(keys: seq<string>, props: map<string, string>, i: nat)
    requires (forall k | k in keys :: k in props) && i < |keys|
    ensures var es := EntriesOf(keys, props);
            PutAll(es[..i + 1]) == Put(PutAll(es[..i]), SplitDots(keys[i]), props[keys[i]])
  {
    var es := EntriesOf(keys, props);
    assert es[..i + 1] == es[..i] + [es[i]];
    PutAllSnoc(es[..i], es[i]);
  }

  method PropsToObjectVal(props: map<string, string>, order: seq<string>) returns (root: map<string, Nest>)
    requires Lists(order, props)
    ensures (forall k | k in SortKeys(order) :: k in props) && root == PropsNest(props, order)
  {
    SortKeysSorts(order);
    var keys := SortKeys(order);
    ghost var es := EntriesOf(keys, props);
    root := map[];
    for i := 0 to |keys|
      invariant root == PutAll(es[..i])
    {
      KeysSnoc(keys, props, i);
      var parts := SplitDots(keys[i]);
      root := Put(root, parts, props[keys[i]]);
    }
    assert es[..|keys|] == es;
  }

  // ---------- the two agree ----------

  /** For any keys whatever: a path that another key extends is an object, every
      other key is a leaf with its value, and there is nothing else. */
  lemma {:induction false} PropsShapes(props: map<string, string>, order: seq<string>, p: seq<string>)
    requires Lists(order, props) && p != []
    ensures forall k | k in SortKeys(order) :: k in props
    ensures forall k | k in order :: k in props
    ensures Expected(EntriesOf(order, props), p, ShapeAt(PropsNest(props, order), p))
  {
    SortKeysSorts(order);
    var keys := SortKeys(order);
    SortedEntries(keys, props);
    PutAllShapes(EntriesOf(keys, props), p);
    SameKeysSameEntries(keys, order, props);
    ExpectedAgain(EntriesOf(keys, props), EntriesOf(order, props), p, ShapeAt(PropsNest(props, order), p));
  }

  lemma {:induction false} SameKeysSameEntries(a: seq<string>, b: seq<string>, props: map<string, string>)
    requires (forall k | k in a :: k in props) && (forall k | k in b :: k in props) && forall k :: k in a <==> k in b
    ensures SameEntries(EntriesOf(a, props), EntriesOf(b, props))
  {
    forall e: Entry ensures e in EntriesOf(a, props) <==> e in EntriesOf(b, props) {
      EntryIn(a, b, props, e);
      EntryIn(b, a, props, e);
    }
  }

  lemma {:induction false} EntryIn(a: seq<string>, b: seq<string>, props: map<string, string>, e: Entry)
    requires (forall k | k in a :: k in props) && (forall k | k in b :: k in props) && forall k :: k in a <==> k in b
    ensures e in EntriesOf(a, props) ==> e in EntriesOf(b, props)
  {
    if e in EntriesOf(a, props) {
      var i :| 0 <= i < |a| && EntriesOf(a, props)[i] == e;
      assert a[i] in b;
      var j :| 0 <= j < |b| && b[j] == a[i];
      assert EntriesOf(b, props)[j] == e;
    }
  }

  lemma {:induction false} ExpectedAgain(a: seq<Entry>, b: seq<Entry>, p: seq<string>, s: Shape)
    requires SameEntries(a, b) && Expected(a, p, s)
    ensures Expected(b, p, s)
  {
    SameExtended(a, b, p);
    SameExtended(b, a, p);
    if !Extended(a, p) {
      forall j | Holds(b, j, p) ensures exists i :: Holds(a, i, p) {
        assert b[j] in a;
        var i :| 0 <= i < |a| && a[i] == b[j];
        assert Holds(a, i, p);
      }
      if i :| Holds(a, i, p) && s == IsLeaf(a[i].value) {
        assert a[i] in b;
        var j :| 0 <= j < |b| && b[j] == a[i];
        assert Holds(b, j, p) && s == IsLeaf(b[j].value);
      }
    }
  }

  /** Some entry that extends p is extended by none. */
  lemma {:induction false} LongestExtends(es: seq<Entry>, p: seq<string>, i: nat, bound: nat)
    requires i < |es| && p < es[i].path && forall j | 0 <= j < |es| :: |es[j].path| <= bound
    ensures exists e :: e in es && p < e.path && !Extended(es, e.path)
    decreases bound - |es[i].path|
  {
    if Extended(es, es[i].path) {
      var j :| 0 <= j < |es| && es[i].path < es[j].path;
      LongestExtends(es, p, j, bound);
    } else {
      assert es[i] in es;
    }
  }

  function Longest(es: seq<Entry>): (n: nat)
    ensures forall i | 0 <= i < |es| :: |es[i].path| <= n
  {
    if es == [] then 0
    else
      var n := Longest(es[1..]);
      assert forall i | 0 < i < |es| :: es[i] == es[1..][i - 1];
      if |es[0].path| > n then |es[0].path| else n
  }

  lemma {:induction false} SubExtended(a: seq<Entry>, b: seq<Entry>, p: seq<string>)
    requires forall e | e in a :: e in b
    ensures Extended(a, p) ==> Extended(b, p)
  {
    if Extended(a, p) {
      var i :| 0 <= i < |a| && p < a[i].path;
      MemberExtends(b, a[i], p);
    }
  }

  /** Leaving out the extended entries changes no expectation. */
  lemma {:induction false} LeavesExpectTheSame(es: seq<Entry>, p: seq<string>, s: Shape)
    requires Expected(Leaves(es, es), p, s)
    ensures Expected(es, p, s)
  {
    var r := Leaves(es, es);
    LeavesAre(es, es);
    if Extended(es, p) {
      var i :| 0 <= i < |es| && p < es[i].path;
      LongestExtends(es, p, i, Longest(es));
      var e :| e in es && p < e.path && !Extended(es, e.path);
      assert e in r;
    } else {
      SubExtended(r, es, p);
      forall j | Holds(es, j, p) ensures exists i :: Holds(r, i, p) {
        assert es[j] in r;
        var i :| 0 <= i < |r| && r[i] == es[j];
        assert Holds(r, i, p);
      }
      if i :| Holds(r, i, p) && s == IsLeaf(r[i].value) {
        assert r[i] in es;
        var j :| 0 <= j < |es| && es[j] == r[i];
        assert Holds(es, j, p) && s == IsLeaf(es[j].value);
      }
    }
  }

  lemma {:induction false} BuildShapes(es: seq<Entry>, p: seq<string>)
    requires Rooted(es) && DistinctPaths(es) && p != []
    ensures Expected(es, p, ShapeAt(PutAll(Leaves(es, es)), p))
  {
    var r := Leaves(es, es);
    LeavesAre(es, es);
    LeavesDistinct(es, es);
    forall i, j | 0 <= i < j < |r| ensures !(r[j].path < r[i].path) {
      assert r[i] in r && r[j] in r;
      MemberExtends(es, r[i], r[j].path);
    }
    PutAllShapes(r, p);
    LeavesExpectTheSame(es, p, ShapeAt(PutAll(r), p));
  }

  /** Both nesters give the same map, in whatever order each meets the keys. */
  lemma {:induction false} NestersAgree(props: map<string, string>, order: seq<string>, es: seq<Entry>)
    requires Lists(order, props) && SameEntries(es, EntriesOf(order, props)) && DistinctPaths(es) && Rooted(es)
    ensures (forall k | k in SortKeys(order) :: k in props) && PropsNest(props, order) == PutAll(Leaves(es, es))
  {
    SortKeysSorts(order);
    var a, b := PropsNest(props, order), PutAll(Leaves(es, es));
    forall p: seq<string> | p != [] ensures ShapeAt(a, p) == ShapeAt(b, p) {
      PropsShapes(props, order, p);
      BuildShapes(es, p);
      ExpectedOnce(es, EntriesOf(order, props), p, ShapeAt(b, p), ShapeAt(a, p));
    }
    SameShapesSameNest(Branch(a), Branch(b));
  }
}
