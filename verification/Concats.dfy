/**
 Joining the resolved pieces of a value concatenation (resolveConcat and joinPair
 in internal/resolver/resolver.go, and internal/resolver/numeric_array.go).
 */
module Concats {
  import opened Paths
  import opened Values
  import opened Merge
  import opened Numerals

  /** The outcome of resolving a value: a value, nothing (an undefined optional
      substitution), or an error.  Diverge says that a budget of substitution
      steps ran out. */
  datatype Res = Ok(v: Val) | Absent | Fail | Diverge

  const MAX_INT32: nat := 2147483647

  // ---------- objects with numeric keys ----------

  predicate Eligible(k: string) {
    Canonical(k) && NatOf(k) <= MAX_INT32
  }

  function EligibleKeys(keys: seq<string>): (r: seq<string>)
    ensures forall i | 0 <= i < |r| :: Eligible(r[i])
  {
    if keys == [] then []
    else (if Eligible(keys[0]) then [keys[0]] else []) + EligibleKeys(keys[1..])
  }

  predicate AreNumerals(keys: seq<string>) {
    forall i | 0 <= i < |keys| :: Canonical(keys[i])
  }

  predicate Ascending(keys: seq<string>)
    requires AreNumerals(keys)
  {
    forall i, j | 0 <= i < j < |keys| :: NatOf(keys[i]) < NatOf(keys[j])
  }

  function InsertByValue(k: string, sorted: seq<string>): (r: seq<string>)
    requires Canonical(k) && AreNumerals(sorted)
    ensures AreNumerals(r)
  {
    if sorted == [] || NatOf(k) < NatOf(sorted[0]) then [k] + sorted
    else [sorted[0]] + InsertByValue(k, sorted[1..])
  }

  /** sort.Slice by integer value. */
  function SortByValue(keys: seq<string>): (r: seq<string>)
    requires AreNumerals(keys)
    ensures AreNumerals(r)
  {
    if keys == [] then [] else InsertByValue(keys[0], SortByValue(keys[1..]))
  }

  /** The values of some keys.  (Every key given has one.) */
  function CopyValues(o: Val, sorted: seq<string>): seq<Val>
    requires o.Obj?
  {
    seq(|sorted|, i requires 0 <= i < |sorted| => if sorted[i] in o.vals then o.vals[sorted[i]] else EMPTY_OBJ)
  }

  /** numericObjectToArray; None when no key is a usable index. */
  function NumericToArray(o: Val): Option<Val>
    requires o.Obj?
  {
    var order := SortByValue(EligibleKeys(o.keys));
    if order == [] then None
    else Some(Arr(CopyValues(o, order)))
  }

  lemma {:induction false} InsertKeepsOrder(k: string, sorted: seq<string>)
    requires Canonical(k) && AreNumerals(sorted) && Ascending(sorted) && k !in sorted
    ensures Ascending(InsertByValue(k, sorted))
    ensures forall x :: x in InsertByValue(k, sorted) <==> x == k || x in sorted
  {
    var r := InsertByValue(k, sorted);
    if sorted == [] || NatOf(k) < NatOf(sorted[0]) {
    } else {
      if NatOf(k) == NatOf(sorted[0]) {
        CanonicalIsUnique(k, sorted[0]);
      }
      InsertKeepsOrder(k, sorted[1..]);
      var rest := InsertByValue(k, sorted[1..]);
      forall j | 0 <= j < |rest| ensures NatOf(sorted[0]) < NatOf(rest[j]) {
        assert rest[j] in rest;
        if rest[j] != k {
          var i :| 0 <= i < |sorted[1..]| && sorted[1..][i] == rest[j];
          assert sorted[i + 1] == rest[j];
        }
      }
    }
  }

  lemma {:induction false} SortIsAscending(keys: seq<string>)
    requires AreNumerals(keys) && Distinct(keys)
    ensures Ascending(SortByValue(keys))
    ensures forall x :: x in SortByValue(keys) <==> x in keys
  {
    if keys != [] {
      SortIsAscending(keys[1..]);
      assert keys[0] !in keys[1..];
      InsertKeepsOrder(keys[0], SortByValue(keys[1..]));
      assert forall k :: k in keys <==> k == keys[0] || k in keys[1..];
    }
  }

  lemma {:induction false} AscendingIsUnique(a: seq<string>, b: seq<string>)
    requires AreNumerals(a) && AreNumerals(b) && Ascending(a) && Ascending(b)
    requires forall x :: x in a <==> x in b
    ensures a == b
  {
    assert a != [] ==> a[0] in a;
    assert b != [] ==> b[0] in b;
    if a != [] && b != [] {
      assert a[0] in b && b[0] in a;
      assert a[0] == b[0];
      forall x ensures x in a[1..] <==> x in b[1..] {
        assert x in a <==> x == a[0] || x in a[1..];
        assert x in b <==> x == b[0] || x in b[1..];
        assert a[0] !in a[1..] && b[0] !in b[1..];
      }
      AscendingIsUnique(a[1..], b[1..]);
      assert a == [a[0]] + a[1..] && b == [b[0]] + b[1..];
    }
  }

  lemma {:induction false} EligibleKeysAre(keys: seq<string>)
    ensures forall k :: k in EligibleKeys(keys) <==> k in keys && Eligible(k)
    ensures Distinct(keys) ==> Distinct(EligibleKeys(keys))
  {
    if keys != [] {
      EligibleKeysAre(keys[1..]);
      assert forall k :: k in keys <==> k == keys[0] || k in keys[1..];
      if Distinct(keys) {
        assert keys[0] !in keys[1..];
      }
    }
  }

  /** The array does not depend on the order of the object's keys. */
  lemma {:induction false} NumericIgnoresOrder(o: Val, p: Val)
    requires o.Obj? && p.Obj? && KeysMatch(o) && KeysMatch(p) && o.vals == p.vals
    ensures NumericToArray(o) == NumericToArray(p)
  {
    EligibleKeysAre(o.keys);
    EligibleKeysAre(p.keys);
    var a, b := EligibleKeys(o.keys), EligibleKeys(p.keys);
    SortIsAscending(a);
    SortIsAscending(b);
    AscendingIsUnique(SortByValue(a), SortByValue(b));
    if SortByValue(a) != [] {
      assert NumericToArray(o).value.elems == NumericToArray(p).value.elems;
    }
  }

  /** The elements are the values of the eligible keys, by ascending number. */
  ghost predicate ListsInOrder(o: Val, order: seq<string>, elems: seq<Val>)
    requires o.Obj?
  {
    && AreNumerals(order) && Ascending(order) && |order| == |elems|
    && (forall k :: k in order <==> k in o.vals && Eligible(k))
    && (forall i | 0 <= i < |order| :: order[i] in o.vals && elems[i] == o.vals[order[i]])
  }

  /** There is an array exactly when some key is eligible, and it lists the
      values of all eligible keys in order. */
  lemma {:induction false} NumericToArrayIs(o: Val)
    requires o.Obj? && KeysMatch(o)
    ensures NumericToArray(o).None? <==> forall k | k in o.vals :: !Eligible(k)
    ensures NumericToArray(o).Some? ==>
              var r := NumericToArray(o).value;
              r.Arr? && ListsInOrder(o, SortByValue(EligibleKeys(o.keys)), r.elems)
  {
    EligibleKeysAre(o.keys);
    SortIsAscending(EligibleKeys(o.keys));
    var order := SortByValue(EligibleKeys(o.keys));
    assert forall k :: k in order <==> k in o.vals && Eligible(k);
    forall i | 0 <= i < |order| ensures order[i] in o.vals && Eligible(order[i]) {
      assert order[i] in order;
    }
  }

  /** The loop that collects the eligible keys, the sort, and the copying
      of their values. */
  method NumericObjectToArray(o: Val) returns (r: Option<Val>)
    requires o.Obj? && KeysMatch(o)
    ensures r == NumericToArray(o)
  {
    var eligible: seq<string> := [];
    ghost var all := EligibleKeys(o.keys);
    assert o.keys[0..] == o.keys && [] + all == all;
    for i := 0 to |o.keys|
      invariant all == eligible + EligibleKeys(o.keys[i..])
    {
      assert o.keys[i..][1..] == o.keys[i + 1..];
      var rest := EligibleKeys(o.keys[i + 1..]);
      if Eligible(o.keys[i]) {
        MoveOne(eligible, o.keys[i], rest);
        eligible := eligible + [o.keys[i]];
      } else {
        assert [] + rest == rest;
      }
    }
    assert eligible + [] == eligible;
    if eligible == [] {
      return None;
    }
    EligibleKeysAre(o.keys);
    NumericToArrayIs(o);
    assert eligible[0] in o.keys && eligible[0] in o.vals && Eligible(eligible[0]);
    var sorted := SortByValue(eligible);
    r := Some(Arr(CopyValues(o, sorted)));
  }

  // ---------- the pairwise join ----------

  function StringOf(v: Val): string {
    if v.Scalar? then v.raw else ""
  }

  /** concatStrings: only scalars reach it. */
  function ConcatStrings(vs: seq<Option<Val>>): string {
    if vs == [] then ""
    else (if vs[0].Some? then StringOf(vs[0].value) else "") + ConcatStrings(vs[1..])
  }

  predicate IsSeparator(v: Val) {
    v.Scalar? && v.separator
  }

  /** joinPair; None is a type error. */
  function JoinPair(left: Val, right: Val): Option<Val> {
    if left.Obj? && right.Obj? then Some(MergeObjectConcat(left, right))
    else if left.Arr? && right.Obj? then
      var c := NumericToArray(right);
      if c.Some? then Some(Arr(left.elems + c.value.elems)) else None
    else if left.Obj? && right.Arr? then
      var c := NumericToArray(left);
      if c.Some? then Some(Arr(c.value.elems + right.elems)) else None
    else if left.Arr? && right.Arr? then Some(Arr(left.elems + right.elems))
    else if left.Arr? || right.Arr? || left.Obj? || right.Obj? then None
    else Some(Text(StringOf(left) + StringOf(right)))
  }

  function JoinFrom(acc: Val, vs: seq<Val>): Res
    decreases vs
  {
    if vs == [] then Ok(acc)
    else
      var next := JoinPair(acc, vs[0]);
      if next.None? then Fail else JoinFrom(next.value, vs[1..])
  }

  /** The pieces that are neither undefined nor whitespace between pieces. */
  function Meaningful(vs: seq<Option<Val>>): seq<Val> {
    if vs == [] then []
    else (if vs[0].Some? && !IsSeparator(vs[0].value) then [vs[0].value] else []) + Meaningful(vs[1..])
  }

  predicate HasContainer(vs: seq<Val>) {
    exists i | 0 <= i < |vs| :: vs[i].Arr? || vs[i].Obj?
  }

  predicate HasSeparator(vs: seq<Option<Val>>) {
    exists i | 0 <= i < |vs| :: vs[i].Some? && IsSeparator(vs[i].value)
  }

  /** resolveConcat once its pieces are resolved (strict mode). */
  function JoinConcat(vs: seq<Option<Val>>): Res {
    var pieces := Meaningful(vs);
    if pieces == [] then if HasSeparator(vs) then Ok(Text(ConcatStrings(vs))) else Absent
    else if !HasContainer(pieces) then Ok(Text(ConcatStrings(vs)))
    else JoinFrom(pieces[0], pieces[1..])
  }

  /** Joining always ends, and is undefined only where there is nothing to join. */
  lemma {:induction false} JoinEnds(vs: seq<Option<Val>>)
    ensures JoinConcat(vs) != Diverge
    ensures JoinConcat(vs) == Absent ==> Meaningful(vs) == [] && !HasSeparator(vs)
  {
    var pieces := Meaningful(vs);
    if pieces != [] { JoinFromEnds(pieces[0], pieces[1..]); }
  }

  lemma {:induction false} JoinFromEnds(acc: Val, vs: seq<Val>)
    ensures JoinFrom(acc, vs) != Diverge && JoinFrom(acc, vs) != Absent
    decreases vs
  {
    if vs != [] && JoinPair(acc, vs[0]).Some? {
      JoinFromEnds(JoinPair(acc, vs[0]).value, vs[1..]);
    }
  }

  lemma {:induction false} MeaningfulStep(done: seq<Val>, vs: seq<Option<Val>>, i: nat)
    requires i < |vs|
    ensures done + Meaningful(vs[i..]) ==
            (if vs[i].Some? && !IsSeparator(vs[i].value) then done + [vs[i].value] else done) + Meaningful(vs[i + 1..])
  {
    assert vs[i..][1..] == vs[i + 1..];
    var rest := Meaningful(vs[i + 1..]);
    if vs[i].Some? && !IsSeparator(vs[i].value) {
      MoveOne(done, vs[i].value, rest);
    } else {
      assert [] + rest == rest;
    }
  }

  lemma {:induction false} HasContainerNext(vs: seq<Val>, v: Val)
    ensures HasContainer(vs + [v]) <==> HasContainer(vs) || v.Arr? || v.Obj?
  {
    var r := vs + [v];
    assert r[|vs|] == v;
    assert forall i | 0 <= i < |vs| :: r[i] == vs[i];
  }

  /** The loops of resolveConcat after its pieces are resolved. */
  method JoinConcatLoop(resolved: seq<Option<Val>>) returns (r: Res)
    ensures r == JoinConcat(resolved)
  {
    var hasArrayOrObject, hasSeparator := false, false;
    var meaningful: seq<Val> := [];
    ghost var all := Meaningful(resolved);
    assert resolved[0..] == resolved && [] + all == all;
    for i := 0 to |resolved|
      invariant all == meaningful + Meaningful(resolved[i..])
      invariant hasArrayOrObject <==> HasContainer(meaningful)
      invariant hasSeparator <==> exists j | 0 <= j < i :: resolved[j].Some? && IsSeparator(resolved[j].value)
    {
      MeaningfulStep(meaningful, resolved, i);
      if resolved[i].Some? {
        var v := resolved[i].value;
        if IsSeparator(v) {
          hasSeparator := true;
        } else {
          HasContainerNext(meaningful, v);
          meaningful := meaningful + [v];
          hasArrayOrObject := hasArrayOrObject || v.Arr? || v.Obj?;
        }
      }
    }
    assert meaningful + [] == meaningful;
    if meaningful == [] {
      return if hasSeparator then Ok(Text(ConcatStrings(resolved))) else Absent;
    }
    if !hasArrayOrObject {
      return Ok(Text(ConcatStrings(resolved)));
    }
    r := JoinLoop(meaningful[0], meaningful[1..]);
  }

  method JoinLoop(first: Val, rest: seq<Val>) returns (r: Res)
    ensures r == JoinFrom(first, rest)
  {
    var acc := first;
    assert rest[0..] == rest;
    for i := 0 to |rest|
      invariant JoinFrom(acc, rest[i..]) == JoinFrom(first, rest)
    {
      assert rest[i..][1..] == rest[i + 1..];
      var next := JoinPair(acc, rest[i]);
      if next.None? {
        return Fail;
      }
      acc := next.value;
    }
    return Ok(acc);
  }
}
