/**
 Cycles of references between top-level keys, each followed by a text or by
 nothing, required and optional ones mixed.  Resolving such a cycle is cut at the
 reference of the field that is walked first, so that field decides what comes
 out; this says what that is, and exactly when two orders of the fields agree.
 */
module Rings {
  import opened Paths
  import opened Values
  import opened Merge
  import opened Concats
  import opened Resolve
  import opened ResolveLaws

  /** key = ${next} tail, or key = ${?next} tail. */
  datatype Member = Member(key: string, id: nat, next: string, optional: bool, tail: string)

  function RefOf(m: Member): Val {
    Subst(m.id, [m.next], m.optional, false)
  }

  function ValueOf(m: Member): Val {
    if m.tail == "" then RefOf(m) else Concat([RefOf(m), Text(m.tail)])
  }

  ghost predicate Apart(ms: seq<Member>, i: int, j: int) {
    0 <= i < j < |ms| ==> ms[i].key != ms[j].key && ms[i].id != ms[j].id
  }

  /** The member that the i-th one refers to. */
  function Next(ms: seq<Member>, i: nat): nat
    requires i < |ms|
    ensures Next(ms, i) < |ms|
  {
    if i == |ms| - 1 then 0 else i + 1
  }

  ghost predicate Linked(ms: seq<Member>, i: int) {
    0 <= i < |ms| ==> ms[i].next == ms[Next(ms, i)].key
  }

  /** Each member refers to the next one, the last to the first. */
  ghost predicate Ring(ms: seq<Member>) {
    |ms| >= 2 && (forall i, j :: Apart(ms, i, j)) && (forall i :: Linked(ms, i))
  }

  ghost predicate Held(tree: Val, ms: seq<Member>, i: int)
    requires tree.Obj?
  {
    0 <= i < |ms| ==> Get(tree.vals, ms[i].key) == Some(ValueOf(ms[i]))
  }

  /** The tree holds the ring and nothing else, its fields in any order. */
  ghost predicate Holds(tree: Val, ms: seq<Member>) {
    && tree.Obj? && KeysMatch(tree) && tree.priors == map[]
    && (forall i :: Held(tree, ms, i)) && (forall k | k in tree.vals :: HasKey(ms, k))
  }

  ghost predicate HasKey(ms: seq<Member>, k: string) {
    exists i | 0 <= i < |ms| :: ms[i].key == k
  }

  /** The same ring, begun at another member. */
  function From(ms: seq<Member>, f: nat): seq<Member>
    requires f <= |ms|
  {
    ms[f..] + ms[..f]
  }

  lemma {:induction false} FromIs(ms: seq<Member>, f: nat, i: nat)
    requires f < |ms| && i < |ms|
    ensures |From(ms, f)| == |ms| && From(ms, f)[i] == if f + i < |ms| then ms[f + i] else ms[f + i - |ms|]
  {
  }

  lemma {:induction false} SameMember(ms: seq<Member>, i: nat, j: nat)
    requires Ring(ms) && i < |ms| && j < |ms|
    ensures (ms[i].key == ms[j].key <==> i == j) && (ms[i].id == ms[j].id <==> i == j)
  {
    assert Apart(ms, i, j) && Apart(ms, j, i);
  }

  lemma {:induction false} RingFrom(ms: seq<Member>, f: nat)
    requires Ring(ms) && f < |ms|
    ensures Ring(From(ms, f))
  {
    var r, n := From(ms, f), |ms|;
    FromIs(ms, f, 0);
    forall i, j ensures Apart(r, i, j) {
      if 0 <= i < j < n {
        FromIs(ms, f, i);
        FromIs(ms, f, j);
        SameMember(ms, if f + i < n then f + i else f + i - n, if f + j < n then f + j else f + j - n);
      }
    }
    forall i ensures Linked(r, i) {
      if 0 <= i < n {
        FromIs(ms, f, i);
        FromIs(ms, f, Next(r, i));
        assert Linked(ms, if f + i < n then f + i else f + i - n);
      }
    }
  }

  lemma {:induction false} HoldsFrom(tree: Val, ms: seq<Member>, f: nat)
    requires Holds(tree, ms) && f < |ms|
    ensures Holds(tree, From(ms, f))
  {
    var r, n := From(ms, f), |ms|;
    FromIs(ms, f, 0);
    forall i ensures Held(tree, r, i) {
      if 0 <= i < n {
        FromIs(ms, f, i);
        assert Held(tree, ms, if f + i < n then f + i else f + i - n);
      }
    }
    forall k | k in tree.vals ensures HasKey(r, k) {
      assert HasKey(ms, k);
      var i :| 0 <= i < n && ms[i].key == k;
      FromIs(ms, f, if i >= f then i - f else i - f + n);
    }
  }

  // ---------- one member ----------

  /** A text, or nothing where that is empty. */
  function Outcome(s: string): Res {
    if s == "" then Absent else Ok(Text(s))
  }

  /** A member's value, once its reference came to a text or nothing. */
  lemma {:induction false} MemberValue(c: Ctx, fuel: nat, m: Member, s: string)
    requires ResolveVal(c, fuel, RefOf(m)) == Outcome(s)
    ensures ResolveVal(c, fuel, ValueOf(m)) == Outcome(s + m.tail)
  {
    if m.tail == "" {
      assert s + "" == s;
    } else {
      TwoPieces(c, fuel, RefOf(m), s, m.tail);
    }
  }

  lemma {:induction false} MemberFails(c: Ctx, fuel: nat, m: Member)
    requires ResolveVal(c, fuel, RefOf(m)) == Fail
    ensures ResolveVal(c, fuel, ValueOf(m)) == Fail
  {
    if m.tail != "" {
      assert [RefOf(m), Text(m.tail)][0] == RefOf(m);
      assert ResolveAll(c, fuel, [RefOf(m), Text(m.tail)]) == SeqFail;
    }
  }

  lemma {:induction false} OnlyItsOwn(m: Member, id: nat)
    ensures ContainsId(ValueOf(m), id) <==> id == m.id
  {
    var ps := [RefOf(m), Text(m.tail)];
    assert ContainsId(ps[0], id) <==> id == m.id;
    assert !ContainsId(ps[1], id);
  }

  // ---------- around the ring, with nothing cached ----------

  /** The text gathered from the j-th member on, the first member's last: the
      reference of the first member, met again, is undefined. */
  function Gathered(ms: seq<Member>, j: nat): string
    requires 1 <= j <= |ms|
    decreases |ms| - j
  {
    if j == |ms| then ms[0].tail else Gathered(ms, j + 1) + ms[j].tail
  }

  ghost predicate InRing(c: Ctx, ms: seq<Member>) {
    Ring(ms) && Holds(c.root, ms) && c.top == map[] && |c.field| == 1
  }

  /** Members from the first to the j-th, without the first, are being resolved. */
  ghost predicate PassedTo(c: Ctx, ms: seq<Member>, j: nat) {
    forall i | 0 <= i < |ms| :: KeyOf(c.lt, [ms[i].key]) in c.resolving <==> 1 <= i < j
  }

  lemma {:induction false} PassOne(c: Ctx, ms: seq<Member>, j: nat)
    requires Ring(ms) && PassedTo(c, ms, j) && 1 <= j < |ms|
    ensures PassedTo(c.(resolving := c.resolving + {KeyOf(c.lt, [ms[j].key])}), ms, j + 1)
  {
    forall i | 0 <= i < |ms| ensures KeyOf(c.lt, [ms[i].key]) == KeyOf(c.lt, [ms[j].key]) <==> i == j {
      KeysNeverCollide(c.lt, [ms[i].key], [ms[j].key]);
      SameMember(ms, i, j);
    }
  }

  lemma {:induction false} NoPriorInRing(c: Ctx, ms: seq<Member>, k: string, key: string)
    requires InRing(c, ms)
    ensures FindPrior(c, [k], key) == None && PriorAt(c.root, [k]) == None
  {
  }

  /** A reference that is followed to the next member's value. */
  lemma {:induction false} Follow(c: Ctx, fuel: nat, ms: seq<Member>, m: Member, j: nat, r: Res)
    requires InRing(c, ms) && fuel > 0 && j < |ms| && m.next == ms[j].key && m.id != ms[j].id
    requires KeyOf(c.lt, [m.next]) !in c.cache && KeyOf(c.lt, [m.next]) !in c.resolving
    requires ResolveVal(c.(resolving := c.resolving + {KeyOf(c.lt, [m.next])}), fuel - 1, ValueOf(ms[j])) == r
    ensures ResolveVal(c, fuel, RefOf(m)) == r
  {
    var s := RefOf(m);
    assert Held(c.root, ms, j);
    assert Lookup(c.root, s.segs) == Some(ValueOf(ms[j]));
    OnlyItsOwn(ms[j], m.id);
    NoPriorInRing(c, ms, m.next, KeyOf(c.lt, [m.next]));
    assert ResolveSubst(c, fuel, s) == r;
  }

  /** What a reference to the j-th member comes to, the first one being cut. */
  function Rounded(ms: seq<Member>, j: nat): Res
    requires 1 <= j <= |ms|
  {
    if ms[0].optional then Outcome(Gathered(ms, j)) else Fail
  }

  /** The first member's reference, met again. */
  lemma {:induction false} CutAtFirst(c: Ctx, fuel: nat, ms: seq<Member>)
    requires InRing(c, ms) && fuel > 0 && c.cache == map[] && KeyOf(c.lt, [ms[0].next]) in c.resolving
    ensures ResolveVal(c, fuel, ValueOf(ms[0])) == Rounded(ms, |ms|)
  {
    NoPriorInRing(c, ms, ms[0].next, KeyOf(c.lt, [ms[0].next]));
    assert ResolveSubst(c, fuel, RefOf(ms[0])) == ResolveBack(c, fuel, RefOf(ms[0]));
    if ms[0].optional {
      MemberValue(c, fuel, ms[0], "");
      assert "" + ms[0].tail == ms[0].tail;
    } else {
      MemberFails(c, fuel, ms[0]);
    }
  }

  lemma {:induction false} AroundLast(c: Ctx, fuel: nat, ms: seq<Member>)
    requires InRing(c, ms) && c.cache == map[] && PassedTo(c, ms, |ms|) && fuel > 1
    ensures ResolveVal(c, fuel, RefOf(ms[|ms| - 1])) == Rounded(ms, |ms|)
  {
    var m := ms[|ms| - 1];
    var c' := c.(resolving := c.resolving + {KeyOf(c.lt, [m.next])});
    SameMember(ms, 0, |ms| - 1);
    assert Linked(ms, 0) && Linked(ms, |ms| - 1);
    assert KeyOf(c.lt, [ms[0].key]) !in c.resolving && KeyOf(c.lt, [ms[1].key]) in c.resolving;
    CutAtFirst(c', fuel - 1, ms);
    Follow(c, fuel, ms, m, 0, Rounded(ms, |ms|));
  }

  lemma {:induction false} AroundStep(c: Ctx, fuel: nat, ms: seq<Member>, j: nat)
    requires InRing(c, ms) && c.cache == map[] && 1 <= j < |ms| && PassedTo(c, ms, j) && fuel > 0
    requires ResolveVal(c.(resolving := c.resolving + {KeyOf(c.lt, [ms[j].key])}), fuel - 1, RefOf(ms[j])) ==
             Rounded(ms, j + 1)
    ensures ResolveVal(c, fuel, RefOf(ms[j - 1])) == Rounded(ms, j)
  {
    var c' := c.(resolving := c.resolving + {KeyOf(c.lt, [ms[j].key])});
    SameMember(ms, j - 1, j);
    assert Linked(ms, j - 1) && KeyOf(c.lt, [ms[j].key]) !in c.resolving;
    if ms[0].optional {
      MemberValue(c', fuel - 1, ms[j], Gathered(ms, j + 1));
    } else {
      MemberFails(c', fuel - 1, ms[j]);
    }
    Follow(c, fuel, ms, ms[j - 1], j, Rounded(ms, j));
  }

  lemma {:induction false} Around(c: Ctx, fuel: nat, ms: seq<Member>, j: nat)
    requires InRing(c, ms) && c.cache == map[] && 1 <= j <= |ms| && PassedTo(c, ms, j) && fuel > |ms| - j + 1
    ensures ResolveVal(c, fuel, RefOf(ms[j - 1])) == Rounded(ms, j)
    decreases |ms| - j
  {
    if j == |ms| {
      AroundLast(c, fuel, ms);
    } else {
      PassOne(c, ms, j);
      Around(c.(resolving := c.resolving + {KeyOf(c.lt, [ms[j].key])}), fuel - 1, ms, j + 1);
      AroundStep(c, fuel, ms, j);
    }
  }

  /** What the member walked first comes to. */
  function First(ms: seq<Member>): string
    requires |ms| >= 1
  {
    Gathered(ms, 1) + ms[0].tail
  }

  ghost predicate AtRoot(c: Ctx, ms: seq<Member>) {
    Ring(ms) && Holds(c.root, ms) && c.top == map[] && c.field == [] && c.resolving == {}
  }

  /** A field while nothing is cached. */
  lemma {:induction false} FieldUncached(c: Ctx, fuel: nat, ms: seq<Member>)
    requires AtRoot(c, ms) && c.cache == map[] && fuel > |ms|
    ensures ResolveField(c, fuel, c.root, ms[0].key) == if ms[0].optional then Outcome(First(ms)) else Fail
  {
    var c' := c.(field := c.field + [ms[0].key]);
    assert PassedTo(c', ms, 1);
    assert Held(c.root, ms, 0);
    Around(c', fuel, ms, 1);
    if ms[0].optional {
      MemberValue(c', fuel, ms[0], Gathered(ms, 1));
    } else {
      MemberFails(c', fuel, ms[0]);
    }
  }

  // ---------- rings without any text ----------

  predicate NoText(ms: seq<Member>) {
    forall i | 0 <= i < |ms| :: ms[i].tail == ""
  }

  predicate AllOptional(ms: seq<Member>) {
    forall i | 0 <= i < |ms| :: ms[i].optional
  }

  lemma {:induction false} NothingGathered(ms: seq<Member>, j: nat)
    requires NoText(ms) && 1 <= j <= |ms|
    ensures Gathered(ms, j) == ""
    decreases |ms| - j
  {
    if j < |ms| { NothingGathered(ms, j + 1); }
  }

  lemma {:induction false} FieldWithoutText(c: Ctx, fuel: nat, ms: seq<Member>, f: nat)
    requires AtRoot(c, ms) && NoText(ms) && c.cache == map[] && fuel > |ms| && f < |ms|
    ensures ResolveField(c, fuel, c.root, ms[f].key) == if ms[f].optional then Absent else Fail
  {
    var r := From(ms, f);
    RingFrom(ms, f);
    HoldsFrom(c.root, ms, f);
    FieldUncached(c, fuel, r);
    assert NoText(r) && r[0] == ms[f];
    NothingGathered(r, 1);
  }

  ghost predicate OptionalAt(ms: seq<Member>, k: string) {
    exists i | 0 <= i < |ms| :: ms[i].key == k && ms[i].optional
  }

  /** Nothing is ever cached, so every reference is met first. */
  lemma {:induction false} WalkWithoutText(c: Ctx, fuel: nat, ms: seq<Member>, keys: seq<string>, acc: Val)
    requires AtRoot(c, ms) && NoText(ms) && c.cache == map[] && fuel > |ms| && acc.Obj?
    requires forall i | 0 <= i < |keys| :: HasKey(ms, keys[i])
    ensures ResolveFields(c, fuel, c.root, keys, true, acc) ==
            if forall i | 0 <= i < |keys| :: OptionalAt(ms, keys[i]) then Built(acc, map[]) else ObjFail
    decreases |keys|
  {
    if keys != [] {
      var f :| 0 <= f < |ms| && ms[f].key == keys[0];
      FieldWithoutText(c, fuel, ms, f);
      assert OptionalAt(ms, keys[0]) <==> ms[f].optional by {
        forall i | 0 <= i < |ms| && ms[i].key == keys[0] ensures i == f {
          SameMember(ms, i, f);
        }
      }
      assert forall i | 0 <= i < |keys[1..]| :: keys[1..][i] == keys[i + 1];
      assert forall i | 0 < i < |keys| :: keys[i] == keys[1..][i - 1];
      if ms[f].optional {
        WalkWithoutText(c, fuel, ms, keys[1..], acc);
      }
    }
  }

  lemma {:induction false} RingWithoutText(lt: LetterTest, tree: Val, ms: seq<Member>, fuel: nat)
    requires Ring(ms) && Holds(tree, ms) && NoText(ms) && fuel > |ms|
    ensures ResolveTree(lt, tree, fuel) == if AllOptional(ms) then Ok(EMPTY_OBJ) else Fail
  {
    var keys := tree.keys;
    forall i | 0 <= i < |keys| ensures HasKey(ms, keys[i]) {
      assert keys[i] in tree.vals;
    }
    WalkWithoutText(Start(lt, tree), fuel, ms, keys, EMPTY_OBJ);
    assert AllOptional(ms) <==> forall i | 0 <= i < |keys| :: OptionalAt(ms, keys[i]) by {
      OptionalKeys(tree, ms);
    }
  }

  lemma {:induction false} OptionalKeys(tree: Val, ms: seq<Member>)
    requires Ring(ms) && Holds(tree, ms)
    ensures AllOptional(ms) <==> forall i | 0 <= i < |tree.keys| :: OptionalAt(ms, tree.keys[i])
  {
    var keys := tree.keys;
    if AllOptional(ms) {
      forall i | 0 <= i < |keys| ensures OptionalAt(ms, keys[i]) {
        assert keys[i] in tree.vals && HasKey(ms, keys[i]);
      }
    }
    if forall i | 0 <= i < |keys| :: OptionalAt(ms, keys[i]) {
      forall j | 0 <= j < |ms| ensures ms[j].optional {
        assert Held(tree, ms, j);
        assert ms[j].key in keys;
        var i :| 0 <= i < |keys| && keys[i] == ms[j].key;
        assert OptionalAt(ms, keys[i]);
        var h :| 0 <= h < |ms| && ms[h].key == keys[i] && ms[h].optional;
        SameMember(ms, h, j);
      }
    }
  }

  // ---------- rings with a text somewhere ----------

  /** What the later members come to: the first one's text, then theirs. */
  function Final(ms: seq<Member>, i: nat): string
    requires 0 <= i < |ms|
    decreases |ms| - i
  {
    if i == 0 then First(ms) else (if i == |ms| - 1 then First(ms) else Final(ms, i + 1)) + ms[i].tail
  }

  /** The member that the i-th refers to comes to this. */
  function After(ms: seq<Member>, i: nat): string
    requires 0 <= i < |ms|
  {
    if i == |ms| - 1 then First(ms) else Final(ms, i + 1)
  }

  function Length(ms: seq<Member>): nat {
    if ms == [] then 0 else |ms[0].tail| + Length(ms[1..])
  }

  lemma {:induction false} GatheredLength(ms: seq<Member>, j: nat)
    requires 1 <= j <= |ms|
    ensures |Gathered(ms, j)| == |ms[0].tail| + Length(ms[j..])
    decreases |ms| - j
  {
    if j < |ms| {
      GatheredLength(ms, j + 1);
      assert ms[j..][1..] == ms[j + 1..];
    }
  }

  lemma {:induction false} FirstLength(ms: seq<Member>)
    requires |ms| >= 1
    ensures |First(ms)| == Length(ms) + |ms[0].tail|
  {
    GatheredLength(ms, 1);
  }

  lemma {:induction false} FinalLength(ms: seq<Member>, i: nat)
    requires 1 <= i < |ms|
    ensures |Final(ms, i)| == |First(ms)| + Length(ms[i..])
    decreases |ms| - i
  {
    assert ms[i..][1..] == ms[i + 1..];
    if i < |ms| - 1 {
      FinalLength(ms, i + 1);
    } else {
      assert ms[i + 1..] == [];
    }
  }

  lemma {:induction false} LengthConcat(a: seq<Member>, b: seq<Member>)
    ensures Length(a + b) == Length(a) + Length(b)
  {
    if a == [] {
      assert a + b == b;
    } else {
      assert (a + b)[1..] == a[1..] + b;
      LengthConcat(a[1..], b);
    }
  }

  lemma {:induction false} LengthZero(ms: seq<Member>)
    ensures Length(ms) == 0 <==> NoText(ms)
  {
    if ms != [] {
      LengthZero(ms[1..]);
      assert forall i | 0 < i < |ms| :: ms[i] == ms[1..][i - 1];
      assert forall i | 0 <= i < |ms[1..]| :: ms[1..][i] == ms[i + 1];
      assert ms[0].tail == "" <==> |ms[0].tail| == 0;
    }
  }

  lemma {:induction false} FinalNotEmpty(ms: seq<Member>, i: nat)
    requires |ms| >= 2 && !NoText(ms) && i < |ms|
    ensures Final(ms, i) != "" && After(ms, i) != "" && First(ms) != ""
  {
    LengthZero(ms);
    FirstLength(ms);
    if i > 0 { FinalLength(ms, i); }
    if i < |ms| - 1 { FinalLength(ms, i + 1); }
  }

  /** The cache holds final values only, that of the first member among them. */
  ghost predicate CacheIsFinal(lt: LetterTest, cache: map<string, Val>, ms: seq<Member>) {
    ms != [] && KeyOf(lt, [ms[0].key]) in cache && forall i :: EntryIsFinal(lt, cache, ms, i)
  }

  ghost predicate EntryIsFinal(lt: LetterTest, cache: map<string, Val>, ms: seq<Member>, i: int) {
    0 <= i < |ms| && KeyOf(lt, [ms[i].key]) in cache ==> cache[KeyOf(lt, [ms[i].key])] == Text(Final(ms, i))
  }

  ghost predicate Free(lt: LetterTest, resolving: set<string>, ms: seq<Member>, i: int) {
    0 <= i < |ms| ==> KeyOf(lt, [ms[i].key]) !in resolving
  }

  ghost predicate AheadIsFree(lt: LetterTest, resolving: set<string>, ms: seq<Member>, j: nat) {
    forall i {:trigger Free(lt, resolving, ms, i)} :: j <= i ==> Free(lt, resolving, ms, i)
  }

  lemma {:induction false} PassAhead(c: Ctx, ms: seq<Member>, j: nat)
    requires Ring(ms) && j < |ms| && AheadIsFree(c.lt, c.resolving, ms, j)
    ensures AheadIsFree(c.lt, c.resolving + {KeyOf(c.lt, [ms[j].key])}, ms, j + 1)
  {
    forall i | j + 1 <= i ensures Free(c.lt, c.resolving + {KeyOf(c.lt, [ms[j].key])}, ms, i) {
      assert Free(c.lt, c.resolving, ms, i);
      if i < |ms| {
        KeysNeverCollide(c.lt, [ms[i].key], [ms[j].key]);
        SameMember(ms, i, j);
      }
    }
  }

  /** The member's reference, its next member being in the cache. */
  lemma {:induction false} AtTheCache(c: Ctx, fuel: nat, ms: seq<Member>, j: nat)
    requires InRing(c, ms) && CacheIsFinal(c.lt, c.cache, ms) && j < |ms| && fuel > 0 &&
             KeyOf(c.lt, [ms[j].next]) in c.cache
    ensures ResolveVal(c, fuel, RefOf(ms[j])) == Ok(Text(After(ms, j)))
  {
    var m, key := ms[j], KeyOf(c.lt, [ms[j].next]);
    assert Linked(ms, j) && EntryIsFinal(c.lt, c.cache, ms, Next(ms, j));
    assert c.cache[key] == Text(After(ms, j));
    assert ResolveSubst(c, fuel, RefOf(m)) == Ok(c.cache[key]);
  }

  lemma {:induction false} ToTheCacheStep(c: Ctx, fuel: nat, ms: seq<Member>, j: nat)
    requires InRing(c, ms) && !NoText(ms) && j + 1 < |ms| && AheadIsFree(c.lt, c.resolving, ms, j + 1) && fuel > 0
    requires KeyOf(c.lt, [ms[j + 1].key]) !in c.cache
    requires ResolveVal(c.(resolving := c.resolving + {KeyOf(c.lt, [ms[j + 1].key])}), fuel - 1, RefOf(ms[j + 1])) ==
             Ok(Text(After(ms, j + 1)))
    ensures ResolveVal(c, fuel, RefOf(ms[j])) == Ok(Text(After(ms, j)))
  {
    var c' := c.(resolving := c.resolving + {KeyOf(c.lt, [ms[j + 1].key])});
    SameMember(ms, j, j + 1);
    assert Linked(ms, j) && Free(c.lt, c.resolving, ms, j + 1);
    FinalNotEmpty(ms, j + 1);
    MemberValue(c', fuel - 1, ms[j + 1], After(ms, j + 1));
    Follow(c, fuel, ms, ms[j], j + 1, Ok(Text(Final(ms, j + 1))));
  }

  /** A reference ends at the cache, at the first member's entry at the latest. */
  lemma {:induction false} ToTheCache(c: Ctx, fuel: nat, ms: seq<Member>, j: nat)
    requires InRing(c, ms) && !NoText(ms) && CacheIsFinal(c.lt, c.cache, ms) && j < |ms| &&
             AheadIsFree(c.lt, c.resolving, ms, j + 1) && fuel > |ms| - j
    ensures ResolveVal(c, fuel, RefOf(ms[j])) == Ok(Text(After(ms, j)))
    decreases |ms| - j
  {
    assert Linked(ms, j);
    if KeyOf(c.lt, [ms[j].next]) in c.cache {
      AtTheCache(c, fuel, ms, j);
    } else {
      PassAhead(c, ms, j + 1);
      ToTheCache(c.(resolving := c.resolving + {KeyOf(c.lt, [ms[j + 1].key])}), fuel - 1, ms, j + 1);
      ToTheCacheStep(c, fuel, ms, j);
    }
  }

  lemma {:induction false} FieldCached(c: Ctx, fuel: nat, ms: seq<Member>, i: nat)
    requires AtRoot(c, ms) && !NoText(ms) && CacheIsFinal(c.lt, c.cache, ms) && 1 <= i < |ms| && fuel > |ms|
    ensures ResolveField(c, fuel, c.root, ms[i].key) == Ok(Text(Final(ms, i)))
  {
    var c' := c.(field := c.field + [ms[i].key]);
    assert Held(c.root, ms, i);
    forall j | i <= j ensures Free(c.lt, c'.resolving, ms, j) {
    }
    ToTheCache(c', fuel, ms, i);
    FinalNotEmpty(ms, i);
    MemberValue(c', fuel, ms[i], After(ms, i));
  }

  lemma {:induction false} CacheOne(c: Ctx, ms: seq<Member>, i: nat)
    requires Ring(ms) && i < |ms| && (i == 0 || CacheIsFinal(c.lt, c.cache, ms)) && (i == 0 ==> c.cache == map[])
    ensures CacheIsFinal(c.lt, c.cache[KeyOf(c.lt, [ms[i].key]) := Text(Final(ms, i))], ms)
  {
    var cache := c.cache[KeyOf(c.lt, [ms[i].key]) := Text(Final(ms, i))];
    forall j ensures EntryIsFinal(c.lt, cache, ms, j) {
      if 0 <= j < |ms| {
        KeysNeverCollide(c.lt, [ms[i].key], [ms[j].key]);
        SameMember(ms, i, j);
        assert i != 0 ==> EntryIsFinal(c.lt, c.cache, ms, j);
      }
    }
  }

  /** The object gives the walked keys their final texts, the others acc's values. */
  ghost predicate Settled(r: Val, ms: seq<Member>, keys: seq<string>, acc: Val)
    requires r.Obj? && acc.Obj?
  {
    && r.priors == acc.priors
    && (forall i | 0 <= i < |ms| :: ms[i].key in keys ==> Get(r.vals, ms[i].key) == Some(Text(Final(ms, i))))
    && (forall k | k !in keys :: Get(r.vals, k) == Get(acc.vals, k))
  }

  lemma {:induction false} SettledOneMore(r: Val, ms: seq<Member>, keys: seq<string>, acc: Val, i: nat)
    requires r.Obj? && acc.Obj? && Ring(ms) && i < |ms| && keys != [] && keys[0] == ms[i].key && keys[0] !in keys[1..]
    requires Settled(r, ms, keys[1..], Set(acc, keys[0], Text(Final(ms, i))))
    ensures Settled(r, ms, keys, acc)
  {
    assert forall k :: k in keys <==> k == keys[0] || k in keys[1..];
    forall j | 0 <= j < |ms| && ms[j].key in keys ensures Get(r.vals, ms[j].key) == Some(Text(Final(ms, j))) {
      SameMember(ms, i, j);
    }
  }

  lemma {:induction false} WalkCached(c: Ctx, fuel: nat, ms: seq<Member>, keys: seq<string>, acc: Val)
    requires AtRoot(c, ms) && !NoText(ms) && CacheIsFinal(c.lt, c.cache, ms) && fuel > |ms| && acc.Obj?
    requires Distinct(keys) && ms[0].key !in keys && forall i | 0 <= i < |keys| :: HasKey(ms, keys[i])
    ensures var r := ResolveFields(c, fuel, c.root, keys, true, acc); r.Built? && Settled(r.o, ms, keys, acc)
    decreases |keys|
  {
    if keys != [] {
      var i :| 0 <= i < |ms| && ms[i].key == keys[0];
      assert i != 0;
      FieldCached(c, fuel, ms, i);
      CacheOne(c, ms, i);
      var v := Text(Final(ms, i));
      var c' := c.(cache := c.cache[KeyOf(c.lt, [keys[0]]) := v]);
      WalkCached(c', fuel, ms, keys[1..], Set(acc, keys[0], v));
      SettledOneMore(ResolveFields(c, fuel, c.root, keys, true, acc).o, ms, keys, acc, i);
    }
  }

  /** An error when the first member's reference is required, otherwise the texts. */
  ghost predicate ComesTo(r: Res, tree: Val, ms: seq<Member>)
    requires tree.Obj? && ms != []
  {
    if ms[0].optional
    then r.Ok? && r.v.Obj? && r.v.priors == map[] && r.v.vals.Keys == tree.vals.Keys
         && forall i | 0 <= i < |ms| :: Get(r.v.vals, ms[i].key) == Some(Text(Final(ms, i)))
    else r == Fail
  }

  /** A ring with a text in it, the first field of the tree being its first member. */
  lemma {:induction false} RingResolves(lt: LetterTest, tree: Val, ms: seq<Member>, fuel: nat)
    requires Ring(ms) && Holds(tree, ms) && !NoText(ms) && fuel > |ms|
    requires tree.keys != [] && tree.keys[0] == ms[0].key
    ensures ComesTo(ResolveTree(lt, tree, fuel), tree, ms)
  {
    var c, keys := Start(lt, tree), tree.keys;
    FieldUncached(c, fuel, ms);
    FinalNotEmpty(ms, 0);
    if ms[0].optional {
      var v := Text(First(ms));
      CacheOne(c, ms, 0);
      var c' := c.(cache := c.cache[KeyOf(lt, [keys[0]]) := v]);
      assert keys[0] !in keys[1..];
      forall i | 0 <= i < |keys[1..]| ensures HasKey(ms, keys[1..][i]) {
        assert keys[i + 1] in tree.vals;
      }
      WalkCached(c', fuel, ms, keys[1..], Set(EMPTY_OBJ, keys[0], v));
      SettledOneMore(ResolveTree(lt, tree, fuel).v, ms, keys, EMPTY_OBJ, 0);
      SettledEverywhere(tree, ResolveTree(lt, tree, fuel).v, ms);
    }
  }

  lemma {:induction false} SettledEverywhere(tree: Val, r: Val, ms: seq<Member>)
    requires Holds(tree, ms) && r.Obj? && Settled(r, ms, tree.keys, EMPTY_OBJ)
    ensures r.vals.Keys == tree.vals.Keys
    ensures forall i | 0 <= i < |ms| :: Get(r.vals, ms[i].key) == Some(Text(Final(ms, i)))
  {
    forall i | 0 <= i < |ms| ensures ms[i].key in tree.keys {
      assert Held(tree, ms, i);
    }
    forall k ensures k in r.vals <==> k in tree.vals {
      if k in tree.vals {
        var i :| 0 <= i < |ms| && ms[i].key == k;
      } else {
        assert Get(r.vals, k) == Get(EMPTY_OBJ.vals, k);
      }
    }
  }

  // ---------- two orders ----------

  /** Both fail, or both give the same values. */
  predicate SameOutcome(a: Res, b: Res) {
    if a.Ok? && b.Ok? then a.v.Obj? && b.v.Obj? && a.v.vals == b.v.vals else a == b
  }

  lemma {:induction false} Halves(ms: seq<Member>, g: nat)
    requires 0 < g < |ms|
    ensures Length(ms) == Length(ms[..g]) + Length(ms[g..]) == Length(From(ms, g))
    ensures Length(ms[..g]) >= |ms[0].tail| && Length(ms[g..]) >= |ms[g].tail|
    ensures From(ms, g)[|ms| - g..] == ms[..g] && From(ms, g)[0] == ms[g]
  {
    LengthConcat(ms[g..], ms[..g]);
    LengthConcat(ms[..g], ms[g..]);
    assert ms[..g] + ms[g..] == ms;
  }

  /** With different first members, both optional, and a text somewhere, one of
      the two members comes out longer in one order than in the other. */
  lemma {:induction false} TextsDiffer(ms: seq<Member>, g: nat)
    requires 0 < g < |ms| && !NoText(ms)
    ensures Final(ms, 0) != Final(From(ms, g), |ms| - g) || Final(ms, g) != Final(From(ms, g), 0)
  {
    var us, n := From(ms, g), |ms|;
    Halves(ms, g);
    LengthZero(ms);
    FirstLength(ms);
    FirstLength(us);
    FinalLength(ms, g);
    FinalLength(us, n - g);
    var a, b := Length(ms[..g]), Length(ms[g..]);
    assert |Final(us, n - g)| == a + b + |ms[g].tail| + a;
    assert |Final(ms, g)| == a + b + |ms[0].tail| + b;
  }

  lemma {:induction false} TextFrom(ms: seq<Member>, g: nat)
    requires g < |ms|
    ensures NoText(From(ms, g)) <==> NoText(ms)
  {
    LengthZero(ms);
    LengthZero(From(ms, g));
    if g > 0 {
      Halves(ms, g);
    } else {
      assert From(ms, 0) == ms;
    }
  }

  lemma {:induction false} TextsAgreeExactly(a: Val, b: Val, tree: Val, ms: seq<Member>, g: nat)
    requires Holds(tree, ms) && g < |ms| && !NoText(ms) && a.Obj? && b.Obj? &&
             a.vals.Keys == tree.vals.Keys == b.vals.Keys
    requires forall i | 0 <= i < |ms| :: Get(a.vals, ms[i].key) == Some(Text(Final(ms, i)))
    requires forall i | 0 <= i < |ms| :: Get(b.vals, From(ms, g)[i].key) == Some(Text(Final(From(ms, g), i)))
    ensures a.vals == b.vals <==> g == 0
  {
    var us, n := From(ms, g), |ms|;
    if g == 0 {
      assert us == ms;
      SameTexts(a.vals, b.vals, tree, ms);
    } else {
      TextsDiffer(ms, g);
      FromIs(ms, g, 0);
      FromIs(ms, g, n - g);
      assert Get(b.vals, us[n - g].key) == Some(Text(Final(us, n - g))) &&
             Get(b.vals, us[0].key) == Some(Text(Final(us, 0)));
    }
  }

  lemma {:induction false} SameTexts(a: map<string, Val>, b: map<string, Val>, tree: Val, ms: seq<Member>)
    requires Holds(tree, ms) && a.Keys == tree.vals.Keys == b.Keys
    requires forall i | 0 <= i < |ms| ::
             Get(a, ms[i].key) == Some(Text(Final(ms, i))) && Get(b, ms[i].key) == Some(Text(Final(ms, i)))
    ensures a == b
  {
    forall k ensures Get(a, k) == Get(b, k) {
      if k in a {
        assert HasKey(ms, k);
        var i :| 0 <= i < |ms| && ms[i].key == k;
      }
    }
    SameMaps(a, b);
  }

  lemma {:induction false} HoldsSameKeys(tree: Val, other: Val, ms: seq<Member>)
    requires Holds(tree, ms) && Holds(other, ms)
    ensures tree.vals.Keys == other.vals.Keys
  {
    forall k ensures k in tree.vals <==> k in other.vals {
      if k in tree.vals {
        var i :| 0 <= i < |ms| && ms[i].key == k;
        assert Held(other, ms, i);
      }
      if k in other.vals {
        var i :| 0 <= i < |ms| && ms[i].key == k;
        assert Held(tree, ms, i);
      }
    }
  }

  lemma {:induction false} OutcomesAgreeExactly(a: Res, b: Res, tree: Val, other: Val, ms: seq<Member>, g: nat)
    requires Holds(tree, ms) && other.Obj? && tree.vals.Keys == other.vals.Keys && g < |ms| && !NoText(ms)
    requires ComesTo(a, tree, ms) && ComesTo(b, other, From(ms, g))
    ensures SameOutcome(a, b) <==> g == 0 || (!ms[0].optional && !ms[g].optional)
  {
    FromIs(ms, g, 0);
    if ms[0].optional && ms[g].optional {
      TextsAgreeExactly(a.v, b.v, tree, ms, g);
    }
  }

  /** Two orders of the fields of one ring: they agree exactly when the same member
      comes first, or no member has a text, or both first references are required. */
  lemma {:induction false} RingOrdersAgreeExactly(lt: LetterTest, tree: Val, other: Val, ms: seq<Member>, g: nat,
                                                  fuel: nat)
    requires Ring(ms) && Holds(tree, ms) && Holds(other, ms) && g < |ms| && fuel > |ms|
    requires tree.keys != [] && tree.keys[0] == ms[0].key && other.keys != [] && other.keys[0] == ms[g].key
    ensures SameOutcome(ResolveTree(lt, tree, fuel), ResolveTree(lt, other, fuel)) <==>
            g == 0 || NoText(ms) || (!ms[0].optional && !ms[g].optional)
  {
    if NoText(ms) {
      RingWithoutText(lt, tree, ms, fuel);
      RingWithoutText(lt, other, ms, fuel);
    } else {
      RingFrom(ms, g);
      HoldsFrom(other, ms, g);
      TextFrom(ms, g);
      FromIs(ms, g, 0);
      RingResolves(lt, tree, ms, fuel);
      RingResolves(lt, other, From(ms, g), fuel);
      HoldsSameKeys(tree, other, ms);
      OutcomesAgreeExactly(ResolveTree(lt, tree, fuel), ResolveTree(lt, other, fuel), tree, other, ms, g);
    }
  }

  // ---------- the smallest ones ----------

  function Pair(a: Member, b: Member, keys: seq<string>): Val {
    Obj(keys, map[a.key := ValueOf(a), b.key := ValueOf(b)], map[])
  }

  lemma {:induction false} PairHolds(a: Member, b: Member, keys: seq<string>)
    requires a.key != b.key && a.id != b.id && a.next == b.key && b.next == a.key
    requires keys == [a.key, b.key] || keys == [b.key, a.key]
    ensures Ring([a, b]) && Holds(Pair(a, b, keys), [a, b])
  {
    var ms, tree := [a, b], Pair(a, b, keys);
    assert ms[0] == a && ms[1] == b && keys[0] in keys && keys[1] in keys;
    forall k | k in tree.vals ensures HasKey(ms, k) {
      assert ms[if k == a.key then 0 else 1].key == k;
    }
  }

  lemma {:induction false} PairTexts(a: Member, b: Member)
    ensures Final([a, b], 0) == (a.tail + b.tail) + a.tail && Final([a, b], 1) == ((a.tail + b.tail) + a.tail) + b.tail
  {
    var ms := [a, b];
    assert Gathered(ms, 2) == a.tail && Gathered(ms, 1) == a.tail + b.tail;
  }

  /** Two members, a first. */
  lemma {:induction false} PairResolves(lt: LetterTest, a: Member, b: Member, fuel: nat)
    requires a.key != b.key && a.id != b.id && a.next == b.key && b.next == a.key && a.tail + b.tail != "" && fuel >= 3
    ensures var r := ResolveTree(lt, Pair(a, b, [a.key, b.key]), fuel);
            if a.optional
            then r.Ok? && r.v.Obj? && Get(r.v.vals, a.key) == Some(Text((a.tail + b.tail) + a.tail))
                 && Get(r.v.vals, b.key) == Some(Text(((a.tail + b.tail) + a.tail) + b.tail))
            else r == Fail
  {
    var ms := [a, b];
    PairHolds(a, b, [a.key, b.key]);
    assert ms[0] == a && ms[1] == b;
    PairTexts(a, b);
    RingResolves(lt, Pair(a, b, [a.key, b.key]), ms, fuel);
  }

  /** a = ${b}x, b = ${?a}: an error with a first, a value with b first. */
  lemma {:induction false} MixedCycleDependsOnOrder(lt: LetterTest, fuel: nat)
    requires fuel >= 3
    ensures var a, b := Member("a", 0, "b", false, "x"), Member("b", 1, "a", true, "");
            && ResolveTree(lt, Pair(a, b, ["a", "b"]), fuel) == Fail
            && ResolveTree(lt, Pair(b, a, ["b", "a"]), fuel).Ok?
            && Pair(a, b, ["b", "a"]) == Pair(b, a, ["b", "a"])
  {
    var a, b := Member("a", 0, "b", false, "x"), Member("b", 1, "a", true, "");
    assert "a"[0] != "b"[0];
    PairResolves(lt, a, b, fuel);
    PairResolves(lt, b, a, fuel);
  }

  /** a = ${?b}, b = ${?a}x: a is x in one order and xx in the other. */
  lemma {:induction false} OptionalCycleDependsOnOrder(lt: LetterTest, fuel: nat)
    requires fuel >= 3
    ensures var a, b := Member("a", 0, "b", true, ""), Member("b", 1, "a", true, "x");
            var r, t := ResolveTree(lt, Pair(a, b, ["a", "b"]), fuel), ResolveTree(lt, Pair(b, a, ["b", "a"]), fuel);
            && Pair(a, b, ["b", "a"]) == Pair(b, a, ["b", "a"])
            && r.Ok? && t.Ok? && Lookup(r.v, ["a"]) == Some(Text("x")) && Lookup(t.v, ["a"]) == Some(Text("xx"))
  {
    var a, b := Member("a", 0, "b", true, ""), Member("b", 1, "a", true, "x");
    assert "a"[0] != "b"[0] && ("" + "x") + "" == "x" && (("x" + "") + "x") + "" == "xx";
    PairResolves(lt, a, b, fuel);
    PairResolves(lt, b, a, fuel);
  }
}
