/**
 Including is writing in place (loadIncludeFile and the include branch of
 resolveObject in internal/resolver/resolver.go): what an expansion consists of, told
 from the documents alone, and that expanding gives just that.
 */
module Inlining {
  import opened Includes

  /** A reading of an item: where it is a field, an object, an include with the items
      of the document in its place, or an optional include of nothing. */
  datatype Reading =
    | Plain(id: nat)
    | Inside(parts: seq<Reading>)
    | Of(name: string, required: bool, parts: seq<Reading>)
    | Nothing(name: string)

  /** The item that is read. */
  function Read(t: Reading): Item {
    match t
    case Plain(id) => Field(id)
    case Inside(ts) => Nested(seq(|ts|, i requires 0 <= i < |ts| => Read(ts[i])))
    case Of(name, required, _) => Include(name, required)
    case Nothing(name) => Include(name, false)
  }

  /** The items of the documents in place of the includes. */
  function InPlace(t: Reading): seq<Item>
    decreases t, 1
  {
    match t
    case Plain(id) => [Field(id)]
    case Inside(ts) => [Nested(AllInPlace(ts))]
    case Of(_, _, ts) => AllInPlace(ts)
    case Nothing(_) => []
  }

  function AllInPlace(ts: seq<Reading>): seq<Item>
    decreases ts, 0
  {
    if ts == [] then [] else InPlace(ts[0]) + AllInPlace(ts[1..])
  }

  /** The reading follows the documents, and no document is read within itself. */
  ghost predicate Follows(docs: Documents, stack: seq<string>, t: Reading)
    decreases t
  {
    match t
    case Plain(_) => true
    case Inside(ts) => forall i | 0 <= i < |ts| :: Follows(docs, stack, ts[i])
    case Of(name, _, ts) =>
      && name !in stack && name in docs
      && docs[name] == Parsed(seq(|ts|, i requires 0 <= i < |ts| => Read(ts[i])))
      && forall i | 0 <= i < |ts| :: Follows(docs, stack + [name], ts[i])
    case Nothing(name) => name !in stack && name !in docs
  }

  ghost predicate Reads(docs: Documents, stack: seq<string>, items: seq<Item>, ts: seq<Reading>) {
    && |ts| == |items|
    && forall i | 0 <= i < |ts| :: Read(ts[i]) == items[i] && Follows(docs, stack, ts[i])
  }

  // ---------- what loads is read in place ----------

  lemma {:induction false} ReadsOneMore(docs: Documents, stack: seq<string>, items: seq<Item>, t: Reading,
                                        ts: seq<Reading>)
    requires items != [] && Read(t) == items[0] && Follows(docs, stack, t) && Reads(docs, stack, items[1..], ts)
    ensures Reads(docs, stack, items, [t] + ts) && AllInPlace([t] + ts) == InPlace(t) + AllInPlace(ts)
  {
    var us := [t] + ts;
    assert us[1..] == ts;
    forall i | 0 <= i < |us| ensures Read(us[i]) == items[i] && Follows(docs, stack, us[i]) {
      if i > 0 { assert us[i] == ts[i - 1] && items[1..][i - 1] == items[i]; }
    }
  }

  /** Whatever loads has a reading. */
  lemma {:induction false} LoadedIsRead(docs: Documents, stack: seq<string>, items: seq<Item>)
    returns (ts: seq<Reading>)
    requires Expand(docs, stack, items).Loaded?
    ensures Reads(docs, stack, items, ts) && Expand(docs, stack, items) == Loaded(AllInPlace(ts))
    decreases |Free(docs, stack)|, 1, items
  {
    if items == [] {
      ts := [];
    } else {
      var t := LoadedItemIsRead(docs, stack, items[0]);
      var rest := LoadedIsRead(docs, stack, items[1..]);
      ReadsOneMore(docs, stack, items, t, rest);
      ts := [t] + rest;
    }
  }

  lemma {:induction false} LoadedItemIsRead(docs: Documents, stack: seq<string>, item: Item) returns (t: Reading)
    requires ExpandItem(docs, stack, item).Loaded?
    ensures Read(t) == item && Follows(docs, stack, t) && ExpandItem(docs, stack, item) == Loaded(InPlace(t))
    decreases |Free(docs, stack)|, 1, item
  {
    match item
    case Field(id) => t := Plain(id);
    case Nested(items) =>
      var ts := LoadedIsRead(docs, stack, items);
      t := Inside(ts);
      assert seq(|ts|, i requires 0 <= i < |ts| => Read(ts[i])) == items;
    case Include(name, required) =>
      if name !in docs {
        t := Nothing(name);
      } else {
        OneLessFree(docs, stack, name);
        var ts := LoadedIsRead(docs, stack + [name], docs[name].items);
        t := Of(name, required, ts);
        assert seq(|ts|, i requires 0 <= i < |ts| => Read(ts[i])) == docs[name].items;
      }
  }

  // ---------- what is read in place loads ----------

  lemma {:induction false} ReadsRest(docs: Documents, stack: seq<string>, items: seq<Item>, ts: seq<Reading>)
    requires Reads(docs, stack, items, ts) && items != []
    ensures Read(ts[0]) == items[0] && Follows(docs, stack, ts[0]) && Reads(docs, stack, items[1..], ts[1..])
  {
    forall i | 0 <= i < |ts[1..]| ensures Read(ts[1..][i]) == items[1..][i] && Follows(docs, stack, ts[1..][i]) {
      assert ts[1..][i] == ts[i + 1] && items[1..][i] == items[i + 1];
    }
  }

  /** A reading that follows the documents is what the expansion gives. */
  lemma {:induction false} ReadIsLoaded(docs: Documents, stack: seq<string>, items: seq<Item>, ts: seq<Reading>)
    requires Reads(docs, stack, items, ts)
    ensures Expand(docs, stack, items) == Loaded(AllInPlace(ts))
    decreases |Free(docs, stack)|, 1, items
  {
    if items != [] {
      ReadsRest(docs, stack, items, ts);
      ReadItemIsLoaded(docs, stack, items[0], ts[0]);
      ReadIsLoaded(docs, stack, items[1..], ts[1..]);
    }
  }

  lemma {:induction false} InsideReads(docs: Documents, stack: seq<string>, item: Item, ts: seq<Reading>)
    requires Read(Inside(ts)) == item && Follows(docs, stack, Inside(ts))
    ensures item.Nested? && Reads(docs, stack, item.items, ts)
  {
  }

  lemma {:induction false} OfReads(docs: Documents, stack: seq<string>, name: string, required: bool, ts: seq<Reading>)
    requires Follows(docs, stack, Of(name, required, ts))
    ensures docs[name].Parsed? && Reads(docs, stack + [name], docs[name].items, ts)
  {
  }

  lemma {:induction false} ReadItemIsLoaded(docs: Documents, stack: seq<string>, item: Item, t: Reading)
    requires Read(t) == item && Follows(docs, stack, t)
    ensures ExpandItem(docs, stack, item) == Loaded(InPlace(t))
    decreases |Free(docs, stack)|, 1, item
  {
    match t
    case Plain(_) =>
    case Nothing(_) =>
    case Inside(ts) =>
      InsideReads(docs, stack, item, ts);
      ReadIsLoaded(docs, stack, item.items, ts);
    case Of(name, required, ts) =>
      OneLessFree(docs, stack, name);
      OfReads(docs, stack, name, required, ts);
      ReadIsLoaded(docs, stack + [name], docs[name].items, ts);
  }

  /** An expansion succeeds exactly when the items can be read with no document inside
      itself, and then it is that reading: every field of every document reached, in
      order and at its place. */
  lemma {:induction false} ExpandedExactly(docs: Documents, stack: seq<string>, items: seq<Item>, out: seq<Item>)
    ensures Expand(docs, stack, items) == Loaded(out) <==>
            exists ts :: Reads(docs, stack, items, ts) && out == AllInPlace(ts)
  {
    if Expand(docs, stack, items) == Loaded(out) {
      var ts := LoadedIsRead(docs, stack, items);
    }
    if ts :| Reads(docs, stack, items, ts) && out == AllInPlace(ts) {
      ReadIsLoaded(docs, stack, items, ts);
    }
  }

  // ---------- and where it does not load ----------

  /** The first thing that goes wrong, in the order of the text. */
  lemma {:induction false} InOrder(docs: Documents, stack: seq<string>, a: seq<Item>, b: seq<Item>)
    ensures Expand(docs, stack, a + b) ==
            if !Expand(docs, stack, a).Loaded? then Expand(docs, stack, a)
            else Behind(Expand(docs, stack, a).items, Expand(docs, stack, b))
    decreases |a|
  {
    if a == [] {
      assert a + b == b;
      if Expand(docs, stack, b).Loaded? { assert [] + Expand(docs, stack, b).items == Expand(docs, stack, b).items; }
    } else {
      assert (a + b)[0] == a[0] && (a + b)[1..] == a[1..] + b;
      InOrder(docs, stack, a[1..], b);
      if ExpandItem(docs, stack, a[0]).Loaded? && Expand(docs, stack, a[1..]).Loaded? {
        BehindOne(ExpandItem(docs, stack, a[0]).items, Expand(docs, stack, a[1..]).items, Expand(docs, stack, b));
      }
    }
  }

  /** Including a document between a and b is writing its items between them, with the
      document on the stack while they are expanded. */
  lemma {:induction false} IncludeIsInlined(docs: Documents, stack: seq<string>, a: seq<Item>, name: string,
                                            required: bool, b: seq<Item>)
    requires name in docs && docs[name].Parsed? && name !in stack
    requires Expand(docs, stack, a).Loaded?
    ensures Expand(docs, stack, a + [Include(name, required)] + b) ==
            var inner := Expand(docs, stack + [name], docs[name].items);
            if !inner.Loaded? then inner
            else Behind(Expand(docs, stack, a).items + inner.items, Expand(docs, stack, b))
  {
    var one := [Include(name, required)];
    InOrder(docs, stack, a + one, b);
    InOrder(docs, stack, a, one);
    OneItem(docs, stack, one[0]);
  }

  lemma {:induction false} OneItem(docs: Documents, stack: seq<string>, item: Item)
    ensures Expand(docs, stack, [item]) == ExpandItem(docs, stack, item)
  {
    assert [item][1..] == [];
    var r := ExpandItem(docs, stack, item);
    if r.Loaded? { assert r.items + [] == r.items; }
  }

  /** What is reported for an include that does not load: a document within itself, a
      required one that is missing, one that cannot be read or parsed. */
  lemma {:induction false} IncludeFails(docs: Documents, stack: seq<string>, name: string, required: bool)
    ensures var r := Expand(docs, stack, [Include(name, required)]);
            && (name in stack ==> r == Circular)
            && (name !in stack && name !in docs ==> r == if required then CannotRead else Loaded([]))
            && (name !in stack && name in docs && docs[name].Unreadable? ==> r == CannotRead)
            && (name !in stack && name in docs && docs[name].Malformed? ==> r == CannotParse)
  {
    OneItem(docs, stack, Include(name, required));
  }
}
