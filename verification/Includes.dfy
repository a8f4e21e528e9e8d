/**
 Include expansion (loadIncludeFile, parseAndResolve and the include branch of
 resolveObject in internal/resolver/resolver.go): documents include each other by
 name, and one stack of names, shared by all resolvers of a run, tells a cycle.
 */
module Includes {
  import opened Paths
  import opened Values

  /** What stands in a document, in order; an include may stand inside an object. */
  datatype Item = Field(id: nat) | Nested(items: seq<Item>) | Include(name: string, required: bool)

  datatype Document = Unreadable | Malformed | Parsed(items: seq<Item>)

  /** The items with every include replaced by what it includes. */
  datatype Outcome = Loaded(items: seq<Item>) | Circular | CannotRead | CannotParse

  type Documents = map<string, Document>

  ghost function Free(docs: Documents, stack: seq<string>): set<string> {
    docs.Keys - set k | k in stack
  }

  lemma {:induction false} OneLessFree(docs: Documents, stack: seq<string>, name: string)
    requires name in docs && name !in stack
    ensures |Free(docs, stack + [name])| < |Free(docs, stack)|
  {
    assert Free(docs, stack + [name]) == Free(docs, stack) - {name};
  }

  function Load(docs: Documents, stack: seq<string>, name: string, required: bool): Outcome
    decreases |Free(docs, stack)|, 0, 0
  {
    if name in stack then Circular
    else if name !in docs then if required then CannotRead else Loaded([])
    else
      match docs[name]
      case Unreadable => CannotRead
      case Malformed => CannotParse
      case Parsed(items) =>
        OneLessFree(docs, stack, name);
        Expand(docs, stack + [name], items)
  }

  function Expand(docs: Documents, stack: seq<string>, items: seq<Item>): Outcome
    decreases |Free(docs, stack)|, 1, items
  {
    if items == [] then Loaded([])
    else
      var first := ExpandItem(docs, stack, items[0]);
      if !first.Loaded? then first
      else
        var rest := Expand(docs, stack, items[1..]);
        if rest.Loaded? then Loaded(first.items + rest.items) else rest
  }

  function ExpandItem(docs: Documents, stack: seq<string>, item: Item): Outcome
    decreases |Free(docs, stack)|, 1, item
  {
    match item
    case Field(_) => Loaded([item])
    case Nested(items) => var r := Expand(docs, stack, items); if r.Loaded? then Loaded([Nested(r.items)]) else r
    case Include(name, required) => Load(docs, stack, name, required)
  }

  // ---------- the code of the source ----------

  class Loader {
    const docs: Documents
    var includeStack: seq<string>

    constructor (docs: Documents)
      ensures this.docs == docs && includeStack == []
    {
      this.docs := docs;
      this.includeStack := [];
    }

    /** The stack is free of duplicates in every call, and as before after it, on
        success and on error. */
    method LoadIncludeFile(name: string, required: bool) returns (r: Outcome)
      requires Distinct(includeStack)
      modifies this
      ensures r == Load(docs, old(includeStack), name, required)
      ensures includeStack == old(includeStack)
      decreases |Free(docs, includeStack)|, 0, 0
    {
      for i := 0 to |includeStack|
        invariant includeStack == old(includeStack)
        invariant forall j | 0 <= j < i :: includeStack[j] != name
      {
        if includeStack[i] == name {
          return Circular;
        }
      }
      ghost var before := includeStack;
      includeStack := includeStack + [name];
      if name !in docs {
        r := if required then CannotRead else Loaded([]);
      } else {
        match docs[name] {
          case Unreadable => r := CannotRead;
          case Malformed => r := CannotParse;
          case Parsed(items) =>
            OneLessFree(docs, before, name);
            r := ResolveObject(items);
        }
      }
      includeStack := includeStack[..|includeStack| - 1];
    }

    /** The loop over the fields of an object. */
    method ResolveObject(items: seq<Item>) returns (r: Outcome)
      requires Distinct(includeStack)
      modifies this
      ensures r == Expand(docs, old(includeStack), items)
      ensures includeStack == old(includeStack)
      decreases |Free(docs, includeStack)|, 1, items
    {
      var done: seq<Item> := [];
      ghost var stack := includeStack;
      ghost var all := Expand(docs, stack, items);
      assert all.Loaded? ==> [] + all.items == all.items;
      assert items[0..] == items;
      for i := 0 to |items|
        invariant includeStack == stack
        invariant Expand(docs, stack, items) == Behind(done, Expand(docs, stack, items[i..]))
      {
        assert items[i..][1..] == items[i + 1..];
        var one := ResolveItem(items[i]);
        if !one.Loaded? {
          return one;
        }
        BehindOne(done, one.items, Expand(docs, stack, items[i + 1..]));
        done := done + one.items;
      }
      assert done + [] == done;
      return Loaded(done);
    }

    method ResolveItem(item: Item) returns (r: Outcome)
      requires Distinct(includeStack)
      modifies this
      ensures r == ExpandItem(docs, old(includeStack), item)
      ensures includeStack == old(includeStack)
      decreases |Free(docs, includeStack)|, 1, item
    {
      match item
      case Field(_) => return Loaded([item]);
      case Nested(items) =>
        r := ResolveObject(items);
        return if r.Loaded? then Loaded([Nested(r.items)]) else r;
      case Include(name, required) => r := LoadIncludeFile(name, required);
    }
  }

  ghost function Behind(done: seq<Item>, r: Outcome): Outcome {
    if r.Loaded? then Loaded(done + r.items) else r
  }

  lemma {:induction false} BehindOne(done: seq<Item>, one: seq<Item>, rest: Outcome)
    ensures Behind(done, Behind(one, rest)) == Behind(done + one, rest)
  {
    if rest.Loaded? {
      Assoc(done, one, rest.items);
    }
  }

  // ---------- nothing is left to include ----------

  predicate NoIncludes(items: seq<Item>) {
    forall i | 0 <= i < |items| :: Bare(items[i])
  }

  predicate Bare(item: Item) {
    match item
    case Field(_) => true
    case Nested(items) => forall i | 0 <= i < |items| :: Bare(items[i])
    case Include(_, _) => false
  }

  lemma {:induction false} ExpandedIsBare(docs: Documents, stack: seq<string>, items: seq<Item>)
    ensures Expand(docs, stack, items).Loaded? ==> NoIncludes(Expand(docs, stack, items).items)
    decreases |Free(docs, stack)|, 1, items
  {
    if items != [] {
      ExpandedItemIsBare(docs, stack, items[0]);
      ExpandedIsBare(docs, stack, items[1..]);
    }
  }

  lemma {:induction false} ExpandedItemIsBare(docs: Documents, stack: seq<string>, item: Item)
    ensures ExpandItem(docs, stack, item).Loaded? ==> NoIncludes(ExpandItem(docs, stack, item).items)
    decreases |Free(docs, stack)|, 1, item
  {
    match item
    case Field(_) =>
    case Nested(items) => ExpandedIsBare(docs, stack, items);
    case Include(name, _) =>
      if name !in stack && name in docs && docs[name].Parsed? {
        OneLessFree(docs, stack, name);
        ExpandedIsBare(docs, stack + [name], docs[name].items);
      }
  }

  // ---------- cycles ----------

  /** The name is included somewhere in the items. */
  predicate Names(items: seq<Item>, name: string) {
    exists i | 0 <= i < |items| :: ItemNames(items[i], name)
  }

  predicate ItemNames(item: Item, name: string) {
    match item
    case Field(_) => false
    case Nested(items) => exists i | 0 <= i < |items| :: ItemNames(items[i], name)
    case Include(n, _) => n == name
  }

  /** A chain of includes from the items on: each name stands in the document before. */
  ghost predicate Walk(docs: Documents, items: seq<Item>, path: seq<string>)
    decreases |path|
  {
    path == [] ||
    (Names(items, path[0]) &&
     (|path| == 1 || (path[0] in docs && docs[path[0]].Parsed? && Walk(docs, docs[path[0]].items, path[1..]))))
  }

  /** Every document can be read and parsed, and no required one is missing. */
  ghost predicate Sound(docs: Documents) {
    forall d | d in docs :: docs[d].Parsed? && SoundItems(docs, docs[d].items)
  }

  ghost predicate SoundItems(docs: Documents, items: seq<Item>) {
    forall i | 0 <= i < |items| :: SoundItem(docs, items[i])
  }

  ghost predicate SoundItem(docs: Documents, item: Item) {
    match item
    case Field(_) => true
    case Nested(items) => forall i | 0 <= i < |items| :: SoundItem(docs, items[i])
    case Include(name, required) => required ==> name in docs
  }

  lemma {:induction false} OnlyCycles(docs: Documents, stack: seq<string>, items: seq<Item>)
    requires Sound(docs) && SoundItems(docs, items)
    ensures Expand(docs, stack, items).Loaded? || Expand(docs, stack, items).Circular?
    decreases |Free(docs, stack)|, 1, items
  {
    if items != [] {
      OnlyCyclesItem(docs, stack, items[0]);
      OnlyCycles(docs, stack, items[1..]);
    }
  }

  lemma {:induction false} OnlyCyclesItem(docs: Documents, stack: seq<string>, item: Item)
    requires Sound(docs) && SoundItem(docs, item)
    ensures ExpandItem(docs, stack, item).Loaded? || ExpandItem(docs, stack, item).Circular?
    decreases |Free(docs, stack)|, 1, item
  {
    match item
    case Field(_) =>
    case Nested(items) => OnlyCycles(docs, stack, items);
    case Include(name, _) =>
      if name !in stack && name in docs {
        OneLessFree(docs, stack, name);
        OnlyCycles(docs, stack + [name], docs[name].items);
      }
  }

  ghost predicate Witness(docs: Documents, stack: seq<string>, items: seq<Item>, path: seq<string>) {
    path != [] && Walk(docs, items, path) && !Distinct(stack + path)
  }

  /** A report of a circular include is never wrong. */
  lemma {:induction false} CircularHasCycle(docs: Documents, stack: seq<string>, items: seq<Item>)
    returns (path: seq<string>)
    requires Distinct(stack) && Expand(docs, stack, items).Circular?
    ensures Witness(docs, stack, items, path)
    decreases |Free(docs, stack)|, 1, items
  {
    if ExpandItem(docs, stack, items[0]).Circular? {
      path := CircularItemHasCycle(docs, stack, items[0]);
      assert Names(items, path[0]);
    } else {
      path := CircularHasCycle(docs, stack, items[1..]);
      var i :| 0 <= i < |items[1..]| && ItemNames(items[1..][i], path[0]);
      assert ItemNames(items[i + 1], path[0]);
    }
  }

  lemma {:induction false} CircularItemHasCycle(docs: Documents, stack: seq<string>, item: Item)
    returns (path: seq<string>)
    requires Distinct(stack) && ExpandItem(docs, stack, item).Circular?
    ensures Witness(docs, stack, [item], path) && ItemNames(item, path[0])
    decreases |Free(docs, stack)|, 1, item
  {
    match item
    case Nested(items) =>
      path := CircularHasCycle(docs, stack, items);
      assert ItemNames([item][0], path[0]);
    case Include(name, _) =>
      assert ItemNames([item][0], name);
      if name in stack {
        path := [name];
        var i :| 0 <= i < |stack| && stack[i] == name;
        assert (stack + path)[i] == (stack + path)[|stack|];
      } else {
        OneLessFree(docs, stack, name);
        var rest := CircularHasCycle(docs, stack + [name], docs[name].items);
        path := [name] + rest;
        assert path[1..] == rest;
        Assoc(stack, [name], rest);
      }
  }

  /** Every cycle is reported. */
  lemma {:induction false} CycleIsCircular(docs: Documents, stack: seq<string>, items: seq<Item>, path: seq<string>)
    requires Distinct(stack) && Sound(docs) && SoundItems(docs, items) && Witness(docs, stack, items, path)
    ensures Expand(docs, stack, items).Circular?
    decreases |Free(docs, stack)|, 1, items
  {
    OnlyCycles(docs, stack, items);
    OnlyCyclesItem(docs, stack, items[0]);
    if ItemNames(items[0], path[0]) {
      assert ItemNames([items[0]][0], path[0]);
      CycleItemIsCircular(docs, stack, items[0], path);
    } else {
      var i :| 0 <= i < |items| && ItemNames(items[i], path[0]);
      assert ItemNames(items[1..][i - 1], path[0]);
      CycleIsCircular(docs, stack, items[1..], path);
    }
  }

  lemma {:induction false} CycleItemIsCircular(docs: Documents, stack: seq<string>, item: Item, path: seq<string>)
    requires Distinct(stack) && Sound(docs) && SoundItem(docs, item) && Witness(docs, stack, [item], path) &&
             ItemNames(item, path[0])
    ensures ExpandItem(docs, stack, item).Circular?
    decreases |Free(docs, stack)|, 1, item
  {
    match item
    case Nested(items) => CycleIsCircular(docs, stack, items, path);
    case Include(name, _) =>
      if name !in stack {
        StillDistinct(stack, name);
        assert |path| > 1 by { assert |path| == 1 ==> path == [name]; }
        OneLessFree(docs, stack, name);
        assert path == [name] + path[1..];
        Assoc(stack, [name], path[1..]);
        CycleIsCircular(docs, stack + [name], docs[name].items, path[1..]);
      }
  }

  lemma {:induction false} StillDistinct(stack: seq<string>, name: string)
    requires Distinct(stack) && name !in stack
    ensures Distinct(stack + [name])
  {
  }

  /** On readable documents phase 1 either succeeds or reports a circular include,
      and it reports one exactly when a cycle can be reached from the root. */
  lemma {:induction false} CircularExactlyOnCycles(docs: Documents, items: seq<Item>)
    requires Sound(docs) && SoundItems(docs, items)
    ensures Expand(docs, [], items).Circular? <==> exists path :: Walk(docs, items, path) && !Distinct(path)
    ensures Expand(docs, [], items).Loaded? || Expand(docs, [], items).Circular?
  {
    OnlyCycles(docs, [], items);
    if Expand(docs, [], items).Circular? {
      var path := CircularHasCycle(docs, [], items);
      assert [] + path == path;
    }
    if path :| Walk(docs, items, path) && !Distinct(path) {
      assert [] + path == path;
      CycleIsCircular(docs, [], items, path);
    }
  }
}
