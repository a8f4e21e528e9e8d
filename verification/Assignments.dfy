/**
 Phase 1 on top-level keys of one segment: assigning a key again saves what it
 held as a prior (resolveObject in internal/resolver/resolver.go), and `+=` is
 such an assignment (AppendToConcat in internal/parser/ast.go).
 */
module Assignments {
  import opened Paths
  import opened Values
  import opened Fold
  import opened Merge

  /** One assignment; "id" names the reference that `+=` brings along. */
  datatype Field = Field(key: string, value: Val, append: bool, id: nat)

  /** AppendToConcat: key += v stands for key = ${?key} [v]. */
  function Desugared(f: Field): Val {
    if f.append then Concat([Subst(f.id, [f.key], true, false), Arr([f.value])]) else f.value
  }

  /** The root under construction and the resolver's priorValues. */
  datatype Doc = Doc(obj: Val, saved: map<string, Val>)

  function Assign(lt: LetterTest, d: Doc, key: string, v: Val): (r: Doc)
    requires d.obj.Obj?
    ensures r.obj.Obj?
  {
    if key !in d.obj.vals then d.(obj := Set(d.obj, key, v))
    else
      var existing, full := d.obj.vals[key], KeyOf(lt, [key]);
      var v' := if existing.Obj? && v.Obj? then DeepMergeAt(lt, v, existing, [key], true) else v;
      var prior := FoldOrSkip(lt, existing, full, Get(d.saved, full));
      var o := Set(d.obj, key, v');
      Doc(o.(priors := Put(o.priors, key, prior)), Put(d.saved, full, prior))
  }

  function AssignAll(lt: LetterTest, fields: seq<Field>): (d: Doc)
    ensures d.obj.Obj?
  {
    if fields == [] then Doc(EMPTY_OBJ, map[])
    else
      var f := fields[|fields| - 1];
      Assign(lt, AssignAll(lt, fields[..|fields| - 1]), f.key, Desugared(f))
  }

  // ---------- the code of the source ----------

  class Builder {
    const lt: LetterTest
    var priorValues: map<string, Val>
    var obj: Val

    ghost function State(): Doc
      reads this
    {
      Doc(obj, priorValues)
    }

    constructor (lt: LetterTest)
      ensures this.lt == lt && State() == Doc(EMPTY_OBJ, map[])
    {
      this.lt := lt;
      this.priorValues := map[];
      this.obj := EMPTY_OBJ;
    }

    method AssignKey(key: string, value: Val)
      requires obj.Obj?
      modifies this
      ensures State() == Assign(lt, old(State()), key, value)
    {
      var val := value;
      if key in obj.vals {
        var existing := obj.vals[key];
        if existing.Obj? && val.Obj? {
          val := DeepMergeAt(lt, val, existing, [key], true);
        }
        var full := KeyOf(lt, [key]);
        var prior := FoldOrSkip(lt, existing, full, Get(priorValues, full));
        if prior.Some? {
          priorValues := priorValues[full := prior.value];
          obj := obj.(priors := obj.priors[key := prior.value]);
        }
      }
      obj := Set(obj, key, val);
    }
  }

  /** The loop of resolveObject over the fields of the root. */
  method BuildTree(lt: LetterTest, fields: seq<Field>) returns (tree: Val)
    ensures tree == AssignAll(lt, fields).obj
  {
    var builder := new Builder(lt);
    for i := 0 to |fields|
      invariant builder.lt == lt && builder.obj.Obj?
      invariant fresh(builder)
      invariant builder.State() == AssignAll(lt, fields[..i])
    {
      assert fields[..i + 1][..i] == fields[..i];
      builder.AssignKey(fields[i].key, Desugared(fields[i]));
    }
    assert fields[..|fields|] == fields;
    return builder.obj;
  }

  // ---------- the prior invariant over whole runs ----------

  /** The two records of priors agree, and no prior mentions its own key. */
  ghost predicate PriorFreeOfKey(lt: LetterTest, d: Doc, k: string)
    requires d.obj.Obj?
  {
    var full := KeyOf(lt, [k]);
    && Get(d.obj.priors, k) == Get(d.saved, full)
    && (full in d.saved ==> !Mentions(lt, d.saved[full], full))
  }

  /** Over every run of assignments to top-level keys, whatever the values. */
  lemma {:induction false} PriorNeverMentionsItsKey(lt: LetterTest, fields: seq<Field>, k: string)
    ensures PriorFreeOfKey(lt, AssignAll(lt, fields), k)
  {
    if fields != [] {
      var f, before := fields[|fields| - 1], fields[..|fields| - 1];
      PriorNeverMentionsItsKey(lt, before, k);
      PriorNeverMentionsItsKey(lt, before, f.key);
      KeysNeverCollide(lt, [f.key], [k]);
      var d := AssignAll(lt, before);
      if f.key in d.obj.vals {
        SavedPriorIsFree(lt, d.obj.vals[f.key], KeyOf(lt, [f.key]), Get(d.saved, KeyOf(lt, [f.key])));
      }
    }
  }
}
