/**
 An object of data merged in between two others, and when that changes nothing:
 equality up to the order of fields, decided key by key.
 */
module Insertions {
  import opened Paths
  import opened Values
  import opened Merge
  import opened Reordering
  import opened Layers
  import opened Joins

  /** b is in c already, wherever both have objects. */
  ghost predicate Contained(b: Val, c: Val) {
    if b.Obj? && c.Obj? then forall j | j in b.vals :: j in c.vals && Contained(b.vals[j], c.vals[j])
    else Reordered(b, c)
  }

  /** Putting b between a and c changes nothing: what a does not hide of b is in c. */
  ghost predicate AddsNothing(a: Val, b: Val, c: Val)
    requires a.Obj? && b.Obj? && c.Obj?
    decreases b, 1
  {
    forall j | j in b.vals :: AddsNothingAt(a, b, c, j)
  }

  ghost predicate AddsNothingAt(a: Val, b: Val, c: Val, j: string)
    requires a.Obj? && b.Obj? && c.Obj? && j in b.vals
    decreases b, 0
  {
    if j !in a.vals then j in c.vals && Contained(b.vals[j], c.vals[j])
    else if !a.vals[j].Obj? || !b.vals[j].Obj? then true
    else if j in c.vals && c.vals[j].Obj? then AddsNothing(a.vals[j], b.vals[j], c.vals[j])
    else Covers(a.vals[j], b.vals[j])
  }

  ghost predicate AlikeAt(a: Val, b: Val, j: string)
    requires a.Obj? && b.Obj?
  {
    BothOrNone(Get(a.vals, j), Get(b.vals, j))
  }

  /** Two objects of data are alike when they are alike at every key. */
  lemma {:induction false} AlikeByKeys(a: Val, b: Val)
    requires a.Obj? && b.Obj? && Concrete(a) && Concrete(b)
    ensures Reordered(a, b) <==> forall j :: AlikeAt(a, b, j)
  {
    if forall j :: AlikeAt(a, b, j) {
      forall j ensures j in a.vals <==> j in b.vals { assert AlikeAt(a, b, j); }
      forall j | j in a.vals ensures Reordered(a.vals[j], b.vals[j]) { assert AlikeAt(a, b, j); }
    } else if Reordered(a, b) {
      var j :| !AlikeAt(a, b, j);
      assert j in a.vals <==> j in b.vals;
    }
  }

  /** Alike everywhere else. */
  lemma {:induction false} AlikeButAt(a: Val, b: Val, h: string)
    requires a.Obj? && b.Obj? && Concrete(a) && Concrete(b) && h in a.vals && h in b.vals
    requires forall j | j != h :: Get(a.vals, j) == Get(b.vals, j)
    ensures Reordered(a, b) <==> Reordered(a.vals[h], b.vals[h])
  {
    AlikeByKeys(a, b);
    forall j ensures AlikeAt(a, b, j) <==> (j == h ==> Reordered(a.vals[h], b.vals[h])) {
      if j != h && j in a.vals { ReorderedItself(a.vals[j]); }
    }
    assert AlikeAt(a, b, h) <==> Reordered(a.vals[h], b.vals[h]);
  }

  lemma {:induction false} ContainedExactly(lt: LetterTest, b: Val, c: Val)
    requires b.Obj? && c.Obj? && Concrete(b) && Concrete(c)
    ensures Reordered(DeepMerge(lt, b, c), c) <==> Contained(b, c)
  {
    var m := DeepMerge(lt, b, c);
    MergedIsData(lt, b, c);
    AlikeByKeys(m, c);
    forall j ensures AlikeAt(m, c, j) <==>
      (j in b.vals ==> j in c.vals && Contained(b.vals[j], c.vals[j])) {
      MergedAtKey(lt, b, c, j);
      if j in c.vals { ReorderedItself(c.vals[j]); }
      if j in b.vals && j in c.vals && b.vals[j].Obj? && c.vals[j].Obj? {
        ContainedExactly(lt, b.vals[j], c.vals[j]);
      }
    }
  }

  /** Merging over an object it covers changes nothing, in whatever order. */
  lemma {:induction false} CoveredExactly(lt: LetterTest, a: Val, b: Val)
    requires a.Obj? && b.Obj? && Concrete(a) && Concrete(b)
    ensures Reordered(DeepMerge(lt, a, b), a) <==> Covers(a, b)
    decreases b
  {
    var m := DeepMerge(lt, a, b);
    MergedIsData(lt, a, b);
    AlikeByKeys(m, a);
    forall j ensures AlikeAt(m, a, j) <==>
      (j in b.vals ==> j in a.vals && (a.vals[j].Obj? && b.vals[j].Obj? ==> Covers(a.vals[j], b.vals[j]))) {
      MergedAtKey(lt, a, b, j);
      if j in a.vals { ReorderedItself(a.vals[j]); }
      if j in a.vals && j in b.vals && a.vals[j].Obj? && b.vals[j].Obj? { CoveredExactly(lt, a.vals[j], b.vals[j]); }
    }
  }

  lemma {:induction false} AddsNothingExactly(lt: LetterTest, a: Val, b: Val, c: Val)
    requires a.Obj? && b.Obj? && c.Obj? && Concrete(a) && Concrete(b) && Concrete(c)
    ensures Reordered(DeepMerge(lt, DeepMerge(lt, a, b), c), DeepMerge(lt, a, c)) <==> AddsNothing(a, b, c)
    decreases b, 1
  {
    var m, t := DeepMerge(lt, DeepMerge(lt, a, b), c), DeepMerge(lt, a, c);
    MergedIsData(lt, a, b);
    MergedIsData(lt, a, c);
    MergedIsData(lt, DeepMerge(lt, a, b), c);
    AlikeByKeys(m, t);
    forall j ensures AlikeAt(m, t, j) <==> (j in b.vals ==> AddsNothingAt(a, b, c, j)) {
      AddsNothingAtKey(lt, a, b, c, j);
    }
  }

  lemma {:induction false} AddsNothingAtKey(lt: LetterTest, a: Val, b: Val, c: Val, j: string)
    requires a.Obj? && b.Obj? && c.Obj? && Concrete(a) && Concrete(b) && Concrete(c)
    ensures var m, t := DeepMerge(lt, DeepMerge(lt, a, b), c), DeepMerge(lt, a, c);
            AlikeAt(m, t, j) <==> (j in b.vals ==> AddsNothingAt(a, b, c, j))
    decreases b, 0
  {
    var x, t := DeepMerge(lt, a, b), DeepMerge(lt, a, c);
    MergedIsData(lt, a, b);
    MergedAtKey(lt, a, b, j);
    MergedAtKey(lt, a, c, j);
    MergedAtKey(lt, x, c, j);
    if j in t.vals { ReorderedItself(t.vals[j]); }
    if j in b.vals {
      if j !in a.vals {
        if j in c.vals && b.vals[j].Obj? && c.vals[j].Obj? { ContainedExactly(lt, b.vals[j], c.vals[j]); }
      } else if a.vals[j].Obj? && b.vals[j].Obj? {
        if j in c.vals && c.vals[j].Obj? {
          AddsNothingExactly(lt, a.vals[j], b.vals[j], c.vals[j]);
        } else {
          CoveredExactly(lt, a.vals[j], b.vals[j]);
        }
      }
    }
  }
}
