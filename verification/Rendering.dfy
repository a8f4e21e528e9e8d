/**
 RenderHOCON (render_hocon.go): a resolved tree as HOCON text.
 */
module Rendering {
  import opened Paths
  import opened Values
  import opened Numerals
  import opened Literals

  predicate IsLetter(c: char) {
    'a' <= c <= 'z' || 'A' <= c <= 'Z'
  }

  predicate IsWordChar(c: char) {
    IsLetter(c) || IsDigit(c) || c == '_' || c == '-'
  }

  /** safeUnquotedKey */
  predicate SafeKey(k: string) {
    k != "" && forall i | 0 <= i < |k| :: IsWordChar(k[i])
  }

  function RenderKey(k: string): string {
    if k != "include" && SafeKey(k) then k else QuoteString(k)
  }

  function LowerChar(c: char): char {
    if 'A' <= c <= 'Z' then (c as int + 32) as char else c
  }

  function Lower(s: string): string {
    seq(|s|, i requires 0 <= i < |s| => LowerChar(s[i]))
  }

  /** safeBareString, with the keywords taken out. */
  predicate SafeString(s: string) {
    && SafeKey(s) && IsLetter(s[0])
    && Lower(s) !in ["true", "false", "null", "yes", "no", "on", "off"]
  }

  function RenderString(s: string): string {
    if SafeString(s) then s else QuoteString(s)
  }

  function RenderScalar(v: Val): string
    requires v.Scalar?
  {
    match v.typ
    case NullT => "null"
    case BooleanT => v.raw
    case NumberT => v.raw
    case StringT => RenderString(v.raw)
  }

  function Indent(depth: nat): (s: string)
    ensures forall i | 0 <= i < |s| :: s[i] == ' '
  {
    if depth == 0 then "" else "  " + Indent(depth - 1)
  }

  lemma {:induction false} IndentIs(depth: nat)
    ensures |Indent(depth)| == 2 * depth
  {
    if depth > 0 { IndentIs(depth - 1); }
  }

  /** A word that might be read as something else is quoted, in any case of its letters. */
  lemma {:induction false} AmbiguousIsQuoted(s: string)
    requires Lower(s) in ["true", "false", "null", "yes", "no", "on", "off"]
    ensures RenderString(s) == "\"" + EscapeAll(s) + "\"" && RenderString(s) != s
  {
    assert |Lower(s)| == |s|;
    forall i | 0 <= i < |s| ensures s[i] != '\n' { assert Lower(s)[i] == LowerChar(s[i]); }
  }

  /** A resolved tree whose keys slices list its keys. */
  predicate Printable(v: Val) {
    match v
    case Scalar(_, _, _) => true
    case Subst(_, _, _, _) => false
    case Concat(_) => false
    case Arr(es) => forall i | 0 <= i < |es| :: Printable(es[i])
    case Obj(_, vals, _) => KeysMatch(v) && forall k | k in vals :: Printable(vals[k])
  }

  function RenderBody(o: Val, keys: seq<string>, depth: nat): string
    requires o.Obj? && Printable(o) && forall k | k in keys :: k in o.vals
    decreases o, 1, |keys|
  {
    if keys == [] then "" else RenderField(o, keys[0], depth) + RenderBody(o, keys[1..], depth)
  }

  function RenderField(o: Val, k: string, depth: nat): string
    requires o.Obj? && Printable(o) && k in o.vals
    decreases o, 0
  {
    var v := o.vals[k];
    Indent(depth) + (RenderKey(k) +
      (if v.Obj? then " " + (RenderValue(v, depth) + "\n")
       else " " + ("=" + (" " + (RenderValue(v, depth) + "\n")))))
  }

  /** A plain word under a plain key stands on a line as it is, and so does a number. */
  lemma {:induction false} PlainLine(o: Val, k: string, depth: nat)
    requires o.Obj? && Printable(o) && k in o.vals && o.vals[k].Scalar?
    requires k != "" && k != "include" && forall i | 0 <= i < |k| :: IsWordChar(k[i])
    requires o.vals[k].typ == NumberT || (o.vals[k].typ == StringT && SafeString(o.vals[k].raw))
    ensures RenderField(o, k, depth) == Indent(depth) + (k + " = " + o.vals[k].raw + "\n")
  {
    var raw := o.vals[k].raw;
    assert " " + ("=" + (" " + (raw + "\n"))) == " = " + raw + "\n";
    assert k + (" = " + raw + "\n") == k + " = " + raw + "\n";
  }

  function RenderValue(v: Val, depth: nat): string
    requires Printable(v)
    decreases v, 2
  {
    match v
    case Scalar(_, _, _) => RenderScalar(v)
    case Arr(es) => if es == [] then "[]" else "[" + ("\n" + (RenderElements(es, depth + 1) + (Indent(depth) + "]")))
    case Obj(keys, _, _) =>
      if keys == [] then "{}" else "{" + ("\n" + (RenderBody(v, keys, depth + 1) + (Indent(depth) + "}")))
  }

  function RenderElements(es: seq<Val>, depth: nat): string
    requires forall i | 0 <= i < |es| :: Printable(es[i])
    decreases es, 0
  {
    if es == [] then ""
    else Indent(depth) + (RenderValue(es[0], depth) + ("\n" + RenderElements(es[1..], depth)))
  }

  // ---------- the loops of the source ----------

  ghost predicate Wrote(b: string, before: string, text: string) {
    b == before + text
  }

  lemma {:induction false} Appended(b: string, before: string, done: string, more: string)
    requires Wrote(b, before, done)
    ensures Wrote(b + more, before, done + more)
  {
    Assoc(before, done, more);
  }

  lemma {:induction false} BodySnoc(o: Val, keys: seq<string>, i: nat, depth: nat)
    requires o.Obj? && Printable(o) && i < |keys| && forall k | k in keys :: k in o.vals
    ensures RenderBody(o, keys[..i + 1], depth) == RenderBody(o, keys[..i], depth) + RenderField(o, keys[i], depth)
    decreases i
  {
    var f := RenderField(o, keys[0], depth);
    if i == 0 {
      assert keys[..1] == [keys[0]] && keys[..0] == [] && [keys[0]][1..] == [];
      assert f + "" == f && "" + f == f;
    } else {
      assert keys[..i + 1][1..] == keys[1..][..i] && keys[..i][1..] == keys[1..][..i - 1];
      BodySnoc(o, keys[1..], i - 1, depth);
      Assoc(f, RenderBody(o, keys[1..][..i - 1], depth), RenderField(o, keys[i], depth));
    }
  }

  function RenderElement(v: Val, depth: nat): string
    requires Printable(v)
  {
    Indent(depth) + (RenderValue(v, depth) + "\n")
  }

  lemma {:induction false} ElementsUnfold(es: seq<Val>, depth: nat)
    requires es != [] && forall i | 0 <= i < |es| :: Printable(es[i])
    ensures RenderElements(es, depth) == RenderElement(es[0], depth) + RenderElements(es[1..], depth)
  {
    var a, v, rest := Indent(depth), RenderValue(es[0], depth), RenderElements(es[1..], depth);
    Assoc(a, v + "\n", rest);
    Assoc(v, "\n", rest);
  }

  lemma {:induction false} ElementsSnoc(es: seq<Val>, i: nat, depth: nat)
    requires i < |es| && forall j | 0 <= j < |es| :: Printable(es[j])
    ensures RenderElements(es[..i + 1], depth) == RenderElements(es[..i], depth) + RenderElement(es[i], depth)
    decreases i
  {
    var f := RenderElement(es[0], depth);
    ElementsUnfold(es[..i + 1], depth);
    if i == 0 {
      assert es[..1] == [es[0]] && es[..0] == [] && [es[0]][1..] == [];
      assert f + "" == f && "" + f == f;
    } else {
      assert es[..i + 1][1..] == es[1..][..i] && es[..i][1..] == es[1..][..i - 1];
      ElementsUnfold(es[..i], depth);
      ElementsSnoc(es[1..], i - 1, depth);
      Assoc(f, RenderElements(es[1..][..i - 1], depth), RenderElement(es[i], depth));
    }
  }

  /** renderObjectBody, appending to the builder; it fails on a placeholder. */
  method RenderObjectBody(before: string, o: Val, depth: nat) returns (b: string, ok: bool)
    requires o.Obj? && WellFormed(o)
    ensures ok <==> Printable(o)
    ensures ok ==> b == before + RenderBody(o, o.keys, depth)
    decreases o, 1
  {
    b, ok := before, true;
    assert before + "" == before;
    for i := 0 to |o.keys|
      invariant forall j | 0 <= j < i :: Printable(o.vals[o.keys[j]])
      invariant Printable(o) ==> b == before + RenderBody(o, o.keys[..i], depth)
    {
      var k := o.keys[i];
      var start := b;
      b, ok := RenderOneField(b, o, k, depth);
      if !ok {
        return;
      }
      if Printable(o) {
        BodySnoc(o, o.keys, i, depth);
        assert Wrote(start, before, RenderBody(o, o.keys[..i], depth));
        Appended(start, before, RenderBody(o, o.keys[..i], depth), RenderField(o, k, depth));
      }
    }
    assert o.keys[..|o.keys|] == o.keys;
    forall k | k in o.vals ensures Printable(o.vals[k]) {
      assert k in o.keys;
    }
  }

  method RenderOneField(before: string, o: Val, k: string, depth: nat) returns (b: string, ok: bool)
    requires o.Obj? && WellFormed(o) && k in o.vals
    ensures ok <==> Printable(o.vals[k])
    ensures ok && Printable(o) ==> b == before + RenderField(o, k, depth)
    decreases o, 0
  {
    var v := o.vals[k];
    b := before + Indent(depth) + RenderKey(k);
    var mark := if v.Obj? then " " else " = ";
    var text;
    text, ok := RenderAny(b + mark, v, depth);
    b := text + "\n";
    if ok {
      var r := RenderValue(v, depth);
      Assoc(before, Indent(depth), RenderKey(k));
      Assoc(before, Indent(depth) + RenderKey(k), mark + (r + "\n"));
      Assoc(Indent(depth), RenderKey(k), mark + (r + "\n"));
      Assoc(before + (Indent(depth) + RenderKey(k)), mark, r + "\n");
      Assoc(before + (Indent(depth) + RenderKey(k)) + mark, r, "\n");
      EqualsMark(r + "\n");
    }
  }

  lemma {:induction false} EqualsMark(t: string)
    ensures " = " + t == " " + ("=" + (" " + t))
  {
  }

  /** renderValue and renderArray. */
  method RenderAny(before: string, v: Val, depth: nat) returns (b: string, ok: bool)
    requires WellFormed(v)
    ensures ok <==> Printable(v)
    ensures ok ==> b == before + RenderValue(v, depth)
    decreases v, 2
  {
    match v
    case Scalar(_, _, _) => return before + RenderScalar(v), true;
    case Subst(_, _, _, _) => return before, false;
    case Concat(_) => return before, false;
    case Obj(keys, _, _) =>
      if keys == [] {
        return before + "{}", true;
      }
      b, ok := RenderObjectBody(before + "{" + "\n", v, depth + 1);
      if ok {
        Enclosed(before, "{", "\n", RenderBody(v, keys, depth + 1), Indent(depth) + "}");
        Assoc(b, Indent(depth), "}");
      }
      b := b + Indent(depth) + "}";
    case Arr(es) =>
      if es == [] {
        return before + "[]", true;
      }
      b, ok := RenderElementsLoop(before + "[" + "\n", es, depth + 1);
      if ok {
        Enclosed(before, "[", "\n", RenderElements(es, depth + 1), Indent(depth) + "]");
        Assoc(b, Indent(depth), "]");
      }
      b := b + Indent(depth) + "]";
  }

  lemma {:induction false} Enclosed(before: string, left: string, nl: string, inner: string, right: string)
    ensures (((before + left) + nl) + inner) + right == before + (left + (nl + (inner + right)))
  {
    Assoc((before + left) + nl, inner, right);
    Assoc(before + left, nl, inner + right);
    Assoc(before, left, nl + (inner + right));
  }

  method RenderElementsLoop(before: string, es: seq<Val>, depth: nat) returns (b: string, ok: bool)
    requires forall i | 0 <= i < |es| :: WellFormed(es[i])
    ensures ok <==> forall i | 0 <= i < |es| :: Printable(es[i])
    ensures ok ==> b == before + RenderElements(es, depth)
    decreases es, 0
  {
    b, ok := before, true;
    assert before + "" == before;
    for i := 0 to |es|
      invariant forall j | 0 <= j < i :: Printable(es[j])
      invariant b == before + RenderElements(es[..i], depth)
    {
      var start := b;
      b := b + Indent(depth);
      b, ok := RenderAny(b, es[i], depth);
      if !ok {
        return;
      }
      b := b + "\n";
      ElementsSnoc(es[..i + 1], i, depth);
      assert es[..i + 1][..i + 1] == es[..i + 1] && es[..i + 1][..i] == es[..i];
      Assoc(start + Indent(depth), RenderValue(es[i], depth), "\n");
      Assoc(start, Indent(depth), RenderValue(es[i], depth) + "\n");
      assert Wrote(start, before, RenderElements(es[..i], depth));
      Appended(start, before, RenderElements(es[..i], depth), RenderElement(es[i], depth));
    }
    assert es[..|es|] == es;
  }

  /** The whole document, or nothing when the tree holds a placeholder. */
  function RenderTree(root: Val): Option<string>
    requires root.Obj?
  {
    if Printable(root) then Some(RenderBody(root, root.keys, 0)) else None
  }

  method RenderHocon(root: Val) returns (r: Option<string>)
    requires root.Obj? && WellFormed(root)
    ensures r == RenderTree(root)
  {
    var b, ok := RenderObjectBody("", root, 0);
    if ok {
      assert "" + RenderBody(root, root.keys, 0) == RenderBody(root, root.keys, 0);
    }
    r := if ok then Some(b) else None;
  }
}
