/**
 The round trip: lexing, parsing and building the text that RenderHOCON prints for
 a resolved tree gives that tree back, keys in the same order.
 */
module RoundTrip {
  import opened Paths
  import opened Values
  import opened Numerals
  import opened Lexing
  import opened Literals
  import opened Rendering
  import opened Parsing

  // ---------- the trees in question ----------

  /** A number as the lexer and the parser accept it. */
  predicate NumberLexeme(fl: FloatTest, raw: string) {
    && raw != "" && (raw[0] == '-' || IsDigit(raw[0])) && RunLength(raw) == |raw|
    && match NumberRunType(raw) {
         case None => false
         case Some(kind) => if kind == TInt then IntOk(raw) else fl(raw)
       }
  }

  /** A resolved tree of data: any strings and keys, acceptable numbers. */
  predicate Data(fl: FloatTest, v: Val) {
    match v
    case Scalar(raw, typ, separator) =>
      !separator &&
      (match typ
       case StringT => true
       case NumberT => NumberLexeme(fl, raw)
       case BooleanT => raw == "true" || raw == "false"
       case NullT => raw == "null")
    case Arr(es) => forall i | 0 <= i < |es| :: Data(fl, es[i])
    case Obj(_, vals, priors) => priors == map[] && KeysMatch(v) && forall k | k in vals :: Data(fl, vals[k])
    case _ => false
  }

  lemma {:induction false} DataIsPrintable(fl: FloatTest, v: Val)
    requires Data(fl, v)
    ensures Printable(v) && Concrete(v)
  {
    match v
    case Arr(es) => forall i | 0 <= i < |es| { DataIsPrintable(fl, es[i]); }
    case Obj(_, vals, _) => forall k | k in vals { DataIsPrintable(fl, vals[k]); }
    case _ =>
  }

  // ---------- the tokens of a printed tree ----------

  function BareTokens(k: string, ws: string): seq<Token>
    requires k != ""
  {
    var n := RunLength(k);
    var kind := NumberRunType(k[..n]);
    if k[0] != '-' && !IsDigit(k[0]) then [Token(KeywordKind(k), k, false, ws)]
    else if kind.None? then [Token(TString, k, false, ws)]
    else [Token(kind.value, k[..n], false, ws)] +
         if n == |k| then [] else [Token(KeywordKind(k[n..]), k[n..], false, "")]
  }

  function KeyTokens(k: string, ws: string): seq<Token> {
    if k != "include" && SafeKey(k) then BareTokens(k, ws) else [Token(TString, k, true, ws)]
  }

  function ScalarTokens(v: Val, ws: string): seq<Token>
    requires v.Scalar?
  {
    match v.typ
    case StringT => if SafeString(v.raw) then BareTokens(v.raw, ws) else [Token(TString, v.raw, true, ws)]
    case NumberT => [Token(if NumberRunType(v.raw).Some? then NumberRunType(v.raw).value else TError, v.raw, false, ws)]
    case BooleanT => [Token(TBool, v.raw, false, ws)]
    case NullT => [Token(TNull, "null", false, ws)]
  }

  function Sign(kind: Kind, value: string, ws: string): Token {
    Token(kind, value, false, ws)
  }

  const NL: Token := Token(TNewline, "", false, "")

  function ValueTokens(v: Val, depth: nat, ws: string): seq<Token>
    requires Printable(v)
    decreases v, 2
  {
    match v
    case Scalar(_, _, _) => ScalarTokens(v, ws)
    case Arr(es) =>
      if es == [] then [Sign(TLBracket, "[", ws), Sign(TRBracket, "]", "")]
      else [Sign(TLBracket, "[", ws), NL] + (ElementTokens(es, depth + 1) + [Sign(TRBracket, "]", Indent(depth))])
    case Obj(keys, _, _) =>
      if keys == [] then [Sign(TLBrace, "{", ws), Sign(TRBrace, "}", "")]
      else [Sign(TLBrace, "{", ws), NL] + (BodyTokens(v, keys, depth + 1) + [Sign(TRBrace, "}", Indent(depth))])
  }

  function ElementTokens(es: seq<Val>, depth: nat): seq<Token>
    requires forall i | 0 <= i < |es| :: Printable(es[i])
    decreases es, 0
  {
    if es == [] then [] else ValueTokens(es[0], depth, Indent(depth)) + ([NL] + ElementTokens(es[1..], depth))
  }

  function FieldTokens(o: Val, k: string, depth: nat): seq<Token>
    requires o.Obj? && Printable(o) && k in o.vals
    decreases o, 0
  {
    var v := o.vals[k];
    KeyTokens(k, Indent(depth)) +
      ((if v.Obj? then [] else [Sign(TEquals, "=", " ")]) + (ValueTokens(v, depth, " ") + [NL]))
  }

  function BodyTokens(o: Val, keys: seq<string>, depth: nat): seq<Token>
    requires o.Obj? && Printable(o) && forall k | k in keys :: k in o.vals
    decreases o, 1, |keys|
  {
    if keys == [] then [] else FieldTokens(o, keys[0], depth) + BodyTokens(o, keys[1..], depth)
  }

  // ---------- lexing, token by token ----------

  /** Whitespace, newlines aside. */
  predicate Blank(s: string) {
    forall i | 0 <= i < |s| :: IsSpace(s[i]) && s[i] != '\n'
  }

  /** A text that starts a token. */
  predicate Starts(s: string) {
    s != "" && (s[0] == '\n' || !IsSpace(s[0])) && !StartsComment(s)
  }

  /** A text that ends a word. */
  predicate Stops(s: string) {
    s != "" && (s[0] == ' ' || s[0] == '\n')
  }

  lemma {:induction false} SkipBlank(ws: string, s: string)
    requires Blank(ws) && Starts(s)
    ensures Skip(ws + s) == Skipped(ws, s)
  {
    if ws == "" {
      assert ws + s == s;
    } else {
      assert (ws + s)[1..] == ws[1..] + s && (ws + s)[0] == ws[0];
      SkipBlank(ws[1..], s);
      assert ws == [ws[0]] + ws[1..];
    }
  }

  lemma {:induction false} Step(ws: string, s: string, tok: Token, rest: string)
    requires Blank(ws) && Starts(s) && NextToken(s) == Lexed(tok, rest) && !Last(tok)
    ensures Tokens(ws + s) == [tok.(space := ws)] + Tokens(rest)
  {
    SkipBlank(ws, s);
  }

  lemma {:induction false} StepChar(ws: string, c: char, kind: Kind, rest: string)
    requires Blank(ws) &&
             (c, kind) in [('[', TLBracket), (']', TRBracket), ('{', TLBrace), ('}', TRBrace), ('=', TEquals),
                           (':', TColon), (',', TComma)]
    ensures Tokens(ws + ([c] + rest)) == [Sign(kind, [c], ws)] + Tokens(rest)
  {
    assert ([c] + rest)[1..] == rest;
    Step(ws, [c] + rest, Sign(kind, [c], ""), rest);
  }

  lemma {:induction false} StepNewline(rest: string)
    ensures Tokens("\n" + rest) == [NL] + Tokens(rest)
  {
    assert ("\n" + rest)[1..] == rest && "" + ("\n" + rest) == "\n" + rest;
    Step("", "\n" + rest, NL, rest);
  }

  // ---------- words ----------

  lemma {:induction false} WordChars(c: char)
    requires IsWordChar(c)
    ensures !IsForbidden(c) && c != '/' && c != '"' && c != '.' && c != '+' && c != '\n' && c != '#'
  {
    assert FORBIDDEN ==
           ['$', '"', '{', '}', '[', ']', ':', '=', ',', '+', '#', '\\', '^', '?', '!', '@', '*', '&', '`'];
  }

  lemma {:induction false} UnquotedIs(k: string, rest: string)
    requires (forall i | 0 <= i < |k| :: IsWordChar(k[i])) && Stops(rest)
    ensures UnquotedLength(k + rest) == |k|
  {
    if k == "" {
      assert k + rest == rest;
    } else {
      WordChars(k[0]);
      assert (k + rest)[1..] == k[1..] + rest;
      UnquotedIs(k[1..], rest);
    }
  }

  lemma {:induction false} RunIs(k: string, rest: string)
    requires rest == "" || !IsRunChar(rest[0])
    ensures RunLength(k + rest) == RunLength(k)
  {
    if k == "" {
      assert k + rest == rest;
    } else {
      assert (k + rest)[1..] == k[1..] + rest;
      RunIs(k[1..], rest);
    }
  }

  lemma {:induction false} WordStarts(k: string, rest: string)
    requires SafeKey(k)
    ensures Starts(k + rest) && (k + rest)[0] == k[0]
  {
    WordChars(k[0]);
  }

  /** A word that does not start like a number. */
  lemma {:induction false} LexWord(k: string, ws: string, rest: string)
    requires SafeKey(k) && k[0] != '-' && !IsDigit(k[0]) && Stops(rest) && Blank(ws)
    ensures Tokens(ws + (k + rest)) == [Token(KeywordKind(k), k, false, ws)] + Tokens(rest)
  {
    var s := k + rest;
    WordStarts(k, rest);
    WordChars(k[0]);
    UnquotedIs(k, rest);
    assert s[..|k|] == k && s[|k|..] == rest;
    assert NextToken(s) == ReadUnquotedOrKeyword(s);
    Step(ws, s, Token(KeywordKind(k), k, false, ""), rest);
  }

  lemma {:induction false} NumberFirst(s: string)
    requires s != "" && (s[0] == '-' || IsDigit(s[0]))
    ensures NextToken(s) == ReadNumber(s) && Starts(s)
  {
    var c := s[0];
    assert c != '\n' && c != '{' && c != '}' && c != '[' && c != ']' && c != ',' && c != ':' && c != '=';
    assert c != '+' && c != '$' && c != '"' && c != '#' && c != '/' && !IsSpace(c);
  }

  /** A number in front of a text that is no part of its run. */
  lemma {:induction false} LexRun(run: string, ws: string, rest: string)
    requires run != "" && (run[0] == '-' || IsDigit(run[0])) && RunLength(run + rest) == |run|
    requires NumberRunType(run).Some? && Blank(ws)
    ensures Tokens(ws + (run + rest)) == [Token(NumberRunType(run).value, run, false, ws)] + Tokens(rest)
  {
    var s := run + rest;
    NumberFirst(s);
    assert s[..|run|] == run && s[|run|..] == rest;
    Step(ws, s, Token(NumberRunType(run).value, run, false, ""), rest);
  }

  lemma {:induction false} NoPlus(k: string, n: nat)
    requires SafeKey(k) && n <= |k|
    ensures '+' !in k[..n]
  {
  }

  lemma {:induction false} ReadNoNumber(k: string, rest: string)
    requires SafeKey(k) && Stops(rest) && NumberRunType(k[..RunLength(k)]).None?
    ensures ReadNumber(k + rest) == Lexed(Token(TString, k, false, ""), rest)
  {
    var s, n := k + rest, RunLength(k);
    RunIs(k, rest);
    assert s[..n] == k[..n] && s[n..] == k[n..] + rest;
    NoPlus(k, n);
    UnquotedIs(k[n..], rest);
    assert s[..|k|] == k && s[|k|..] == rest;
  }

  /** A word that starts like a number and is none. */
  lemma {:induction false} LexNoNumber(k: string, ws: string, rest: string)
    requires SafeKey(k) && (k[0] == '-' || IsDigit(k[0])) && Stops(rest) && Blank(ws)
    requires NumberRunType(k[..RunLength(k)]).None?
    ensures Tokens(ws + (k + rest)) == [Token(TString, k, false, ws)] + Tokens(rest)
  {
    NumberFirst(k + rest);
    ReadNoNumber(k, rest);
    Step(ws, k + rest, Token(TString, k, false, ""), rest);
  }

  /** A number with a word right behind it. */
  lemma {:induction false} LexRunAndTail(run: string, tail: string, ws: string, rest: string)
    requires run != "" && (run[0] == '-' || IsDigit(run[0])) && NumberRunType(run).Some?
    requires RunLength(run + (tail + rest)) == |run|
    requires SafeKey(tail) && tail[0] != '-' && !IsDigit(tail[0]) && Stops(rest) && Blank(ws)
    ensures Tokens(ws + (run + (tail + rest))) ==
            [Token(NumberRunType(run).value, run, false, ws), Token(KeywordKind(tail), tail, false, "")] + Tokens(rest)
  {
    LexRun(run, ws, tail + rest);
    LexWord(tail, "", rest);
    assert "" + (tail + rest) == tail + rest;
    var a, b := [Token(NumberRunType(run).value, run, false, ws)], [Token(KeywordKind(tail), tail, false, "")];
    Assoc(a, b, Tokens(rest));
    assert a + b == [a[0], b[0]];
  }

  lemma {:induction false} TailOfRun(k: string)
    requires SafeKey(k) && RunLength(k) < |k|
    ensures var tail := k[RunLength(k)..];
            SafeKey(tail) && tail[0] != '-' && !IsDigit(tail[0])
  {
    var n := RunLength(k);
    assert k[n..][0] == k[n] && !IsRunChar(k[n]);
    assert forall i | 0 <= i < |k[n..]| :: k[n..][i] == k[n + i];
  }

  lemma {:induction false} CutRun(k: string, rest: string)
    requires SafeKey(k) && Stops(rest)
    ensures var n := RunLength(k);
            k + rest == k[..n] + (k[n..] + rest) && RunLength(k[..n] + (k[n..] + rest)) == n
  {
    var n := RunLength(k);
    RunIs(k, rest);
    assert k[..n] + k[n..] == k;
    Assoc(k[..n], k[n..], rest);
  }

  lemma {:induction false} WholeRunTokens(k: string, ws: string)
    requires k != "" && (k[0] == '-' || IsDigit(k[0])) && RunLength(k) == |k| && NumberRunType(k).Some?
    ensures BareTokens(k, ws) == [Token(NumberRunType(k).value, k, false, ws)]
  {
    assert k[..|k|] == k;
  }

  lemma {:induction false} LexWholeRun(k: string, ws: string, rest: string)
    requires SafeKey(k) && (k[0] == '-' || IsDigit(k[0])) && Stops(rest) && Blank(ws)
    requires RunLength(k) == |k| && NumberRunType(k).Some?
    ensures Tokens(ws + (k + rest)) == BareTokens(k, ws) + Tokens(rest)
  {
    WholeRunTokens(k, ws);
    RunIs(k, rest);
    LexRun(k, ws, rest);
  }

  lemma {:induction false} LexPartRun(k: string, ws: string, rest: string)
    requires SafeKey(k) && (k[0] == '-' || IsDigit(k[0])) && Stops(rest) && Blank(ws)
    requires RunLength(k) < |k| && NumberRunType(k[..RunLength(k)]).Some?
    ensures Tokens(ws + (k + rest)) == BareTokens(k, ws) + Tokens(rest)
  {
    var n := RunLength(k);
    var run, tail := k[..n], k[n..];
    CutRun(k, rest);
    TailOfRun(k);
    LexRunAndTail(run, tail, ws, rest);
    var a, b := Token(NumberRunType(run).value, run, false, ws), Token(KeywordKind(tail), tail, false, "");
    assert BareTokens(k, ws) == [a] + [b] && [a] + [b] == [a, b];
  }

  lemma {:induction false} LexBare(k: string, ws: string, rest: string)
    requires SafeKey(k) && Stops(rest) && Blank(ws)
    ensures Tokens(ws + (k + rest)) == BareTokens(k, ws) + Tokens(rest)
  {
    if k[0] != '-' && !IsDigit(k[0]) {
      LexWord(k, ws, rest);
    } else if NumberRunType(k[..RunLength(k)]).None? {
      LexNoNumber(k, ws, rest);
    } else if RunLength(k) == |k| {
      assert k[..|k|] == k;
      LexWholeRun(k, ws, rest);
    } else {
      LexPartRun(k, ws, rest);
    }
  }

  lemma {:induction false} LexQuoted(s: string, ws: string, rest: string)
    requires Stops(rest) && Blank(ws)
    ensures Tokens(ws + (QuoteString(s) + rest)) == [Token(TString, s, true, ws)] + Tokens(rest)
  {
    LiteralReadsBack(s, rest);
    assert (QuoteString(s) + rest)[0] == '"';
    Step(ws, QuoteString(s) + rest, Token(TString, s, true, ""), rest);
  }

  lemma {:induction false} LexKey(k: string, ws: string, rest: string)
    requires Stops(rest) && Blank(ws)
    ensures Tokens(ws + (RenderKey(k) + rest)) == KeyTokens(k, ws) + Tokens(rest)
  {
    if k != "include" && SafeKey(k) {
      LexBare(k, ws, rest);
    } else {
      LexQuoted(k, ws, rest);
    }
  }

  lemma {:induction false} LexScalar(fl: FloatTest, v: Val, ws: string, rest: string)
    requires v.Scalar? && Data(fl, v) && Stops(rest) && Blank(ws)
    ensures Tokens(ws + (RenderScalar(v) + rest)) == ScalarTokens(v, ws) + Tokens(rest)
  {
    match v.typ
    case StringT => if SafeString(v.raw) { LexBare(v.raw, ws, rest); } else { LexQuoted(v.raw, ws, rest); }
    case NumberT =>
      RunIs(v.raw, rest);
      LexRun(v.raw, ws, rest);
    case BooleanT => LexWord(v.raw, ws, rest);
    case NullT => LexWord("null", ws, rest);
  }

  // ---------- lexing a whole tree ----------

  /** A container that holds something: its brackets on lines of their own. */
  lemma {:induction false} LexEnclosed(ws: string, open: char, openKind: Kind, close: char, closeKind: Kind,
                                       inner: string,
                                       innerTokens: seq<Token>, indent: string, rest: string)
    requires Blank(ws) && Blank(indent)
    requires (open, openKind) in [('[', TLBracket), ('{', TLBrace)] &&
             (close, closeKind) in [(']', TRBracket), ('}', TRBrace)]
    requires var tail := indent + ([close] + rest); Tokens(inner + tail) == innerTokens + Tokens(tail)
    ensures Tokens(ws + (([open] + ("\n" + (inner + (indent + [close])))) + rest)) ==
            ([Sign(openKind, [open], ws), NL] + (innerTokens + [Sign(closeKind, [close], indent)])) + Tokens(rest)
  {
    var tail := indent + ([close] + rest);
    EnclosedText([open], "\n", inner, indent, [close], rest);
    StepChar(ws, open, openKind, "\n" + (inner + tail));
    StepNewline(inner + tail);
    StepChar(indent, close, closeKind, rest);
    EnclosedTokens([Sign(openKind, [open], ws)], [NL], innerTokens, [Sign(closeKind, [close], indent)], Tokens(rest));
  }

  lemma {:induction false} EnclosedText(a: string, b: string, inner: string, indent: string, close: string,
                                        rest: string)
    ensures (a + (b + (inner + (indent + close)))) + rest == a + (b + (inner + (indent + (close + rest))))
  {
    Assoc(a, b + (inner + (indent + close)), rest);
    Assoc(b, inner + (indent + close), rest);
    Assoc(inner, indent + close, rest);
    Assoc(indent, close, rest);
  }

  lemma {:induction false} EnclosedTokens(a: seq<Token>, b: seq<Token>, inner: seq<Token>, c: seq<Token>,
                                          rest: seq<Token>)
    requires |a| == 1 && |b| == 1
    ensures a + (b + (inner + (c + rest))) == ([a[0], b[0]] + (inner + c)) + rest
  {
    assert a + b == [a[0], b[0]];
    Assoc(inner, c, rest);
    Assoc(a, b, inner + (c + rest));
    Assoc(a + b, inner + c, rest);
  }

  lemma {:induction false} LexEmpty(ws: string, open: char, openKind: Kind, close: char, closeKind: Kind, rest: string)
    requires Blank(ws)
    requires (open, openKind) in [('[', TLBracket), ('{', TLBrace)] &&
             (close, closeKind) in [(']', TRBracket), ('}', TRBrace)]
    ensures Tokens(ws + ([open, close] + rest)) ==
            [Sign(openKind, [open], ws), Sign(closeKind, [close], "")] + Tokens(rest)
  {
    assert [open, close] + rest == [open] + ([close] + rest) && "" + ([close] + rest) == [close] + rest;
    StepChar(ws, open, openKind, [close] + rest);
    StepChar("", close, closeKind, rest);
    Assoc([Sign(openKind, [open], ws)], [Sign(closeKind, [close], "")], Tokens(rest));
    assert [Sign(openKind, [open], ws)] + [Sign(closeKind, [close], "")] ==
           [Sign(openKind, [open], ws), Sign(closeKind, [close], "")];
  }

  lemma {:induction false} LexAroundElements(v: Val, depth: nat, ws: string, rest: string)
    requires v.Arr? && v.elems != [] && Printable(v) && Blank(ws)
    requires var tail := Indent(depth) + ([']'] + rest);
             Tokens(RenderElements(v.elems, depth + 1) + tail) == ElementTokens(v.elems, depth + 1) + Tokens(tail)
    ensures Tokens(ws + (RenderValue(v, depth) + rest)) == ValueTokens(v, depth, ws) + Tokens(rest)
  {
    var inner, toks := RenderElements(v.elems, depth + 1), ElementTokens(v.elems, depth + 1);
    LexEnclosed(ws, '[', TLBracket, ']', TRBracket, inner, toks, Indent(depth), rest);
    assert RenderValue(v, depth) == ['['] + ("\n" + (inner + (Indent(depth) + [']'])));
  }

  lemma {:induction false} LexArr(fl: FloatTest, v: Val, depth: nat, ws: string, rest: string)
    requires v.Arr? && v.elems != [] && Data(fl, v) && Printable(v) && Blank(ws)
    ensures Tokens(ws + (RenderValue(v, depth) + rest)) == ValueTokens(v, depth, ws) + Tokens(rest)
    decreases v, 1
  {
    LexElements(fl, v.elems, depth + 1, Indent(depth) + ([']'] + rest));
    LexAroundElements(v, depth, ws, rest);
  }

  lemma {:induction false} LexBraced(ws: string, inner: string, toks: seq<Token>, indent: string, rest: string)
    requires Blank(ws) && Blank(indent)
    requires var tail := indent + (['}'] + rest); Tokens(inner + tail) == toks + Tokens(tail)
    ensures Tokens(ws + ((['{'] + ("\n" + (inner + (indent + ['}'])))) + rest)) ==
            ([Sign(TLBrace, "{", ws), NL] + (toks + [Sign(TRBrace, "}", indent)])) + Tokens(rest)
  {
    LexEnclosed(ws, '{', TLBrace, '}', TRBrace, inner, toks, indent, rest);
  }

  lemma {:induction false} ObjectText(v: Val, depth: nat)
    requires v.Obj? && v.keys != [] && Printable(v)
    ensures RenderValue(v, depth) ==
            ['{'] + ("\n" + (RenderBody(v, v.keys, depth + 1) + (Indent(depth) + ['}'])))
  {
  }

  lemma {:induction false} LexAroundBody(v: Val, depth: nat, ws: string, rest: string)
    requires v.Obj? && v.keys != [] && Printable(v) && Blank(ws)
    requires var tail := Indent(depth) + (['}'] + rest);
             Tokens(RenderBody(v, v.keys, depth + 1) + tail) == BodyTokens(v, v.keys, depth + 1) + Tokens(tail)
    ensures Tokens(ws + (RenderValue(v, depth) + rest)) == ValueTokens(v, depth, ws) + Tokens(rest)
  {
    LexBraced(ws, RenderBody(v, v.keys, depth + 1), BodyTokens(v, v.keys, depth + 1), Indent(depth), rest);
    ObjectText(v, depth);
    ObjectTokens(v, depth, ws);
  }

  lemma {:induction false} LexObj(fl: FloatTest, v: Val, depth: nat, ws: string, rest: string)
    requires v.Obj? && v.keys != [] && Data(fl, v) && Printable(v) && Blank(ws)
    ensures Tokens(ws + (RenderValue(v, depth) + rest)) == ValueTokens(v, depth, ws) + Tokens(rest)
    decreases v, 2
  {
    LexBody(fl, v, v.keys, depth + 1, Indent(depth) + (['}'] + rest));
    LexAroundBody(v, depth, ws, rest);
  }

  lemma {:induction false} LexValue(fl: FloatTest, v: Val, depth: nat, ws: string, rest: string)
    requires Data(fl, v) && Printable(v) && Blank(ws) && Stops(rest)
    ensures Tokens(ws + (RenderValue(v, depth) + rest)) == ValueTokens(v, depth, ws) + Tokens(rest)
    decreases v, 3
  {
    match v
    case Scalar(_, _, _) => LexScalar(fl, v, ws, rest);
    case Arr(es) =>
      if es == [] {
        LexEmpty(ws, '[', TLBracket, ']', TRBracket, rest);
      } else {
        LexArr(fl, v, depth, ws, rest);
      }
    case Obj(keys, _, _) =>
      if keys == [] {
        LexEmpty(ws, '{', TLBrace, '}', TRBrace, rest);
      } else {
        LexObj(fl, v, depth, ws, rest);
      }
  }

  lemma {:induction false} LexElements(fl: FloatTest, es: seq<Val>, depth: nat, rest: string)
    requires forall i | 0 <= i < |es| :: Data(fl, es[i]) && Printable(es[i])
    ensures Tokens(RenderElements(es, depth) + rest) == ElementTokens(es, depth) + Tokens(rest)
    decreases es, 0
  {
    if es == [] {
      assert "" + rest == rest && [] + Tokens(rest) == Tokens(rest);
    } else {
      var after := RenderElements(es[1..], depth) + rest;
      LexElements(fl, es[1..], depth, rest);
      StepNewline(after);
      LexValue(fl, es[0], depth, Indent(depth), "\n" + after);
      FourAndRest(Indent(depth), RenderValue(es[0], depth), "\n", RenderElements(es[1..], depth), rest);
      ThreeAndRest(ValueTokens(es[0], depth, Indent(depth)), [NL], ElementTokens(es[1..], depth), Tokens(rest));
    }
  }

  lemma {:induction false} FourAndRest<T>(a: seq<T>, b: seq<T>, c: seq<T>, d: seq<T>, e: seq<T>)
    ensures (a + (b + (c + d))) + e == a + (b + (c + (d + e)))
  {
    Assoc(a, b + (c + d), e);
    Assoc(b, c + d, e);
    Assoc(c, d, e);
  }

  lemma {:induction false} ThreeAndRest<T>(a: seq<T>, b: seq<T>, c: seq<T>, d: seq<T>)
    ensures (a + (b + c)) + d == a + (b + (c + d))
  {
    Assoc(a, b + c, d);
    Assoc(b, c, d);
  }

  lemma {:induction false} LexObjectField(k: string, ind: string, text: string, toks: seq<Token>, rest: string)
    requires Blank(ind) && Tokens(" " + (text + ("\n" + rest))) == toks + Tokens("\n" + rest)
    ensures Tokens((ind + (RenderKey(k) + (" " + (text + "\n")))) + rest) ==
            (KeyTokens(k, ind) + (toks + [NL])) + Tokens(rest)
  {
    FourAndRest(ind, RenderKey(k), " ", text + "\n", rest);
    Assoc(text, "\n", rest);
    LexKey(k, ind, " " + (text + ("\n" + rest)));
    StepNewline(rest);
    ThreeAndRest(KeyTokens(k, ind), toks, [NL], Tokens(rest));
  }

  lemma {:induction false} LexValueField(k: string, ind: string, text: string, toks: seq<Token>, rest: string)
    requires Blank(ind) && Tokens(" " + (text + ("\n" + rest))) == toks + Tokens("\n" + rest)
    ensures Tokens((ind + (RenderKey(k) + (" " + ("=" + (" " + (text + "\n")))))) + rest) ==
            (KeyTokens(k, ind) + ([Sign(TEquals, "=", " ")] + (toks + [NL]))) + Tokens(rest)
  {
    var eq, after := [Sign(TEquals, "=", " ")], " " + (text + ("\n" + rest));
    FourAndRest(ind, RenderKey(k), " ", "=" + (" " + (text + "\n")), rest);
    FourAndRest("=", " ", text, "\n", rest);
    StepNewline(rest);
    StepChar(" ", '=', TEquals, after);
    LexKey(k, ind, " " + (['='] + after));
    ThreeAndRest(eq, toks, [NL], Tokens(rest));
    Assoc(KeyTokens(k, ind), eq + (toks + [NL]), Tokens(rest));
  }

  lemma {:induction false} LexField(fl: FloatTest, o: Val, k: string, depth: nat, rest: string)
    requires o.Obj? && Data(fl, o) && Printable(o) && k in o.vals
    ensures Tokens(RenderField(o, k, depth) + rest) == FieldTokens(o, k, depth) + Tokens(rest)
    decreases o, 0
  {
    var v := o.vals[k];
    var text, toks := RenderValue(v, depth), ValueTokens(v, depth, " ");
    LexValue(fl, v, depth, " ", "\n" + rest);
    if v.Obj? {
      LexObjectField(k, Indent(depth), text, toks, rest);
      assert [] + (toks + [NL]) == toks + [NL];
    } else {
      LexValueField(k, Indent(depth), text, toks, rest);
    }
  }

  lemma {:induction false} LexBody(fl: FloatTest, o: Val, keys: seq<string>, depth: nat, rest: string)
    requires o.Obj? && Data(fl, o) && Printable(o) && forall k | k in keys :: k in o.vals
    ensures Tokens(RenderBody(o, keys, depth) + rest) == BodyTokens(o, keys, depth) + Tokens(rest)
    decreases o, 1, |keys|
  {
    if keys == [] {
      assert "" + rest == rest && [] + Tokens(rest) == Tokens(rest);
    } else {
      LexBody(fl, o, keys[1..], depth, rest);
      LexField(fl, o, keys[0], depth, RenderBody(o, keys[1..], depth) + rest);
      Assoc(RenderField(o, keys[0], depth), RenderBody(o, keys[1..], depth), rest);
      Assoc(FieldTokens(o, keys[0], depth), BodyTokens(o, keys[1..], depth), Tokens(rest));
    }
  }

  // ---------- parsing the tokens of a tree ----------

  function NodeOf(v: Val): Node
    requires Printable(v)
    decreases v, 1
  {
    match v
    case Scalar(raw, typ, _) => NScalar(if typ == NullT then "null" else raw, typ, false)
    case Arr(es) => NArray(NodesOf(es))
    case Obj(keys, _, _) => NObject(FieldsOf(v, keys))
  }

  function NodesOf(es: seq<Val>): seq<Node>
    requires forall i | 0 <= i < |es| :: Printable(es[i])
    decreases es, 0
  {
    if es == [] then [] else [NodeOf(es[0])] + NodesOf(es[1..])
  }

  function FieldsOf(o: Val, keys: seq<string>): seq<NField>
    requires o.Obj? && Printable(o) && forall k | k in keys :: k in o.vals
    decreases o, 0, |keys|
  {
    if keys == [] then [] else [NField([keys[0]], NodeOf(o.vals[keys[0]]), false)] + FieldsOf(o, keys[1..])
  }

  lemma {:induction false} LowerKeeps(s: string)
    requires s == "true" || s == "false" || s == "null"
    ensures Lower(s) == s
  {
  }

  lemma {:induction false} SafeStringKind(s: string)
    requires SafeString(s)
    ensures KeywordKind(s) == if s == "include" then TInclude else TString
    ensures s[0] != '-' && !IsDigit(s[0])
  {
    if s == "true" || s == "false" || s == "null" { LowerKeeps(s); }
  }

  predicate StartsValue(kind: Kind) {
    !EndsValue(kind) && kind != TError
  }

  lemma {:induction false} ScalarHead(fl: FloatTest, v: Val, ws: string)
    requires v.Scalar? && Data(fl, v)
    ensures |ScalarTokens(v, ws)| == 1 && StartsValue(ScalarTokens(v, ws)[0].kind)
  {
    if v.typ == StringT && SafeString(v.raw) {
      SafeStringKind(v.raw);
    }
  }

  lemma {:induction false} ValueHead(fl: FloatTest, v: Val, depth: nat, ws: string)
    requires Data(fl, v) && Printable(v)
    ensures ValueTokens(v, depth, ws) != [] && StartsValue(ValueTokens(v, depth, ws)[0].kind)
  {
    match v
    case Scalar(_, _, _) => ScalarHead(fl, v, ws);
    case Arr(es) =>
    case Obj(keys, _, _) => if keys != [] { ObjectTokens(v, depth, ws); }
  }

  lemma {:induction false} ParseScalarOf(fl: FloatTest, v: Val, ws: string, ts: seq<Token>)
    requires v.Scalar? && Data(fl, v)
    ensures ParseSingle(fl, ScalarTokens(v, ws) + ts) == Done(NodeOf(v), ts)
  {
    if v.typ == StringT && SafeString(v.raw) {
      SafeStringKind(v.raw);
    }
    var all := ScalarTokens(v, ws) + ts;
    assert |ScalarTokens(v, ws)| == 1 && all[0] == ScalarTokens(v, ws)[0] && all[1..] == ts;
  }

  lemma {:induction false} SkipsNewline(ts: seq<Token>)
    ensures SkipNewlines([NL] + ts) == SkipNewlines(ts)
  {
    assert ([NL] + ts)[1..] == ts;
  }

  lemma {:induction false} HeadOf(a: seq<Token>, b: seq<Token>)
    requires a != []
    ensures Head(a + b) == a[0]
  {
  }

  /** A value at the end of its line. */
  lemma {:induction false} ValueFromSingle(fl: FloatTest, ts: seq<Token>, node: Node, rest: seq<Token>)
    requires Head(ts).kind != TNewline && ParseSingle(fl, ts) == Done(node, rest) && Head(rest).kind == TNewline
    ensures ParseValue(fl, ts) == Done(node, rest)
  {
    assert SkipNewlines(ts) == ts;
    assert ParseMore(fl, [node], rest) == Done([node], rest);
  }

  lemma {:induction false} ParseValueOf(fl: FloatTest, v: Val, depth: nat, ws: string, ts: seq<Token>)
    requires Data(fl, v) && Printable(v) && Head(ts).kind == TNewline
    ensures ParseValue(fl, ValueTokens(v, depth, ws) + ts) == Done(NodeOf(v), ts)
    decreases v, 5
  {
    ValueHead(fl, v, depth, ws);
    HeadOf(ValueTokens(v, depth, ws), ts);
    ParseSingleOf(fl, v, depth, ws, ts);
    ValueFromSingle(fl, ValueTokens(v, depth, ws) + ts, NodeOf(v), ts);
  }

  lemma {:induction false} ElementsSkip(fl: FloatTest, ts: seq<Token>)
    ensures ParseElements(fl, [NL] + ts) == ParseElements(fl, ts)
  {
    SkipsNewline(ts);
  }

  lemma {:induction false} FieldsSkip(fl: FloatTest, ts: seq<Token>, braced: bool)
    ensures ParseFields(fl, [NL] + ts, braced) == ParseFields(fl, ts, braced)
  {
    SkipsNewline(ts);
  }

  lemma {:induction false} EnclosedSplit(open: Token, inner: seq<Token>, close: Token, ts: seq<Token>)
    ensures var all := ([open, NL] + (inner + [close])) + ts;
            all[0] == open && all[1..] == [NL] + (inner + ([close] + ts))
  {
    Assoc(inner, [close], ts);
    Assoc([open, NL], inner + [close], ts);
    assert [open, NL] + (inner + ([close] + ts)) == [open] + ([NL] + (inner + ([close] + ts)));
  }

  lemma {:induction false} ParseSingleOf(fl: FloatTest, v: Val, depth: nat, ws: string, ts: seq<Token>)
    requires Data(fl, v) && Printable(v)
    ensures ParseSingle(fl, ValueTokens(v, depth, ws) + ts) == Done(NodeOf(v), ts)
    decreases v, 4
  {
    match v
    case Scalar(_, _, _) => ParseScalarOf(fl, v, ws, ts);
    case Arr(es) => ParseArrOf(fl, v, depth, ws, ts);
    case Obj(keys, _, _) => ParseObjOf(fl, v, depth, ws, ts);
  }

  lemma {:induction false} ParseNoElements(fl: FloatTest, ws: string, ts: seq<Token>)
    ensures ParseSingle(fl, [Sign(TLBracket, "[", ws), Sign(TRBracket, "]", "")] + ts) == Done(NArray([]), ts)
  {
    var all, next := [Sign(TLBracket, "[", ws), Sign(TRBracket, "]", "")] + ts, [Sign(TRBracket, "]", "")] + ts;
    assert all[0] == Sign(TLBracket, "[", ws) && all[1..] == next;
    assert SkipNewlines(next) == next && next[1..] == ts;
    assert ParseElements(fl, next) == Done([], ts);
  }

  lemma {:induction false} ParseNoFields(fl: FloatTest, ws: string, ts: seq<Token>)
    ensures ParseSingle(fl, [Sign(TLBrace, "{", ws), Sign(TRBrace, "}", "")] + ts) == Done(NObject([]), ts)
  {
    var all, next := [Sign(TLBrace, "{", ws), Sign(TRBrace, "}", "")] + ts, [Sign(TRBrace, "}", "")] + ts;
    assert all[0] == Sign(TLBrace, "{", ws) && all[1..] == next;
    assert SkipNewlines(next) == next && next[1..] == ts;
    assert ParseFields(fl, next, true) == Done([], ts);
  }

  lemma {:induction false} DropFirst(t: Token, ts: seq<Token>)
    ensures ([t] + ts)[0] == t && ([t] + ts)[1..] == ts
  {
  }

  lemma {:induction false} SingleArray(fl: FloatTest, open: Token, inner: seq<Token>, close: Token, ts: seq<Token>,
                                       elems: seq<Node>)
    requires open.kind == TLBracket && ParseElements(fl, inner + ([close] + ts)) == Done(elems, ts)
    ensures ParseSingle(fl, ([open, NL] + (inner + [close])) + ts) == Done(NArray(elems), ts)
  {
    EnclosedSplit(open, inner, close, ts);
    ElementsSkip(fl, inner + ([close] + ts));
  }

  lemma {:induction false} SingleObject(fl: FloatTest, open: Token, inner: seq<Token>, close: Token, ts: seq<Token>,
                                        fields: seq<NField>)
    requires open.kind == TLBrace && ParseFields(fl, inner + ([close] + ts), true) == Done(fields, ts)
    ensures ParseSingle(fl, ([open, NL] + (inner + [close])) + ts) == Done(NObject(fields), ts)
  {
    EnclosedSplit(open, inner, close, ts);
    FieldsSkip(fl, inner + ([close] + ts), true);
  }

  lemma {:induction false} ParseArrOf(fl: FloatTest, v: Val, depth: nat, ws: string, ts: seq<Token>)
    requires v.Arr? && Data(fl, v) && Printable(v)
    ensures ParseSingle(fl, ValueTokens(v, depth, ws) + ts) == Done(NodeOf(v), ts)
    decreases v, 2
  {
    if v.elems == [] {
      ParseNoElements(fl, ws, ts);
    } else {
      var close, inner := Sign(TRBracket, "]", Indent(depth)), ElementTokens(v.elems, depth + 1);
      var after := [close] + ts;
      DropFirst(close, ts);
      ParseElementsOf(fl, v.elems, depth + 1, after);
      SingleArray(fl, Sign(TLBracket, "[", ws), inner, close, ts, NodesOf(v.elems));
    }
  }

  lemma {:induction false} ObjectTokens(v: Val, depth: nat, ws: string)
    requires v.Obj? && v.keys != [] && Printable(v)
    ensures ValueTokens(v, depth, ws) ==
            [Sign(TLBrace, "{", ws), NL] + (BodyTokens(v, v.keys, depth + 1) + [Sign(TRBrace, "}", Indent(depth))])
    ensures NodeOf(v) == NObject(FieldsOf(v, v.keys))
  {
  }

  lemma {:induction false} ParseFullObjOf(fl: FloatTest, v: Val, depth: nat, ws: string, ts: seq<Token>)
    requires v.Obj? && v.keys != [] && Data(fl, v) && Printable(v)
    ensures ParseSingle(fl, ValueTokens(v, depth, ws) + ts) == Done(NodeOf(v), ts)
    decreases v, 2
  {
    var close, inner, fields :=
      Sign(TRBrace, "}", Indent(depth)), BodyTokens(v, v.keys, depth + 1), FieldsOf(v, v.keys);
    ObjectTokens(v, depth, ws);
    var after := [close] + ts;
    DropFirst(close, ts);
    ParseBodyOf(fl, v, v.keys, depth + 1, after, true);
    SingleObject(fl, Sign(TLBrace, "{", ws), inner, close, ts, fields);
  }

  lemma {:induction false} ParseObjOf(fl: FloatTest, v: Val, depth: nat, ws: string, ts: seq<Token>)
    requires v.Obj? && Data(fl, v) && Printable(v)
    ensures ParseSingle(fl, ValueTokens(v, depth, ws) + ts) == Done(NodeOf(v), ts)
    decreases v, 3
  {
    if v.keys == [] {
      ParseNoFields(fl, ws, ts);
      assert FieldsOf(v, v.keys) == [];
    } else {
      ParseFullObjOf(fl, v, depth, ws, ts);
    }
  }

  /** One element and what follows it on the next line. */
  lemma {:induction false} ElementsStep(fl: FloatTest, ts: seq<Token>, node: Node, next: seq<Token>)
    requires StartsValue(Head(ts).kind) && ParseValue(fl, ts) == Done(node, [NL] + next)
    requires Head(next).kind != TNewline && Head(next).kind != TComma
    ensures ParseElements(fl, ts) ==
            var more := ParseElements(fl, next);
            if more.Done? then Done([node] + more.value, more.rest) else more
  {
    assert SkipNewlines(ts) == ts && SkipNewlines(next) == next;
    SkipsNewline(next);
  }

  lemma {:induction false} ParseElementsOf(fl: FloatTest, es: seq<Val>, depth: nat, ts: seq<Token>)
    requires (forall i | 0 <= i < |es| :: Data(fl, es[i]) && Printable(es[i])) && ts != [] && ts[0].kind == TRBracket
    ensures ParseElements(fl, ElementTokens(es, depth) + ts) == Done(NodesOf(es), ts[1..])
    decreases es, 0
  {
    if es == [] {
      assert [] + ts == ts;
    } else {
      var first, rest := ValueTokens(es[0], depth, Indent(depth)), ElementTokens(es[1..], depth);
      var next := rest + ts;
      ThreeAndRest(first, [NL], rest, ts);
      ValueHead(fl, es[0], depth, Indent(depth));
      HeadOf(first, [NL] + next);
      ParseValueOf(fl, es[0], depth, Indent(depth), [NL] + next);
      ParseElementsOf(fl, es[1..], depth, ts);
      if |es| > 1 {
        ValueHead(fl, es[1], depth, Indent(depth));
        assert rest[0] == ValueTokens(es[1], depth, Indent(depth))[0];
      } else {
        assert next == ts;
      }
      ElementsStep(fl, first + ([NL] + next), NodeOf(es[0]), next);
    }
  }

  // ---------- keys ----------

  lemma {:induction false} NoDots(k: string)
    requires SafeKey(k)
    ensures SplitDots(k) == [k] && SplitKeySegments(k, false) == Some([k]) && !StartsWithDot(k) && !EndsWithDot(k)
  {
    forall i | 0 <= i < |k| ensures k[i] != '.' {
      WordChars(k[i]);
    }
    assert IndexDot(k) == |k|;
    var pieces := [k];
    assert pieces[1..] == [] && KeepSegments(pieces[1..], false) == Some([]) && pieces + [] == pieces;
    assert KeepSegments(pieces, false) == Some(pieces);
  }

  predicate Separates(t: Token) {
    t.kind == TEquals || t.kind == TLBrace
  }

  lemma {:induction false} KeyEnds(k: string, ts: seq<Token>)
    requires Separates(Head(ts))
    ensures EndKey([k], ts) == Done([k], ts) && ParseTails([k], ts) == Done([k], ts)
  {
  }

  lemma {:induction false} KeywordStartsKey(k: string)
    requires k != "include"
    ensures StartsKey(KeywordKind(k))
  {
  }

  /** A number token and the word right behind it make one key. */
  lemma {:induction false} NumberAndTail(a: Token, b: Token, k: string, ts: seq<Token>)
    requires (a.kind == TInt || a.kind == TFloat) && !a.quoted && SafeKey(a.value) && a.value + b.value == k &&
             SafeKey(k)
    requires IsTail(b) && SafeKey(b.value) && Separates(Head(ts))
    ensures ParseKey([a, b] + ts) == Done([k], ts)
  {
    var all := [a, b] + ts;
    assert all[0] == a && all[1..] == [b] + ts && ([b] + ts)[1..] == ts;
    NoDots(a.value);
    NoDots(b.value);
    NoDots(k);
    assert [a.value][..0] == [] && [] + [k] == [k];
    KeyEnds(k, ts);
    assert ParseTails([a.value], [b] + ts) == ParseTails([k], ts);
  }

  lemma {:induction false} OneTokenKey(t: Token, ts: seq<Token>)
    requires StartsKey(t.kind) && Separates(Head(ts)) && (t.quoted || SafeKey(t.value))
    ensures ParseKey([t] + ts) == Done([t.value], ts)
  {
    assert ([t] + ts)[0] == t && ([t] + ts)[1..] == ts;
    KeyEnds(t.value, ts);
    if !t.quoted {
      NoDots(t.value);
    }
  }

  ghost predicate KeyParses(k: string, toks: seq<Token>, ts: seq<Token>) {
    && toks != [] && StartsKey(toks[0].kind) && (toks[0].quoted || k != "include")
    && ParseKey(toks + ts) == Done([k], ts)
  }

  lemma {:induction false} OneTokenParses(k: string, toks: seq<Token>, ts: seq<Token>)
    requires Separates(Head(ts)) && |toks| == 1 && toks[0].value == k && StartsKey(toks[0].kind)
    requires toks[0].quoted || (SafeKey(k) && k != "include")
    ensures KeyParses(k, toks, ts)
  {
    assert toks == [toks[0]];
    OneTokenKey(toks[0], ts);
  }

  lemma {:induction false} ParsePartRun(k: string, ws: string, ts: seq<Token>)
    requires SafeKey(k) && k != "include" && (k[0] == '-' || IsDigit(k[0])) && Separates(Head(ts))
    requires RunLength(k) < |k| && NumberRunType(k[..RunLength(k)]).Some?
    ensures KeyParses(k, BareTokens(k, ws), ts)
  {
    var n := RunLength(k);
    var run, tail := k[..n], k[n..];
    TailOfRun(k);
    assert n > 0 && SafeKey(run) by {
      assert forall i | 0 <= i < n :: run[i] == k[i];
    }
    assert run + tail == k;
    NoDots(tail);
    var a, b := Token(NumberRunType(run).value, run, false, ws), Token(KeywordKind(tail), tail, false, "");
    assert [a] + [b] == [a, b];
    NumberAndTail(a, b, k, ts);
  }

  lemma {:induction false} ParseBareOf(k: string, ws: string, ts: seq<Token>)
    requires SafeKey(k) && k != "include" && Separates(Head(ts))
    ensures KeyParses(k, BareTokens(k, ws), ts)
  {
    if k[0] != '-' && !IsDigit(k[0]) {
      KeywordStartsKey(k);
      OneTokenParses(k, BareTokens(k, ws), ts);
    } else if NumberRunType(k[..RunLength(k)]).None? {
      OneTokenParses(k, BareTokens(k, ws), ts);
    } else if RunLength(k) == |k| {
      assert k[..|k|] == k;
      WholeRunTokens(k, ws);
      OneTokenParses(k, BareTokens(k, ws), ts);
    } else {
      ParsePartRun(k, ws, ts);
    }
  }

  lemma {:induction false} ParseKeyOf(k: string, ws: string, ts: seq<Token>)
    requires Separates(Head(ts))
    ensures KeyParses(k, KeyTokens(k, ws), ts)
  {
    if k == "include" || !SafeKey(k) {
      OneTokenParses(k, [Token(TString, k, true, ws)], ts);
    } else {
      ParseBareOf(k, ws, ts);
    }
  }

  // ---------- fields ----------

  lemma {:induction false} FieldStep(fl: FloatTest, ts: seq<Token>, k: string, rest: seq<Token>, value: Node,
                                     after: seq<Token>)
    requires ParseKey(ts) == Done([k], rest) && (ts[0].quoted || k != "include")
    requires Separates(Head(rest))
    requires ParseValue(fl, if Head(rest).kind == TLBrace then rest else rest[1..]) == Done(value, after)
    ensures ParseField(fl, ts) == Done(NField([k], value, false), after)
  {
    assert SkipNewlines(rest) == rest;
  }

  lemma {:induction false} ParseFieldOf(fl: FloatTest, o: Val, k: string, depth: nat, ts: seq<Token>)
    requires o.Obj? && Data(fl, o) && Printable(o) && k in o.vals
    ensures ParseField(fl, FieldTokens(o, k, depth) + ts) == Done(NField([k], NodeOf(o.vals[k]), false), [NL] + ts)
    ensures FieldTokens(o, k, depth) != [] && StartsKey(FieldTokens(o, k, depth)[0].kind)
    decreases o, 0
  {
    var v, key := o.vals[k], KeyTokens(k, Indent(depth));
    var toks := ValueTokens(v, depth, " ");
    ParseValueOf(fl, v, depth, " ", [NL] + ts);
    ValueHead(fl, v, depth, " ");
    if v.Obj? {
      var rest := toks + ([NL] + ts);
      HeadOf(toks, [NL] + ts);
      assert [] + (toks + [NL]) == toks + [NL];
      ThreeAndRest(key, toks, [NL], ts);
      ParseKeyOf(k, Indent(depth), rest);
      FieldStep(fl, key + rest, k, rest, NodeOf(v), [NL] + ts);
    } else {
      var eq := [Sign(TEquals, "=", " ")];
      var rest := eq + (toks + ([NL] + ts));
      assert rest[1..] == toks + ([NL] + ts);
      FourAndRest(key, eq, toks, [NL], ts);
      ParseKeyOf(k, Indent(depth), rest);
      FieldStep(fl, key + rest, k, rest, NodeOf(v), [NL] + ts);
    }
  }

  lemma {:induction false} FieldsStep(fl: FloatTest, ts: seq<Token>, braced: bool, f: NField, next: seq<Token>)
    requires StartsKey(Head(ts).kind) && ParseField(fl, ts) == Done(f, [NL] + next)
    requires Head(next).kind != TNewline && Head(next).kind != TComma
    ensures ParseFields(fl, ts, braced) ==
            var more := ParseFields(fl, next, braced);
            if more.Done? then Done([f] + more.value, more.rest) else more
  {
    assert SkipNewlines(ts) == ts && SkipNewlines(next) == next;
    SkipsNewline(next);
  }

  lemma {:induction false} ParseBodyOf(fl: FloatTest, o: Val, keys: seq<string>, depth: nat, ts: seq<Token>,
                                       braced: bool)
    requires o.Obj? && Data(fl, o) && Printable(o) && forall k | k in keys :: k in o.vals
    requires ts != [] && ts[0].kind == if braced then TRBrace else TEof
    ensures ParseFields(fl, BodyTokens(o, keys, depth) + ts, braced) ==
            Done(FieldsOf(o, keys), if braced then ts[1..] else ts)
    decreases o, 1, |keys|
  {
    if keys == [] {
      assert [] + ts == ts;
    } else {
      var field, rest := FieldTokens(o, keys[0], depth), BodyTokens(o, keys[1..], depth);
      var next := rest + ts;
      Assoc(field, rest, ts);
      ParseFieldOf(fl, o, keys[0], depth, next);
      HeadOf(field, next);
      ParseBodyOf(fl, o, keys[1..], depth, ts, braced);
      if |keys| > 1 {
        ParseFieldOf(fl, o, keys[1], depth, BodyTokens(o, keys[2..], depth) + ts);
        assert keys[1..][1..] == keys[2..];
        assert rest[0] == FieldTokens(o, keys[1], depth)[0];
      } else {
        assert next == ts;
      }
      FieldsStep(fl, field + next, braced, NField([keys[0]], NodeOf(o.vals[keys[0]]), false), next);
    }
  }

  // ---------- building the tree ----------

  lemma {:induction false} BuildsBack(fl: FloatTest, v: Val)
    requires Data(fl, v) && Printable(v)
    ensures Build(NodeOf(v)) == Some(v)
    decreases v, 2
  {
    match v
    case Scalar(_, _, _) =>
    case Arr(es) => BuildsAllBack(fl, es);
    case Obj(keys, _, _) =>
      BuildsFieldsBack(fl, v, 0, EMPTY_OBJ);
      assert keys[0..] == keys;
  }

  lemma {:induction false} BuildsAllBack(fl: FloatTest, es: seq<Val>)
    requires forall i | 0 <= i < |es| :: Data(fl, es[i]) && Printable(es[i])
    ensures BuildAll(NodesOf(es)) == Some(es)
    decreases es, 0
  {
    if es != [] {
      BuildsBack(fl, es[0]);
      BuildsAllBack(fl, es[1..]);
      assert NodesOf(es)[1..] == NodesOf(es[1..]) && [es[0]] + es[1..] == es;
    }
  }

  /** The first i fields are in place already. */
  ghost predicate BuiltUpTo(o: Val, i: nat, acc: Val)
    requires o.Obj? && i <= |o.keys|
  {
    && acc.Obj? && acc.keys == o.keys[..i] && acc.priors == map[]
    && (forall k :: k in acc.vals <==> k in o.keys[..i])
    && (forall k | k in acc.vals :: k in o.vals && acc.vals[k] == o.vals[k])
  }

  lemma {:induction false} BuiltOneMore(o: Val, i: nat, acc: Val)
    requires o.Obj? && KeysMatch(o) && i < |o.keys| && BuiltUpTo(o, i, acc)
    ensures o.keys[i] !in acc.vals && o.keys[i] in o.vals && BuiltUpTo(o, i + 1, Set(acc, o.keys[i], o.vals[o.keys[i]]))
  {
    var k := o.keys[i];
    assert o.keys[..i + 1] == o.keys[..i] + [k];
    assert k !in o.keys[..i];
  }

  lemma {:induction false} BuiltAll(o: Val, acc: Val)
    requires o.Obj? && KeysMatch(o) && o.priors == map[] && BuiltUpTo(o, |o.keys|, acc)
    ensures acc == o
  {
    assert o.keys[..|o.keys|] == o.keys;
    assert forall k :: k in acc.vals <==> k in o.vals;
    assert acc.vals == o.vals;
  }

  lemma {:induction false} BuildsFieldsBack(fl: FloatTest, o: Val, i: nat, acc: Val)
    requires o.Obj? && Data(fl, o) && Printable(o) && i <= |o.keys| && BuiltUpTo(o, i, acc)
    ensures BuildFields(FieldsOf(o, o.keys[i..]), acc) == Some(o)
    decreases o, 1, |o.keys| - i
  {
    if i == |o.keys| {
      BuiltAll(o, acc);
    } else {
      var k := o.keys[i];
      BuiltOneMore(o, i, acc);
      BuildsBack(fl, o.vals[k]);
      BuildsFieldsBack(fl, o, i + 1, Set(acc, k, o.vals[k]));
      assert o.keys[i..][1..] == o.keys[i + 1..];
      assert FieldsOf(o, o.keys[i..])[1..] == FieldsOf(o, o.keys[i + 1..]);
    }
  }

  // ---------- the round trip ----------

  lemma {:induction false} KeyStart(k: string)
    ensures RenderKey(k) != "" && RenderKey(k)[0] != 0xFEFF as char
  {
  }

  lemma {:induction false} TextStart(o: Val)
    requires o.Obj? && Printable(o)
    ensures var text := RenderBody(o, o.keys, 0); text == "" || text[0] != 0xFEFF as char
  {
    if o.keys != [] {
      KeyStart(o.keys[0]);
      assert Indent(0) == "";
    }
  }

  /** For every resolved tree of data: RenderHOCON prints it, and lexing, parsing
      and building the text give the same tree, keys in the same order. */
  lemma {:induction false} RenderedReadsBack(fl: FloatTest, root: Val)
    requires root.Obj? && Data(fl, root)
    ensures RenderTree(root).Some? && ReadText(fl, RenderTree(root).value) == Some(root)
  {
    DataIsPrintable(fl, root);
    var text, body, eof := RenderBody(root, root.keys, 0), BodyTokens(root, root.keys, 0), Tokens("");
    TextStart(root);
    LexBody(fl, root, root.keys, 0, "");
    assert text + "" == text;
    assert eof == [Token(TEof, "", false, "")];
    ParseBodyOf(fl, root, root.keys, 0, eof, false);
    RootHead(fl, root);
    BuildsBack(fl, root);
  }

  lemma {:induction false} RootHead(fl: FloatTest, root: Val)
    requires root.Obj? && Data(fl, root) && Printable(root)
    ensures var ts := BodyTokens(root, root.keys, 0) + [Token(TEof, "", false, "")];
            && SkipNewlines(ts) == ts && Head(ts).kind != TLBracket && Head(ts).kind != TLBrace
  {
    var ts := BodyTokens(root, root.keys, 0) + [Token(TEof, "", false, "")];
    if root.keys != [] {
      ParseFieldOf(fl, root, root.keys[0], 0, []);
      assert ts[0] == FieldTokens(root, root.keys[0], 0)[0];
    }
  }
}
