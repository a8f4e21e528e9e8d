/**
 String literals: what quoteString in render_hocon.go writes, the lexer reads back.
 */
module Literals {
  import opened Paths
  import opened Lexing

  // ---------- quoteString ----------

  const TRIPLE: string := "\"\"\""

  predicate TripleAt(s: string, i: int) {
    0 <= i <= |s| - 3 && s[i] == '"' && s[i + 1] == '"' && s[i + 2] == '"'
  }

  predicate ContainsTriple(s: string) {
    exists i | 0 <= i < |s| :: TripleAt(s, i)
  }

  predicate EndsWithQuote(s: string) {
    s != "" && s[|s| - 1] == '"'
  }

  /** Where the triple-quoted form is lossless. */
  predicate UsesTriple(s: string) {
    '\n' in s && '\r' !in s && !ContainsTriple(s) && !EndsWithQuote(s)
  }

  function EscapeChar(c: char): (e: string)
    ensures e != ""
  {
    match c
    case '"' => "\\\""
    case '\\' => "\\\\"
    case '\n' => "\\n"
    case '\r' => "\\r"
    case '\t' => "\\t"
    case _ => [c]
  }

  function EscapeAll(s: string): string {
    if s == "" then "" else EscapeChar(s[0]) + EscapeAll(s[1..])
  }

  function QuoteString(s: string): string {
    if UsesTriple(s) then TRIPLE + s + TRIPLE else "\"" + EscapeAll(s) + "\""
  }

  lemma {:induction false} EscapeSnoc(s: string, i: nat)
    requires i < |s|
    ensures EscapeAll(s[..i + 1]) == EscapeAll(s[..i]) + EscapeChar(s[i])
  {
    if i == 0 {
      assert s[..1] == [s[0]] && s[..0] == "" && [s[0]][1..] == "";
      assert EscapeChar(s[0]) + "" == EscapeChar(s[0]) && "" + EscapeChar(s[0]) == EscapeChar(s[0]);
    } else {
      EscapeSnoc(s[1..], i - 1);
      assert s[..i + 1][1..] == s[1..][..i] && s[..i][1..] == s[1..][..i - 1];
      Assoc(EscapeChar(s[0]), EscapeAll(s[1..][..i - 1]), EscapeChar(s[i]));
    }
  }

  method QuoteStringLoop(s: string) returns (b: string)
    ensures b == QuoteString(s)
  {
    if UsesTriple(s) {
      return TRIPLE + s + TRIPLE;
    }
    b := "\"";
    for i := 0 to |s|
      invariant b == "\"" + EscapeAll(s[..i])
    {
      EscapeSnoc(s, i);
      b := b + EscapeChar(s[i]);
    }
    assert s[..|s|] == s;
    b := b + "\"";
  }

  // ---------- the escaped form ----------

  lemma {:induction false} ReadOneEscape(c: char, t: string)
    ensures ReadBody(EscapeChar(c) + t) == Prepend(c, ReadBody(t))
  {
    var e := EscapeChar(c);
    if |e| == 2 {
      assert (e + t)[2..] == t && (e + t)[0] == '\\' && (e + t)[1] == e[1];
      assert Escaped(e[1]) == Some(c);
    } else {
      assert (e + t)[1..] == t && (e + t)[0] == c;
    }
  }

  lemma {:induction false} EscapedReadsBack(s: string, rest: string)
    ensures ReadBody(EscapeAll(s) + ("\"" + rest)) == Body(s, rest)
  {
    var close := "\"" + rest;
    if s == "" {
      assert "" + close == close && close[1..] == rest;
    } else {
      EscapedReadsBack(s[1..], rest);
      Assoc(EscapeChar(s[0]), EscapeAll(s[1..]), close);
      ReadOneEscape(s[0], EscapeAll(s[1..]) + close);
      assert s == [s[0]] + s[1..];
    }
  }

  // ---------- the triple-quoted form ----------

  predicate StartsWithQuote(s: string) {
    s != "" && s[0] == '"'
  }

  lemma {:induction false} QuoteRunIs(s: string, n: nat)
    requires n <= |s| && (forall i | 0 <= i < n :: s[i] == '"') && (n < |s| ==> s[n] != '"')
    ensures QuoteRun(s) == n
  {
    if s != "" && n > 0 {
      QuoteRunIs(s[1..], n - 1);
    }
  }

  /** Of the quotes behind the closing ones all but the last three belong to the string. */
  lemma {:induction false} ClosingRun(rest: string)
    ensures var n := QuoteRun(rest);
            ReadTriple(TRIPLE + rest) == Body(rest[..n], rest[n..])
  {
    var n, t := QuoteRun(rest), TRIPLE + rest;
    forall i | 0 <= i < n + 3 ensures t[i] == '"' {
      assert i >= 3 ==> t[i] == rest[i - 3];
    }
    assert n < |rest| ==> t[n + 3] == rest[n];
    QuoteRunIs(t, n + 3);
    assert t[n + 3..] == rest[n..];
    assert t[..n] == rest[..n] by {
      forall i | 0 <= i < n ensures t[i] == rest[i] { }
    }
  }

  lemma {:induction false} TripleFromRun(s: string, n: nat)
    requires 3 <= n <= |s| && forall i | 0 <= i < n :: s[i] == '"'
    ensures ContainsTriple(s)
  {
    assert TripleAt(s, 0);
  }

  lemma {:induction false} TripleTail(s: string, n: nat)
    requires n <= |s| && !ContainsTriple(s) && !EndsWithQuote(s)
    ensures !ContainsTriple(s[n..]) && !EndsWithQuote(s[n..])
  {
    var t := s[n..];
    forall i | 0 <= i < |t| ensures !TripleAt(t, i) {
      assert !TripleAt(s, n + i);
    }
    assert t != "" ==> t[|t| - 1] == s[|s| - 1];
  }

  function PrependText(u: string, b: Body): Body {
    if b.Body? then Body(u + b.text, b.rest) else b
  }

  lemma {:induction false} ReadsChar(c: char, t: string)
    requires c != '"'
    ensures ReadTriple([c] + t) == PrependText([c], ReadTriple(t))
  {
    assert ([c] + t)[1..] == t;
  }

  /** A run of one or two quotes belongs to the string. */
  lemma {:induction false} ReadsQuotes(q: string, t: string)
    requires 0 < |q| < 3 && (forall i | 0 <= i < |q| :: q[i] == '"') && !StartsWithQuote(t)
    ensures ReadTriple(q + t) == PrependText(q, ReadTriple(t))
  {
    var s := q + t;
    forall i | 0 <= i < |q| ensures s[i] == '"' {
      assert s[i] == q[i];
    }
    assert |q| < |s| ==> s[|q|] == t[0];
    QuoteRunIs(s, |q|);
    assert s[..|q|] == q && s[|q|..] == t;
  }

  /** The string up to its first run of quotes, or to the end of that run. */
  lemma {:induction false} ReadsFront(s: string, t: string) returns (n: nat)
    requires s != "" && !ContainsTriple(s) && !EndsWithQuote(s)
    ensures 0 < n <= |s| && ReadTriple(s + t) == PrependText(s[..n], ReadTriple(s[n..] + t))
  {
    n := QuoteRun(s);
    if n == 0 {
      n := 1;
      assert s + t == [s[0]] + (s[1..] + t) && s[..1] == [s[0]];
      ReadsChar(s[0], s[1..] + t);
    } else {
      if n >= 3 { TripleFromRun(s, n); }
      assert n < |s| by { assert s[|s| - 1] != '"'; }
      assert s + t == s[..n] + (s[n..] + t);
      assert (s[n..] + t)[0] == s[n];
      ReadsQuotes(s[..n], s[n..] + t);
    }
  }

  lemma {:induction false} TripleReadsBack(s: string, rest: string)
    requires !ContainsTriple(s) && !EndsWithQuote(s)
    ensures var n := QuoteRun(rest);
            ReadTriple(s + (TRIPLE + rest)) == Body(s + rest[..n], rest[n..])
    decreases |s|
  {
    var t, extra := TRIPLE + rest, rest[..QuoteRun(rest)];
    if s == "" {
      assert s + t == t && s + extra == extra;
      ClosingRun(rest);
    } else {
      var n := ReadsFront(s, t);
      TripleTail(s, n);
      TripleReadsBack(s[n..], rest);
      Assoc(s[..n], s[n..], extra);
      assert s[..n] + s[n..] == s;
    }
  }

  // ---------- literals ----------

  lemma {:induction false} OpenTriple(t: string)
    ensures NextToken(TRIPLE + t) ==
            var b := ReadTriple(t);
            if b.Body? then Lexed(Token(TString, b.text, true, ""), b.rest) else Plain(TError, "", "")
  {
    var text := TRIPLE + t;
    assert text[3..] == t;
    assert text[0] == '"' && text[1] == '"' && text[2] == '"';
    assert NextToken(text) == ReadString(text);
  }

  lemma {:induction false} OpenSingle(t: string)
    requires t != "" && (t[0] == '"' ==> |t| == 1 || t[1] != '"')
    ensures NextToken("\"" + t) ==
            var b := ReadBody(t);
            if b.Body? then Lexed(Token(TString, b.text, true, ""), b.rest) else Plain(TError, "", "")
  {
    var text := "\"" + t;
    assert text[1..] == t && text[0] == '"' && text[1] == t[0];
    assert |t| > 1 ==> text[2] == t[1];
    assert NextToken(text) == ReadString(text);
  }

  lemma {:induction false} ReadsTripleLiteral(s: string, rest: string)
    requires UsesTriple(s)
    ensures var n := QuoteRun(rest);
            NextToken(QuoteString(s) + rest) == Lexed(Token(TString, s + rest[..n], true, ""), rest[n..])
  {
    TripleReadsBack(s, rest);
    Assoc(TRIPLE + s, TRIPLE, rest);
    Assoc(TRIPLE, s, TRIPLE + rest);
    OpenTriple(s + (TRIPLE + rest));
  }

  lemma {:induction false} EscapedStart(s: string, rest: string)
    requires s == "" ==> !StartsWithQuote(rest)
    ensures var t := EscapeAll(s) + ("\"" + rest);
            t != "" && (t[0] == '"' ==> |t| == 1 || t[1] != '"')
  {
    var t := EscapeAll(s) + ("\"" + rest);
    if s == "" {
      assert t == "\"" + rest;
      assert |t| > 1 ==> t[1] == rest[0];
    } else {
      assert t[0] == EscapeChar(s[0])[0];
    }
  }

  lemma {:induction false} ReadsEscapedLiteral(s: string, rest: string)
    requires !UsesTriple(s) && (s == "" ==> !StartsWithQuote(rest))
    ensures NextToken(QuoteString(s) + rest) == Lexed(Token(TString, s, true, ""), rest)
  {
    var t := EscapeAll(s) + ("\"" + rest);
    EscapedReadsBack(s, rest);
    EscapedStart(s, rest);
    Assoc("\"" + EscapeAll(s), "\"", rest);
    Assoc("\"", EscapeAll(s), "\"" + rest);
    OpenSingle(t);
  }

  lemma {:induction false} EmptyBeforeQuote(rest: string)
    requires StartsWithQuote(rest)
    ensures NextToken(QuoteString("") + rest) != Lexed(Token(TString, "", true, ""), rest)
  {
    var text := QuoteString("") + rest;
    assert text[0] == '"' && text[1] == '"' && text[2] == '"';
    assert NextToken(text) == ReadString(text);
    assert |text[3..]| == |rest| - 1;
  }

  /** Every string, printed as a literal in front of any text, is read back as
      itself and nothing more; the only texts that spoil it start with a quote
      behind an empty or a triple-quoted literal. */
  lemma {:induction false} LiteralReadsBack(s: string, rest: string)
    ensures NextToken(QuoteString(s) + rest) == Lexed(Token(TString, s, true, ""), rest) <==>
            (StartsWithQuote(rest) ==> s != "" && !UsesTriple(s))
  {
    if UsesTriple(s) {
      ReadsTripleLiteral(s, rest);
      var n := QuoteRun(rest);
      assert StartsWithQuote(rest) ==> |rest[n..]| < |rest|;
      assert !StartsWithQuote(rest) ==> n == 0 && rest[..0] == "" && s + "" == s && rest[0..] == rest;
    } else if s == "" && StartsWithQuote(rest) {
      EmptyBeforeQuote(rest);
    } else {
      ReadsEscapedLiteral(s, rest);
    }
  }
}
