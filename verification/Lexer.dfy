/**
 The lexer of the source: a position moved over the text by scanning loops.  Every
 method reads what the specification says and leaves the position behind it; after
 an error the position plays no part, as nothing is read any more.
 */
module Lexer {
  import opened Paths
  import opened Numerals
  import opened Lexing
  import Literals

  class Lexer {
    const src: string
    var pos: nat
    var skippedWhitespace: string

    ghost predicate Valid()
      reads this
    {
      pos <= |src|
    }

    /** The text not read yet. */
    ghost function Left(): string
      reads this
      requires Valid()
    {
      src[pos..]
    }

    /** New: a leading byte order mark is dropped. */
    constructor (text: string)
      ensures Valid() && Tokens(Left()) == TokensOfText(text)
    {
      var runes := if text != "" && text[0] == 0xFEFF as char then text[1..] else text;
      src := runes;
      pos := 0;
      skippedWhitespace := "";
      assert runes[0..] == runes;
    }

    /** The inner loop of a comment. */
    method SkipLine()
      requires Valid()
      modifies `pos
      ensures Valid() && old(pos) <= pos && Left() == DropLine(old(Left()))
    {
      ghost var start := pos;
      while pos < |src| && src[pos] != '\n'
        invariant start <= pos <= |src|
        invariant DropLine(src[start..]) == DropLine(src[pos..])
      {
        assert src[pos..][1..] == src[pos + 1..];
        pos := pos + 1;
      }
    }

    method SkipWhitespaceAndComments()
      requires Valid()
      modifies this
      ensures Valid()
      ensures Skip(old(Left())) == Skipped(skippedWhitespace, Left())
    {
      var ws := "";
      ghost var all := Skip(Left());
      assert "" + all.space == all.space;
      while pos < |src| && src[pos] != '\n' && (IsSpace(src[pos]) || StartsComment(src[pos..]))
        invariant Valid()
        invariant all == SkipOnto(ws, Left())
        decreases |src| - pos
      {
        SkipStep(ws, src, pos);
        if IsSpace(src[pos]) {
          ws := ws + [src[pos]];
          pos := pos + 1;
        } else {
          pos := pos + 1;
          SkipLine();
        }
      }
      skippedWhitespace := ws;
      SkipEnds(ws, src, pos);
    }

    /** The part of readQuotedStringBody from a backslash. */
    method ReadEscape() returns (c: Option<char>)
      requires Valid() && pos < |src| && src[pos] == '\\'
      modifies `pos
      ensures Valid() && old(pos) <= pos && (c.Some? ==> old(pos) < pos)
      ensures ReadBody(src[old(pos)..]) == if c.None? then BadBody else Prepend(c.value, ReadBody(src[pos..]))
    {
      EscapeStep(src, pos);
      pos := pos + 1;
      if pos == |src| {
        return None;
      }
      var next := src[pos];
      pos := pos + 1;
      if next == 'u' {
        c := HexChar(src[pos..]);
        if c.Some? {
          pos := pos + 4;
        }
      } else {
        c := Escaped(next);
      }
    }

    /** The text up to the closing quote; None for a bad one. */
    method ReadQuotedStringBody() returns (r: Option<string>)
      requires Valid()
      modifies `pos
      ensures Valid()
      ensures match ReadBody(old(Left()))
              case BadBody => r == None
              case Body(text, rest) => r == Some(text) && Left() == rest
    {
      var sb := "";
      ghost var all := ReadBody(Left());
      NothingInFront(all);
      while pos < |src| && src[pos] != '\n' && src[pos] != '"'
        invariant Valid()
        invariant all == Literals.PrependText(sb, ReadBody(src[pos..]))
        decreases |src| - pos
      {
        ghost var before := sb;
        if src[pos] == '\\' {
          var c := ReadEscape();
          if c.None? {
            return None;
          }
          sb := sb + [c.value];
          PrependOne(before, c.value, ReadBody(src[pos..]));
        } else {
          PlainStep(src, pos);
          sb := sb + [src[pos]];
          pos := pos + 1;
          PrependOne(before, src[pos - 1], ReadBody(src[pos..]));
        }
      }
      BodyEnds(src, pos);
      if pos == |src| || src[pos] == '\n' {
        return None;
      }
      pos := pos + 1;
      assert sb + "" == sb;
      return Some(sb);
    }

    /** The loop that counts consecutive quotes. */
    method CountQuotes() returns (quoteCount: nat)
      requires Valid()
      modifies `pos
      ensures Valid() && pos == old(pos) + quoteCount
      ensures quoteCount == QuoteRun(src[old(pos)..])
    {
      var startPos := pos;
      while pos < |src| && src[pos] == '"'
        invariant startPos <= pos <= |src|
        invariant QuoteRun(src[startPos..]) == pos - startPos + QuoteRun(src[pos..])
      {
        assert src[pos..][1..] == src[pos + 1..];
        pos := pos + 1;
      }
      quoteCount := pos - startPos;
    }

    /** A run of quotes: it closes the string, or belongs to it. */
    method TakeQuotes(before: string) returns (sb: string, closed: bool)
      requires Valid() && pos < |src| && src[pos] == '"'
      modifies `pos
      ensures Valid() && old(pos) < pos
      ensures Literals.PrependText(before, ReadTriple(src[old(pos)..])) ==
              if closed then Body(sb, src[pos..]) else Literals.PrependText(sb, ReadTriple(src[pos..]))
    {
      var startPos := pos;
      var quoteCount := CountQuotes();
      QuotesStep(before, src, startPos, pos);
      closed := quoteCount >= 3;
      sb := before + if closed then src[startPos..pos - 3] else src[startPos..pos];
    }

    method ReadTripleQuoted() returns (r: Option<string>)
      requires Valid()
      modifies `pos
      ensures Valid()
      ensures match ReadTriple(old(Left()))
              case BadBody => r == None
              case Body(text, rest) => r == Some(text) && Left() == rest
    {
      var sb := "";
      ghost var all := ReadTriple(Left());
      NothingInFront(all);
      while pos < |src|
        invariant Valid()
        invariant all == Literals.PrependText(sb, ReadTriple(src[pos..]))
        decreases |src| - pos
      {
        if src[pos] == '"' {
          var closed;
          sb, closed := TakeQuotes(sb);
          if closed {
            return Some(sb);
          }
        } else {
          ContentStep(sb, src, pos);
          sb := sb + [src[pos]];
          pos := pos + 1;
        }
      }
      assert ReadTriple(src[|src|..]) == BadBody;
      return None;
    }

    method ReadStringToken() returns (tok: Token)
      requires Valid() && pos < |src| && src[pos] == '"'
      modifies `pos
      ensures Valid() && Read(tok, ReadString(old(Left())))
    {
      ghost var s := src[pos..];
      pos := pos + 1;
      assert s[1..] == src[pos..];
      var body;
      if pos + 1 < |src| && src[pos] == '"' && src[pos + 1] == '"' {
        pos := pos + 2;
        assert s[3..] == src[pos..];
        body := ReadTripleQuoted();
      } else {
        body := ReadQuotedStringBody();
      }
      if body.None? {
        return Token(TError, "", false, "");
      }
      return Token(TString, body.value, true, "");
    }

    /** The token is the one specified, and so is the position behind it. */
    ghost predicate Read(tok: Token, l: Lexed)
      reads this
      requires Valid()
    {
      tok == l.tok && (Last(tok) || Left() == l.rest)
    }

    /** readUnquoted behind the given prefix. */
    method ReadUnquoted(prefix: string) returns (text: string)
      requires Valid()
      modifies `pos
      ensures Valid()
      ensures var s := old(Left());
              var n := UnquotedLength(s);
              text == prefix + s[..n] && Left() == s[n..]
    {
      ghost var start := pos;
      text := prefix;
      assert prefix + src[start..start] == prefix;
      while pos < |src| && !IsForbidden(src[pos]) && !(src[pos] == '/' && pos + 1 < |src| && src[pos + 1] == '/')
        invariant start <= pos <= |src|
        invariant text == prefix + src[start..pos]
        invariant UnquotedLength(src[start..]) == pos - start + UnquotedLength(src[pos..])
        decreases |src| - pos
      {
        assert src[pos..][1..] == src[pos + 1..];
        assert src[start..pos + 1] == src[start..pos] + [src[pos]];
        Assoc(prefix, src[start..pos], [src[pos]]);
        text := text + [src[pos]];
        pos := pos + 1;
      }
      CutAt(src, start, pos);
    }

    method ReadUnquotedOrKeywordToken() returns (tok: Token)
      requires Valid() && pos < |src|
      modifies `pos
      ensures Valid() && Read(tok, ReadUnquotedOrKeyword(old(Left())))
    {
      var text := ReadUnquoted("");
      ghost var s := old(Left());
      assert "" + s[..UnquotedLength(s)] == s[..UnquotedLength(s)];
      if text == "" {
        return Token(TError, "", false, "");
      }
      return Token(KeywordKind(text), text, false, "");
    }

    method ScanRun() returns (run: string)
      requires Valid()
      modifies `pos
      ensures Valid()
      ensures var s := old(Left());
              run == s[..RunLength(s)] && Left() == s[RunLength(s)..]
    {
      var start := pos;
      while pos < |src| && IsRunChar(src[pos])
        invariant start <= pos <= |src|
        invariant RunLength(src[start..]) == pos - start + RunLength(src[pos..])
      {
        RunStep(src, pos);
        pos := pos + 1;
      }
      run := src[start..pos];
      CutAt(src, start, pos);
    }

    method ReadNumberToken() returns (tok: Token)
      requires Valid()
      modifies `pos
      ensures Valid() && Read(tok, ReadNumber(old(Left())))
    {
      ghost var s := Left();
      var run := ScanRun();
      assert |run| == RunLength(s) && run == s[..|run|];
      var kind := NumberRunTypeScan(run);
      if kind.Some? {
        return Token(kind.value, run, false, "");
      }
      if '+' in run {
        return Token(TError, "", false, "");
      }
      ghost var m := UnquotedLength(Left());
      RunThenText(s, |run|, m);
      var text := ReadUnquoted(run);
      assert text == s[..|run| + m] && Left() == s[|run| + m..];
      return Token(TString, text, false, "");
    }

    method NextTokenHere() returns (tok: Token)
      requires Valid()
      modifies `pos
      ensures Valid() && Read(tok, NextToken(old(Left())))
    {
      if pos == |src| {
        return Token(TEof, "", false, "");
      }
      var ch := src[pos];
      ghost var s := src[pos..];
      assert s[0] == ch && s[1..] == src[pos + 1..];
      if ch == '\n' {
        pos := pos + 1;
        return Token(TNewline, "", false, "");
      }
      if IsPunctuation(ch) {
        pos := pos + 1;
        return Token(PunctuationKind(ch), [ch], false, "");
      }
      if ch == '+' {
        pos := pos + 1;
        if pos < |src| && src[pos] == '=' {
          assert s[1] == '=' && s[2..] == src[pos + 1..];
          pos := pos + 1;
          return Token(TPlusEquals, "+=", false, "");
        }
        assert |s| > 1 ==> s[1] != '=';
        return Token(TError, "", false, "");
      }
      if ch == '$' {
        return Token(TOutside, "", false, "");
      }
      if ch == '"' {
        tok := ReadStringToken();
      } else if ch == '-' || IsDigit(ch) {
        tok := ReadNumberToken();
      } else {
        tok := ReadUnquotedOrKeywordToken();
      }
    }

    /** The tokens still to come are the one returned and, unless it is the last
        one, those of the text behind it. */
    method NextOne() returns (tok: Token)
      requires Valid()
      modifies this
      ensures Valid()
      ensures Tokens(old(Left())) == [tok] + (if Last(tok) then [] else Tokens(Left()))
    {
      SkipWhitespaceAndComments();
      var hadWhitespace := skippedWhitespace;
      tok := NextTokenHere();
      tok := tok.(space := hadWhitespace);
      assert tok == Next(old(Left())).tok;
      assert [tok] + [] == [tok];
    }
  }

  predicate IsPunctuation(ch: char) {
    ch == '{' || ch == '}' || ch == '[' || ch == ']' || ch == ',' || ch == ':' || ch == '='
  }

  function PunctuationKind(ch: char): Kind
    requires IsPunctuation(ch)
  {
    match ch
    case '{' => TLBrace
    case '}' => TRBrace
    case '[' => TLBracket
    case ']' => TRBracket
    case ',' => TComma
    case ':' => TColon
    case _ => TEquals
  }

  /** numberRunType, with its index loops. */
  method NumberRunTypeScan(run: string) returns (kind: Option<Kind>)
    ensures kind == NumberRunType(run)
  {
    var i := 0;
    assert run[0..] == run;
    if i < |run| && run[i] == '-' {
      i := i + 1;
    }
    var intDigits := ScanDigits(run, i);
    DropTwice(run, i, intDigits);
    i := i + intDigits;
    assert NumberRunType(run) == NumberTail(intDigits > 0, run[i..]);
    var isFloat, fracDigits := false, 0;
    if i < |run| && run[i] == '.' {
      isFloat := true;
      i, fracDigits := ScanFraction(run, i, intDigits > 0);
    }
    kind := FinishNumber(run, i, intDigits > 0 || fracDigits > 0, isFloat);
  }

  method FinishNumber(run: string, i: nat, digits: bool, isFloat: bool) returns (kind: Option<Kind>)
    requires i <= |run|
    ensures kind == NumberEnd(digits, isFloat, run[i..])
  {
    if !digits {
      return None;
    }
    if i < |run| && (run[i] == 'e' || run[i] == 'E') {
      var ok := ScanExponent(run, i);
      return if ok then Some(TFloat) else None;
    }
    if i != |run| {
      return None;
    }
    return Some(if isFloat then TFloat else TInt);
  }

  method ScanFraction(run: string, start: nat, digits: bool) returns (end: nat, fracDigits: nat)
    requires start < |run| && run[start] == '.'
    ensures start < end <= |run|
    ensures NumberTail(digits, run[start..]) == NumberEnd(digits || fracDigits > 0, true, run[end..])
  {
    var i := start + 1;
    fracDigits := ScanDigits(run, i);
    end := i + fracDigits;
    DropTwice(run, start, 1);
    DropTwice(run, i, fracDigits);
  }

  lemma {:induction false} DropTwice(s: string, i: nat, j: nat)
    requires i + j <= |s|
    ensures s[i..][j..] == s[i + j..]
  {
  }

  method ScanExponent(run: string, start: nat) returns (ok: bool)
    requires start < |run| && (run[start] == 'e' || run[start] == 'E')
    ensures ok == IsExponent(run[start..])
  {
    var i := start + 1;
    ghost var tail := run[start..];
    assert tail[1..] == run[start + 1..];
    if i < |run| && (run[i] == '+' || run[i] == '-') {
      assert tail[1] == run[i] && tail[2..] == run[start + 2..];
      i := i + 1;
    }
    var expDigits := ScanDigits(run, i);
    return expDigits != 0 && i + expDigits == |run|;
  }

  method ScanDigits(run: string, start: nat) returns (n: nat)
    requires start <= |run|
    ensures n == DigitRun(run[start..]) && start + n <= |run|
  {
    var i := start;
    while i < |run| && IsDigit(run[i])
      invariant start <= i <= |run|
      invariant DigitRun(run[start..]) == i - start + DigitRun(run[i..])
    {
      assert run[i..][1..] == run[i + 1..];
      i := i + 1;
    }
    return i - start;
  }

  // ---------- one turn of the loops ----------

  ghost function SkipOnto(ws: string, s: string): Skipped {
    Skipped(ws + Skip(s).space, Skip(s).rest)
  }

  lemma {:induction false} SkipStep(ws: string, src: string, i: nat)
    requires i < |src| && src[i] != '\n' && (IsSpace(src[i]) || StartsComment(src[i..]))
    ensures SkipOnto(ws, src[i..]) ==
            if IsSpace(src[i]) then SkipOnto(ws + [src[i]], src[i + 1..]) else SkipOnto(ws, DropLine(src[i + 1..]))
  {
    assert src[i..][1..] == src[i + 1..];
    if IsSpace(src[i]) {
      MoveOne(ws, src[i], Skip(src[i + 1..]).space);
    }
  }

  lemma {:induction false} SkipEnds(ws: string, src: string, i: nat)
    requires i <= |src| && !(i < |src| && src[i] != '\n' && (IsSpace(src[i]) || StartsComment(src[i..])))
    ensures SkipOnto(ws, src[i..]) == Skipped(ws, src[i..])
  {
    assert ws + "" == ws;
  }

  lemma {:induction false} NothingInFront(b: Body)
    ensures Literals.PrependText("", b) == b
  {
    assert b.Body? ==> "" + b.text == b.text;
  }

  lemma {:induction false} PlainStep(src: string, i: nat)
    requires i < |src| && src[i] != '\n' && src[i] != '"' && src[i] != '\\'
    ensures ReadBody(src[i..]) == Prepend(src[i], ReadBody(src[i + 1..]))
  {
    assert src[i..][1..] == src[i + 1..];
  }

  lemma {:induction false} BodyEnds(src: string, i: nat)
    requires i <= |src|
    ensures i == |src| || src[i] == '\n' ==> ReadBody(src[i..]) == BadBody
    ensures i < |src| && src[i] == '"' ==> ReadBody(src[i..]) == Body("", src[i + 1..])
  {
    assert i < |src| ==> src[i..][1..] == src[i + 1..];
  }

  lemma {:induction false} EscapeStep(src: string, i: nat)
    requires i < |src| && src[i] == '\\'
    ensures var b := ReadBody(src[i..]);
            if i + 1 == |src| then b == BadBody
            else if src[i + 1] == 'u' then
              var c := HexChar(src[i + 2..]);
              if c.None? then b == BadBody else i + 6 <= |src| && b == Prepend(c.value, ReadBody(src[i + 6..]))
            else
              var c := Escaped(src[i + 1]);
              b == if c.None? then BadBody else Prepend(c.value, ReadBody(src[i + 2..]))
  {
    var s := src[i..];
    if i + 1 < |src| {
      assert s[1] == src[i + 1] && s[2..] == src[i + 2..];
      if src[i + 1] == 'u' && HexChar(src[i + 2..]).Some? {
        assert s[6..] == src[i + 6..];
      }
    }
  }

  lemma {:induction false} RunStep(src: string, i: nat)
    requires i < |src| && IsRunChar(src[i])
    ensures RunLength(src[i..]) == 1 + RunLength(src[i + 1..])
  {
    assert src[i..][1..] == src[i + 1..];
  }

  lemma {:induction false} CutAt(src: string, i: nat, j: nat)
    requires i <= j <= |src|
    ensures src[i..][..j - i] == src[i..j] && src[i..][j - i..] == src[j..]
  {
  }

  lemma {:induction false} RunThenText(s: string, n: nat, m: nat)
    requires n + m <= |s|
    ensures s[..n] + s[n..][..m] == s[..n + m] && s[n..][m..] == s[n + m..]
  {
  }

  lemma {:induction false} PrependOne(sb: string, c: char, b: Body)
    ensures Literals.PrependText(sb, Prepend(c, b)) == Literals.PrependText(sb + [c], b)
  {
    if b.Body? {
      MoveOne(sb, c, b.text);
    }
  }

  /** A run of quotes from i to end. */
  lemma {:induction false} QuotesStep(sb: string, src: string, i: nat, end: nat)
    requires i < |src| && src[i] == '"' && end == i + QuoteRun(src[i..]) <= |src|
    ensures i < end
    ensures Literals.PrependText(sb, ReadTriple(src[i..])) ==
            if end - i >= 3 then Body(sb + src[i..end - 3], src[end..])
            else Literals.PrependText(sb + src[i..end], ReadTriple(src[end..]))
  {
    var s, n := src[i..], end - i;
    assert s[n..] == src[end..] && s[..n] == src[i..end];
    if n >= 3 {
      assert s[..n - 3] == src[i..end - 3];
    } else {
      var r := ReadTriple(src[end..]);
      if r.Body? {
        Assoc(sb, src[i..end], r.text);
      }
    }
  }

  lemma {:induction false} ContentStep(sb: string, src: string, i: nat)
    requires i < |src| && src[i] != '"'
    ensures Literals.PrependText(sb, ReadTriple(src[i..])) ==
            Literals.PrependText(sb + [src[i]], ReadTriple(src[i + 1..]))
  {
    assert src[i..][1..] == src[i + 1..];
    PrependOne(sb, src[i], ReadTriple(src[i + 1..]));
  }
}
