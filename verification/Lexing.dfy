/**
 The lexer, the specification (internal/lexer/lexer.go): what the next token of a
 text is, and the token list of a whole text.  Substitution bodies are outside
 this model; so are positions.
 */
module Lexing {
  import opened Paths
  import opened Numerals

  datatype Kind =
    | TString | TInt | TFloat | TBool | TNull
    | TLBrace | TRBrace | TLBracket | TRBracket | TComma | TColon | TEquals | TPlusEquals
    | TInclude | TNewline | TEof | TError | TOutside

  /** A token; "space" is the whitespace in front of it. */
  datatype Token = Token(kind: Kind, value: string, quoted: bool, space: string)

  datatype Lexed = Lexed(tok: Token, rest: string)

  function Plain(kind: Kind, value: string, rest: string): Lexed {
    Lexed(Token(kind, value, false, ""), rest)
  }

  // ---------- whitespace and comments ----------

  datatype Skipped = Skipped(space: string, rest: string)

  /** The rest of a comment. */
  function DropLine(s: string): (r: string)
    ensures |r| <= |s|
  {
    if s == "" || s[0] == '\n' then s else DropLine(s[1..])
  }

  predicate StartsComment(s: string) {
    s != "" && (s[0] == '#' || (s[0] == '/' && |s| > 1 && s[1] == '/'))
  }

  /** skipWhitespaceAndComments: newlines are left standing. */
  function Skip(s: string): (r: Skipped)
    ensures |r.rest| <= |s|
    decreases |s|
  {
    if s == "" || s[0] == '\n' then Skipped("", s)
    else if IsSpace(s[0]) then
      var r := Skip(s[1..]);
      r.(space := [s[0]] + r.space)
    else if StartsComment(s) then Skip(DropLine(s[1..]))
    else Skipped("", s)
  }

  // ---------- quoted strings ----------

  predicate IsHex(c: char) {
    '0' <= c <= '9' || 'a' <= c <= 'f' || 'A' <= c <= 'F'
  }

  function HexDigit(c: char): (d: nat)
    requires IsHex(c)
    ensures d < 16
  {
    if '0' <= c <= '9' then c as int - '0' as int
    else if 'a' <= c <= 'f' then c as int - 'a' as int + 10
    else c as int - 'A' as int + 10
  }

  /** The character of a four-digit escape; None for a non-hex digit, a missing
      one, and a surrogate. */
  function HexChar(s: string): Option<char> {
    if |s| < 4 || !IsHex(s[0]) || !IsHex(s[1]) || !IsHex(s[2]) || !IsHex(s[3]) then None
    else
      var code := 4096 * HexDigit(s[0]) + 256 * HexDigit(s[1]) + 16 * HexDigit(s[2]) + HexDigit(s[3]);
      if 0xD800 <= code <= 0xDFFF then None else Some(code as char)
  }

  /** The one-character escapes. */
  function Escaped(c: char): Option<char> {
    match c
    case 'n' => Some('\n')
    case 't' => Some('\t')
    case 'r' => Some('\r')
    case '"' => Some('"')
    case '\\' => Some('\\')
    case '/' => Some('/')
    case 'b' => Some(8 as char)
    case 'f' => Some(12 as char)
    case _ => None
  }

  datatype Body = Body(text: string, rest: string) | BadBody

  function Prepend(c: char, b: Body): Body {
    if b.Body? then Body([c] + b.text, b.rest) else b
  }

  /** readQuotedStringBody: the text up to the closing quote. */
  function ReadBody(s: string): (r: Body)
    ensures r.Body? ==> |r.rest| < |s|
    decreases |s|
  {
    if s == "" || s[0] == '\n' then BadBody
    else if s[0] == '"' then Body("", s[1..])
    else if s[0] != '\\' then Prepend(s[0], ReadBody(s[1..]))
    else if |s| == 1 then BadBody
    else if s[1] == 'u' then
      var c := HexChar(s[2..]);
      if c.None? then BadBody else Prepend(c.value, ReadBody(s[6..]))
    else
      var c := Escaped(s[1]);
      if c.None? then BadBody else Prepend(c.value, ReadBody(s[2..]))
  }

  /** The length of the run of quotes at the front. */
  function QuoteRun(s: string): (n: nat)
    ensures n <= |s| && forall i | 0 <= i < n :: s[i] == '"'
    ensures n < |s| ==> s[n] != '"'
  {
    if s != "" && s[0] == '"' then 1 + QuoteRun(s[1..]) else 0
  }

  /** readTripleQuoted: of the first run of three quotes or more the last three
      close the string, the others belong to it. */
  function ReadTriple(s: string): (r: Body)
    ensures r.Body? ==> |r.rest| < |s|
    decreases |s|
  {
    if s == "" then BadBody
    else
      var n := QuoteRun(s);
      if n >= 3 then Body(s[..n - 3], s[n..])
      else if n > 0 then
        var r := ReadTriple(s[n..]);
        if r.Body? then Body(s[..n] + r.text, r.rest) else r
      else Prepend(s[0], ReadTriple(s[1..]))
  }

  /** readString, from the opening quote. */
  function ReadString(s: string): Lexed
    requires s != "" && s[0] == '"'
  {
    var triple := |s| > 2 && s[1] == '"' && s[2] == '"';
    var b := if triple then ReadTriple(s[3..]) else ReadBody(s[1..]);
    if b.Body? then Lexed(Token(TString, b.text, true, ""), b.rest) else Plain(TError, "", "")
  }

  // ---------- numbers and unquoted text ----------

  predicate IsRunChar(c: char) {
    IsDigit(c) || c == '.' || c == 'e' || c == 'E' || c == '+' || c == '-'
  }

  /** The length of the greedy run of number characters. */
  function RunLength(s: string): (n: nat)
    ensures n <= |s| && forall i | 0 <= i < n :: IsRunChar(s[i])
    ensures n < |s| ==> !IsRunChar(s[n])
  {
    if s != "" && IsRunChar(s[0]) then 1 + RunLength(s[1..]) else 0
  }

  function DigitRun(s: string): (n: nat)
    ensures n <= |s|
  {
    if s != "" && IsDigit(s[0]) then 1 + DigitRun(s[1..]) else 0
  }

  /** numberRunType: -?(d+(.d*)?|.d+)([eE][+-]?d+)? is a float, -?d+ an integer. */
  function NumberRunType(run: string): (kind: Option<Kind>)
    ensures kind.Some? ==> kind.value == TInt || kind.value == TFloat
  {
    var body := if run != "" && run[0] == '-' then run[1..] else run;
    var n := DigitRun(body);
    NumberTail(n > 0, body[n..])
  }

  /** The part of a number behind its whole digits. */
  function NumberTail(digits: bool, s: string): (kind: Option<Kind>)
    ensures kind.Some? ==> kind.value == TInt || kind.value == TFloat
  {
    if s != "" && s[0] == '.' then
      var n := DigitRun(s[1..]);
      NumberEnd(digits || n > 0, true, s[1..][n..])
    else NumberEnd(digits, false, s)
  }

  function NumberEnd(digits: bool, dot: bool, tail: string): (kind: Option<Kind>)
    ensures kind.Some? ==> kind.value == TInt || kind.value == TFloat
  {
    if !digits then None
    else if tail == "" then Some(if dot then TFloat else TInt)
    else if IsExponent(tail) then Some(TFloat)
    else None
  }

  predicate IsExponent(tail: string) {
    var exp := if |tail| > 1 && (tail[1] == '+' || tail[1] == '-') then tail[2..] else if tail == "" then ""
      else tail[1..];
    tail != "" && (tail[0] == 'e' || tail[0] == 'E') && exp != "" && DigitRun(exp) == |exp|
  }

  const FORBIDDEN: string := "$\"{}[]:=,+#\\^?!@*&`"

  predicate IsForbidden(c: char) {
    IsSpace(c) || c in FORBIDDEN
  }

  /** readUnquoted: how far the unquoted text goes. */
  function UnquotedLength(s: string): (n: nat)
    ensures n <= |s|
  {
    if s == "" || IsForbidden(s[0]) || (s[0] == '/' && |s| > 1 && s[1] == '/') then 0
    else 1 + UnquotedLength(s[1..])
  }

  function KeywordKind(text: string): Kind {
    if text == "true" || text == "false" then TBool
    else if text == "null" then TNull
    else if text == "include" then TInclude
    else TString
  }

  function ReadUnquotedOrKeyword(s: string): (r: Lexed)
    requires s != ""
  {
    var n := UnquotedLength(s);
    if n == 0 then Plain(TError, "", s[1..]) else Plain(KeywordKind(s[..n]), s[..n], s[n..])
  }

  /** readNumber: a run that is no number goes on as unquoted text, unless there is
      a plus sign in it. */
  function ReadNumber(s: string): Lexed {
    var n := RunLength(s);
    var run := s[..n];
    var kind := NumberRunType(run);
    if kind.Some? then Plain(kind.value, run, s[n..])
    else if '+' in run then Plain(TError, "", s[n..])
    else
      var m := n + UnquotedLength(s[n..]);
      Plain(TString, s[..m], s[m..])
  }

  // ---------- the next token ----------

  function NextToken(s: string): Lexed {
    if s == "" then Plain(TEof, "", "")
    else
      match s[0]
      case '\n' => Plain(TNewline, "", s[1..])
      case '{' => Plain(TLBrace, "{", s[1..])
      case '}' => Plain(TRBrace, "}", s[1..])
      case '[' => Plain(TLBracket, "[", s[1..])
      case ']' => Plain(TRBracket, "]", s[1..])
      case ',' => Plain(TComma, ",", s[1..])
      case ':' => Plain(TColon, ":", s[1..])
      case '=' => Plain(TEquals, "=", s[1..])
      case '+' => if |s| > 1 && s[1] == '=' then Plain(TPlusEquals, "+=", s[2..]) else Plain(TError, "", s[1..])
      case '$' => Plain(TOutside, "", s[1..])
      case '"' => ReadString(s)
      case _ => if s[0] == '-' || IsDigit(s[0]) then ReadNumber(s) else ReadUnquotedOrKeyword(s)
  }

  function Next(s: string): Lexed {
    var skipped := Skip(s);
    var l := NextToken(skipped.rest);
    l.(tok := l.tok.(space := skipped.space))
  }

  /** Nothing is read behind an end, an error, or what this model leaves out. */
  predicate Last(t: Token) {
    t.kind == TEof || t.kind == TError || t.kind == TOutside
  }

  lemma {:induction false} NextConsumes(s: string)
    ensures !Last(Next(s).tok) ==> |Next(s).rest| < |s|
  {
    var t := Skip(s).rest;
    if t != "" {
      var l := NextToken(t);
      if t[0] == '-' || IsDigit(t[0]) {
        assert RunLength(t) > 0;
      }
    }
  }

  /** The tokens of a text. */
  function Tokens(s: string): (ts: seq<Token>)
    ensures ts != []
    decreases |s|
  {
    var l := Next(s);
    NextConsumes(s);
    if Last(l.tok) then [l.tok] else [l.tok] + Tokens(l.rest)
  }

  /** New drops a byte order mark. */
  function TokensOfText(src: string): seq<Token> {
    Tokens(if src != "" && src[0] == 0xFEFF as char then src[1..] else src)
  }
}
