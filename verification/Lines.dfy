/**
 Lines of text: a key, a sign and pieces of text, from the characters to the
 resolved value (internal/lexer/lexer.go, internal/parser/parser.go and
 resolveConcat in internal/resolver/resolver.go).
 */
module Lines {
  import opened Paths
  import opened Values
  import opened Numerals
  import opened Lexing
  import opened Literals
  import opened Parsing
  import opened Grammar
  import opened RoundTrip
  import opened Resolve
  import opened Concats
  import Elements
  import Pieces

  // ---------- pieces of a line ----------

  /** A piece, with the whitespace in front of it. */
  datatype Scrap =
    | Unquoted(gap: string, text: string)
    | Number(gap: string, text: string)
    | InQuotes(gap: string, text: string)

  function Literal(p: Scrap): string {
    if p.InQuotes? then QuoteString(p.text) else p.text
  }

  /** The pieces as they are written, one after the other. */
  function LineText(ps: seq<Scrap>): string {
    if ps == [] then "" else ps[0].gap + (Literal(ps[0]) + LineText(ps[1..]))
  }

  predicate StartsNumber(s: string) {
    s != "" && (s[0] == '-' || IsDigit(s[0]))
  }

  predicate NoComment(s: string) {
    forall i | 0 <= i < |s| - 1 :: !(s[i] == '/' && s[i + 1] == '/')
  }

  /** No forbidden character and no comment. */
  predicate Loose(s: string) {
    (forall i | 0 <= i < |s| :: !IsForbidden(s[i])) && NoComment(s)
  }

  /** Unquoted text, which may begin like a number but not with one. */
  predicate Bare(s: string) {
    s != "" && Loose(s) && (StartsNumber(s) ==> NumberRunType(s[..RunLength(s)]).None?)
  }

  predicate ValidScrap(fl: FloatTest, p: Scrap) {
    && Blank(p.gap)
    && match p {
         case Unquoted(_, text) => Bare(text)
         case Number(_, text) => NumberLexeme(fl, text)
         case InQuotes(_, _) => true
       }
  }

  /** A text that ends unquoted text. */
  predicate Ends(s: string) {
    s == "" || (IsForbidden(s[0]) && s[0] != '+')
  }

  /** A text the piece does not run into. */
  predicate Apart(p: Scrap, s: string) {
    match p
    case Unquoted(_, _) => Ends(s)
    case Number(_, _) => s == "" || !IsRunChar(s[0])
    case InQuotes(_, text) => StartsWithQuote(s) ==> text != "" && !UsesTriple(text)
  }

  /** Pieces that stay apart from each other and from what stands behind them. */
  predicate Line(fl: FloatTest, ps: seq<Scrap>, rest: string) {
    ps == [] || (ValidScrap(fl, ps[0]) && Apart(ps[0], LineText(ps[1..]) + rest) && Line(fl, ps[1..], rest))
  }

  // ---------- their tokens ----------

  function KindOf(p: Scrap): Kind {
    match p
    case InQuotes(_, _) => TString
    case Number(_, text) => if NumberRunType(text).Some? then NumberRunType(text).value else TError
    case Unquoted(_, text) => if StartsNumber(text) then TString else KeywordKind(text)
  }

  function TokenOf(p: Scrap): Token {
    Token(KindOf(p), p.text, p.InQuotes?, p.gap)
  }

  function LineTokens(ps: seq<Scrap>): seq<Token> {
    if ps == [] then [] else [TokenOf(ps[0])] + LineTokens(ps[1..])
  }

  lemma {:induction false} NoSign(c: char)
    requires !IsForbidden(c)
    ensures c != '\n' && c != '{' && c != '}' && c != '[' && c != ']' && c != ',' && c != ':' && c != '='
    ensures c != '+' && c != '$' && c != '"' && c != '#' && !IsSpace(c)
  {
    assert FORBIDDEN ==
           ['$', '"', '{', '}', '[', ']', ':', '=', ',', '+', '#', '\\', '^', '?', '!', '@', '*', '&', '`'];
  }

  lemma {:induction false} SlashIsFree()
    ensures !IsForbidden('/')
  {
    assert FORBIDDEN ==
           ['$', '"', '{', '}', '[', ']', ':', '=', ',', '+', '#', '\\', '^', '?', '!', '@', '*', '&', '`'];
  }

  lemma {:induction false} NoCommentTail(s: string, n: nat)
    requires NoComment(s) && n <= |s|
    ensures NoComment(s[n..])
  {
    var t := s[n..];
    forall i | 0 <= i < |t| - 1 ensures !(t[i] == '/' && t[i + 1] == '/') {
      assert t[i] == s[n + i] && t[i + 1] == s[n + i + 1];
    }
  }

  lemma {:induction false} LooseTail(s: string, n: nat)
    requires Loose(s) && n <= |s|
    ensures Loose(s[n..])
  {
    NoCommentTail(s, n);
  }

  lemma {:induction false} LooseIs(s: string, rest: string)
    requires Loose(s) && Ends(rest)
    ensures UnquotedLength(s + rest) == |s|
  {
    if s == "" {
      assert s + rest == rest;
    } else {
      var all := s + rest;
      SlashIsFree();
      assert all[1..] == s[1..] + rest && all[0] == s[0];
      assert |s| > 1 ==> all[1] == s[1];
      LooseTail(s, 1);
      LooseIs(s[1..], rest);
    }
  }

  lemma {:induction false} BareStarts(s: string, rest: string)
    requires Bare(s) && Ends(rest)
    ensures Starts(s + rest) && (s + rest)[0] == s[0]
  {
    NoSign(s[0]);
    SlashIsFree();
    assert |s| > 1 ==> (s + rest)[1] == s[1];
  }

  lemma {:induction false} LexesWord(s: string, ws: string, rest: string)
    requires Bare(s) && !StartsNumber(s) && Ends(rest) && Blank(ws)
    ensures Tokens(ws + (s + rest)) == [Token(KeywordKind(s), s, false, ws)] + Tokens(rest)
  {
    var all := s + rest;
    NoSign(s[0]);
    BareStarts(s, rest);
    LooseIs(s, rest);
    assert all[..|s|] == s && all[|s|..] == rest;
    assert NextToken(all) == ReadUnquotedOrKeyword(all);
    Step(ws, all, Token(KeywordKind(s), s, false, ""), rest);
  }

  lemma {:induction false} EndsRun(rest: string)
    requires Ends(rest)
    ensures rest == "" || !IsRunChar(rest[0])
  {
    assert FORBIDDEN ==
           ['$', '"', '{', '}', '[', ']', ':', '=', ',', '+', '#', '\\', '^', '?', '!', '@', '*', '&', '`'];
  }

  lemma {:induction false} NoPlusIn(s: string, n: nat)
    requires Loose(s) && n <= |s|
    ensures '+' !in s[..n]
  {
    forall i | 0 <= i < n ensures s[i] != '+' { NoSign(s[i]); }
  }

  lemma {:induction false} ReadsNoNumber(s: string, rest: string)
    requires Bare(s) && StartsNumber(s) && Ends(rest)
    ensures ReadNumber(s + rest) == Lexed(Token(TString, s, false, ""), rest)
  {
    var all, n := s + rest, RunLength(s);
    EndsRun(rest);
    RunIs(s, rest);
    assert all[..n] == s[..n] && all[n..] == s[n..] + rest;
    NoPlusIn(s, n);
    LooseTail(s, n);
    LooseIs(s[n..], rest);
    assert all[..|s|] == s && all[|s|..] == rest;
  }

  lemma {:induction false} LexesNoNumber(s: string, ws: string, rest: string)
    requires Bare(s) && StartsNumber(s) && Ends(rest) && Blank(ws)
    ensures Tokens(ws + (s + rest)) == [Token(TString, s, false, ws)] + Tokens(rest)
  {
    NumberFirst(s + rest);
    ReadsNoNumber(s, rest);
    Step(ws, s + rest, Token(TString, s, false, ""), rest);
  }

  lemma {:induction false} LexesLiteral(s: string, ws: string, rest: string)
    requires (StartsWithQuote(rest) ==> s != "" && !UsesTriple(s)) && Blank(ws)
    ensures Tokens(ws + (QuoteString(s) + rest)) == [Token(TString, s, true, ws)] + Tokens(rest)
  {
    LiteralReadsBack(s, rest);
    assert (QuoteString(s) + rest)[0] == '"';
    Step(ws, QuoteString(s) + rest, Token(TString, s, true, ""), rest);
  }

  lemma {:induction false} LexesScrap(fl: FloatTest, p: Scrap, rest: string)
    requires ValidScrap(fl, p) && Apart(p, rest)
    ensures Tokens(p.gap + (Literal(p) + rest)) == [TokenOf(p)] + Tokens(rest)
  {
    match p
    case Unquoted(gap, text) =>
      if StartsNumber(text) {
        LexesNoNumber(text, gap, rest);
      } else {
        LexesWord(text, gap, rest);
      }
    case Number(gap, text) =>
      RunIs(text, rest);
      LexRun(text, gap, rest);
    case InQuotes(gap, text) => LexesLiteral(text, gap, rest);
  }

  /** Pieces that stay apart are read one by one. */
  lemma {:induction false} LexesLine(fl: FloatTest, ps: seq<Scrap>, rest: string)
    requires Line(fl, ps, rest)
    ensures Tokens(LineText(ps) + rest) == LineTokens(ps) + Tokens(rest)
  {
    if ps == [] {
      assert "" + rest == rest && [] + Tokens(rest) == Tokens(rest);
    } else {
      var after := LineText(ps[1..]) + rest;
      Assoc(ps[0].gap, Literal(ps[0]) + LineText(ps[1..]), rest);
      Assoc(Literal(ps[0]), LineText(ps[1..]), rest);
      LexesScrap(fl, ps[0], after);
      LexesLine(fl, ps[1..], rest);
      Assoc([TokenOf(ps[0])], LineTokens(ps[1..]), Tokens(rest));
    }
  }

  // ---------- what is parsed ----------

  function WordOf(p: Scrap): Writing {
    Word(TokenOf(p))
  }

  function WordsOf(ps: seq<Scrap>): (ws: seq<Writing>)
    ensures |ws| == |ps|
  {
    seq(|ps|, i requires 0 <= i < |ps| => WordOf(ps[i]))
  }

  /** The value of a line. */
  function WritingOf(ps: seq<Scrap>): Writing
    requires ps != []
  {
    if |ps| == 1 then WordOf(ps[0]) else Joined(WordOf(ps[0]), WordsOf(ps[1..]))
  }

  lemma {:induction false} FirstWord(ps: seq<Scrap>)
    requires ps != []
    ensures WordsOf(ps)[0] == WordOf(ps[0]) && WordsOf(ps)[1..] == WordsOf(ps[1..])
  {
  }

  lemma {:induction false} WordsWritten(ps: seq<Scrap>)
    ensures WrittenAll(WordsOf(ps)) == LineTokens(ps)
  {
    if ps != [] {
      FirstWord(ps);
      WordsWritten(ps[1..]);
    }
  }

  lemma {:induction false} LineWritten(ps: seq<Scrap>)
    requires ps != []
    ensures Written(WritingOf(ps)) == LineTokens(ps)
  {
    WordsWritten(ps[1..]);
    if |ps| == 1 { assert ps[1..] == [] && [TokenOf(ps[0])] + [] == [TokenOf(ps[0])]; }
  }

  lemma {:induction false} ScrapIsWord(fl: FloatTest, p: Scrap)
    requires ValidScrap(fl, p)
    ensures WordToken(fl, TokenOf(p))
  {
  }

  lemma {:induction false} LineScraps(fl: FloatTest, ps: seq<Scrap>, rest: string)
    requires Line(fl, ps, rest)
    ensures forall i | 0 <= i < |ps| :: ValidScrap(fl, ps[i])
  {
    if ps != [] {
      LineScraps(fl, ps[1..], rest);
      forall i | 0 <= i < |ps| ensures ValidScrap(fl, ps[i]) {
        if i > 0 { assert ps[i] == ps[1..][i - 1]; }
      }
    }
  }

  lemma {:induction false} LineIsValid(fl: FloatTest, ps: seq<Scrap>, rest: string)
    requires ps != [] && Line(fl, ps, rest)
    ensures Valid(fl, WritingOf(ps))
  {
    LineScraps(fl, ps, rest);
    forall i | 0 <= i < |ps| ensures Valid(fl, WordOf(ps[i])) { ScrapIsWord(fl, ps[i]); }
  }

  /** A line is parsed to its pieces in order, each with the whitespace in front of
      it, where there is any, as a separator. */
  lemma {:induction false} ParsesLine(fl: FloatTest, ps: seq<Scrap>, rest: string)
    requires ps != [] && Line(fl, ps, rest) && EndsValue(Tokens(rest)[0].kind)
    ensures ParseValue(fl, Tokens(LineText(ps) + rest)) == Done(Meaning(WritingOf(ps)), Tokens(rest))
  {
    LexesLine(fl, ps, rest);
    LineWritten(ps);
    LineIsValid(fl, ps, rest);
    ParsesValue(fl, WritingOf(ps), Tokens(rest));
  }

  // ---------- what is built ----------

  function ScalarOf(p: Scrap): Val {
    match KindOf(p)
    case TInt => Scalar(p.text, NumberT, false)
    case TFloat => Scalar(p.text, NumberT, false)
    case TBool => Scalar(p.text, BooleanT, false)
    case TNull => Scalar(p.text, NullT, false)
    case _ => Scalar(p.text, StringT, false)
  }

  /** Pieces behind the first, and the whitespace between. */
  function ScalarsBehind(ps: seq<Scrap>): seq<Val> {
    if ps == [] then []
    else (if ps[0].gap != "" then [Scalar(ps[0].gap, StringT, true)] else []) +
           ([ScalarOf(ps[0])] + ScalarsBehind(ps[1..]))
  }

  lemma {:induction false} BuildsWord(fl: FloatTest, p: Scrap)
    requires ValidScrap(fl, p)
    ensures Build(Meaning(WordOf(p))) == Some(ScalarOf(p))
  {
  }

  lemma {:induction false} BuildOne(n: Node, ns: seq<Node>)
    requires Build(n).Some? && BuildAll(ns).Some?
    ensures BuildAll([n] + ns) == Some([Build(n).value] + BuildAll(ns).value)
  {
    assert ([n] + ns)[1..] == ns;
  }

  lemma {:induction false} BehindIs(ps: seq<Scrap>)
    requires ps != []
    ensures MeaningBehind(WordsOf(ps)) ==
            (if ps[0].gap != "" then [NScalar(ps[0].gap, StringT, true)] else []) +
              ([Meaning(WordOf(ps[0]))] + MeaningBehind(WordsOf(ps[1..])))
  {
    FirstWord(ps);
  }

  lemma {:induction false} BuildsBehind(fl: FloatTest, ps: seq<Scrap>)
    requires forall i | 0 <= i < |ps| :: ValidScrap(fl, ps[i])
    ensures BuildAll(MeaningBehind(WordsOf(ps))) == Some(ScalarsBehind(ps))
  {
    if ps == [] {
      assert WordsOf(ps) == [];
    } else {
      BuildsBehind(fl, ps[1..]);
      BuildsWord(fl, ps[0]);
      BehindIs(ps);
      var word, behind := Meaning(WordOf(ps[0])), MeaningBehind(WordsOf(ps[1..]));
      BuildOne(word, behind);
      if ps[0].gap != "" {
        BuildOne(NScalar(ps[0].gap, StringT, true), [word] + behind);
      } else {
        assert [] + ([word] + behind) == [word] + behind;
        assert ScalarsBehind(ps) == [ScalarOf(ps[0])] + ScalarsBehind(ps[1..]);
      }
    }
  }

  function TreeOf(ps: seq<Scrap>): Val
    requires ps != []
  {
    if |ps| == 1 then ScalarOf(ps[0]) else Concat([ScalarOf(ps[0])] + ScalarsBehind(ps[1..]))
  }

  lemma {:induction false} BuildsLine(fl: FloatTest, ps: seq<Scrap>)
    requires ps != [] && forall i | 0 <= i < |ps| :: ValidScrap(fl, ps[i])
    ensures Build(Meaning(WritingOf(ps))) == Some(TreeOf(ps))
  {
    BuildsWord(fl, ps[0]);
    if |ps| > 1 {
      BuildsBehind(fl, ps[1..]);
      BuildOne(Meaning(WordOf(ps[0])), MeaningBehind(WordsOf(ps[1..])));
    }
  }

  // ---------- what is resolved ----------

  /** What the pieces say behind the first: whitespace and texts, as they come. */
  function SaidBehind(ps: seq<Scrap>): string {
    if ps == [] then "" else ps[0].gap + (ps[0].text + SaidBehind(ps[1..]))
  }

  /** The text of a line, from its first piece on. */
  function Said(ps: seq<Scrap>): string
    requires ps != []
  {
    ps[0].text + SaidBehind(ps[1..])
  }

  function LineValue(ps: seq<Scrap>): (v: Val)
    requires ps != []
    ensures v.Scalar?
  {
    if |ps| == 1 then ScalarOf(ps[0]) else Text(Said(ps))
  }

  function Somes(vs: seq<Val>): (os: seq<Option<Val>>)
    ensures |os| == |vs| && forall i | 0 <= i < |vs| :: os[i] == Some(vs[i])
  {
    seq(|vs|, i requires 0 <= i < |vs| => Some(vs[i]))
  }

  lemma {:induction false} SomesConcat(a: seq<Val>, b: seq<Val>)
    ensures Somes(a + b) == Somes(a) + Somes(b)
  {
  }

  predicate Scalars(vs: seq<Val>) {
    forall i | 0 <= i < |vs| :: vs[i].Scalar?
  }

  lemma {:induction false} BehindAreScalars(ps: seq<Scrap>)
    ensures Scalars(ScalarsBehind(ps))
  {
    if ps != [] { BehindAreScalars(ps[1..]); }
  }

  /** A piece of text in front of others. */
  lemma {:induction false} JoinsOne(raw: string, typ: ScalarType, separator: bool, vs: seq<Val>, text: string)
    requires Scalars(vs) && (JoinConcat(Somes(vs)) == Ok(Text(text)) || (vs == [] && text == ""))
    ensures JoinConcat(Somes([Scalar(raw, typ, separator)] + vs)) == Ok(Text(raw + text))
  {
    var one := [Scalar(raw, typ, separator)];
    Pieces.OnePiece(raw, typ, separator);
    SomesConcat(one, vs);
    assert Somes(one) == [Some(one[0])];
    Pieces.TextSplits(Somes(one), Somes(vs));
    if vs == [] {
      assert Somes(vs) == [] && raw + "" == raw;
    }
  }

  lemma {:induction false} JoinsGap(gap: string, vs: seq<Val>, text: string)
    requires Scalars(vs) && JoinConcat(Somes(vs)) == Ok(Text(text))
    ensures var gaps := if gap != "" then [Scalar(gap, StringT, true)] else [];
            JoinConcat(Somes(gaps + vs)) == Ok(Text(gap + text))
  {
    if gap != "" {
      JoinsOne(gap, StringT, true, vs, text);
    } else {
      assert [] + vs == vs && "" + text == text;
    }
  }

  lemma {:induction false} JoinsBehind(ps: seq<Scrap>)
    requires ps != []
    ensures JoinConcat(Somes(ScalarsBehind(ps))) == Ok(Text(SaidBehind(ps)))
  {
    var v, behind := ScalarOf(ps[0]), ScalarsBehind(ps[1..]);
    BehindAreScalars(ps[1..]);
    if |ps| > 1 { JoinsBehind(ps[1..]); }
    JoinsOne(v.raw, v.typ, false, behind, SaidBehind(ps[1..]));
    JoinsGap(ps[0].gap, [v] + behind, ps[0].text + SaidBehind(ps[1..]));
  }

  lemma {:induction false} ResolvesScalars(c: Ctx, fuel: nat, vs: seq<Val>)
    requires Scalars(vs)
    ensures ResolveVal(c, fuel, Concat(vs)) == JoinConcat(Somes(vs))
  {
    forall i | 0 <= i < |vs| ensures Elements.Results(c, fuel, vs)[i] == Ok(vs[i]) { }
    Elements.ConcatPieces(c, fuel, vs, Somes(vs));
  }

  lemma {:induction false} JoinsLine(ps: seq<Scrap>)
    requires |ps| > 1
    ensures var vs := [ScalarOf(ps[0])] + ScalarsBehind(ps[1..]);
            Scalars(vs) && JoinConcat(Somes(vs)) == Ok(Text(Said(ps)))
  {
    var v, behind := ScalarOf(ps[0]), ScalarsBehind(ps[1..]);
    BehindAreScalars(ps[1..]);
    JoinsBehind(ps[1..]);
    JoinsOne(v.raw, v.typ, false, behind, SaidBehind(ps[1..]));
  }

  lemma {:induction false} ResolvesLine(c: Ctx, fuel: nat, ps: seq<Scrap>)
    requires ps != []
    ensures ResolveVal(c, fuel, TreeOf(ps)) == Ok(LineValue(ps))
  {
    if |ps| > 1 {
      JoinsLine(ps);
      ResolvesScalars(c, fuel, [ScalarOf(ps[0])] + ScalarsBehind(ps[1..]));
    }
  }

  // ---------- a document of one line ----------

  predicate EndsDocument(ts: seq<Token>) {
    ts != [] && ts[|ts| - 1].kind == TEof && Newlines(ts[..|ts| - 1])
  }

  /** Nothing but whitespace, comments and newlines up to the end. */
  predicate Trails(tail: string) {
    EndsDocument(Tokens(tail))
  }

  function DocumentText(key: Scrap, space: string, sign: char, ps: seq<Scrap>, tail: string): string {
    LineText([key]) + (space + ([sign] + (LineText(ps) + tail)))
  }

  function SignOf(sign: char, space: string): Token {
    Sign(if sign == ':' then TColon else TEquals, [sign], space)
  }

  ghost predicate Document(fl: FloatTest, key: Scrap, k: string, space: string, sign: char, ps: seq<Scrap>,
                           tail: string) {
    && ps != [] && Blank(space) && sign in [':', '='] && SpellsKey([TokenOf(key)], [k])
    && Line(fl, [key], space + ([sign] + (LineText(ps) + tail))) && Line(fl, ps, tail) && Trails(tail)
  }

  lemma {:induction false} LexesDocument(fl: FloatTest, key: Scrap, space: string, sign: char, ps: seq<Scrap>,
                                         tail: string)
    requires Blank(space) && sign in [':', '=']
    requires Line(fl, [key], space + ([sign] + (LineText(ps) + tail))) && Line(fl, ps, tail)
    ensures Tokens(DocumentText(key, space, sign, ps, tail)) ==
            [TokenOf(key)] + ([SignOf(sign, space)] + (LineTokens(ps) + Tokens(tail)))
  {
    var value := LineText(ps) + tail;
    LexesSign(space, sign, value);
    LexesLine(fl, ps, tail);
    LexesLine(fl, [key], space + ([sign] + value));
    OneToken(key);
  }

  lemma {:induction false} LexesSign(space: string, sign: char, rest: string)
    requires Blank(space) && sign in [':', '=']
    ensures Tokens(space + ([sign] + rest)) == [SignOf(sign, space)] + Tokens(rest)
  {
    StepChar(space, sign, if sign == ':' then TColon else TEquals, rest);
  }

  lemma {:induction false} OneToken(key: Scrap)
    ensures LineTokens([key]) == [TokenOf(key)]
  {
    assert [key][1..] == [] && LineTokens([key]) == [TokenOf(key)] + [];
  }

  lemma {:induction false} DocumentHead(fl: FloatTest, key: Scrap, rest: string)
    requires Line(fl, [key], rest) && key.gap == ""
    ensures LineText([key]) != "" && LineText([key])[0] != 0xFEFF as char
  {
    assert [key][1..] == [];
    assert LineText([key]) == Literal(key) by {
      assert "" + (Literal(key) + "") == Literal(key);
    }
    if key.Unquoted? { NoSign(key.text[0]); }
  }

  /** The field a line makes. */
  function MemberOf(key: Scrap, k: string, sign: Token, ps: seq<Scrap>, tail: seq<Token>): Member
    requires ps != []
  {
    Member([TokenOf(key)], [k], [], Some(sign), [], WritingOf(ps), tail)
  }

  lemma {:induction false} MemberWritten(key: Scrap, k: string, sign: Token, ps: seq<Scrap>, tail: seq<Token>,
                                         end: Token)
    requires ps != []
    ensures [] + (WrittenMembers([MemberOf(key, k, sign, ps, tail)]) + [end]) ==
            [TokenOf(key)] + ([sign] + (LineTokens(ps) + (tail + [end])))
  {
    var m := MemberOf(key, k, sign, ps, tail);
    LineWritten(ps);
    MemberTokens(m, [end]);
    AfterKeyTokens(m, tail + [end]);
    assert [m][1..] == [];
    assert WrittenMembers([m]) == WrittenMember(m) + [];
  }

  lemma {:induction false} MemberIsValid(fl: FloatTest, key: Scrap, k: string, sign: Token, ps: seq<Scrap>,
                                         rest: string, tail: seq<Token>)
    requires ps != [] && Line(fl, ps, rest) && Newlines(tail)
    requires SpellsKey([TokenOf(key)], [k]) && FieldSeparator(sign) && sign.kind != TPlusEquals
    ensures var m := MemberOf(key, k, sign, ps, tail);
            ValidMember(fl, m) && FieldOf(m) == NField([k], Meaning(WritingOf(ps)), false)
  {
    LineIsValid(fl, ps, rest);
  }

  lemma {:induction false} LexesToMember(fl: FloatTest, key: Scrap, k: string, space: string, sign: char,
                                         ps: seq<Scrap>, tail: string, init: seq<Token>, end: Token)
    requires Document(fl, key, k, space, sign, ps, tail) && Tokens(tail) == init + [end]
    ensures Tokens(DocumentText(key, space, sign, ps, tail)) ==
            [] + (WrittenMembers([MemberOf(key, k, SignOf(sign, space), ps, init)]) + [end])
  {
    LexesDocument(fl, key, space, sign, ps, tail);
    MemberWritten(key, k, SignOf(sign, space), ps, init, end);
  }

  lemma {:induction false} ParsesOneMember(fl: FloatTest, m: Member, end: Token)
    requires ValidMember(fl, m) && end.kind == TEof
    ensures ParseRoot(fl, [] + (WrittenMembers([m]) + [end])) == Done([FieldOf(m)], [end])
  {
    ParsesDocument(fl, [], [m], [end]);
    assert MeaningOfMembers([m]) == [FieldOf(m)];
  }

  lemma {:induction false} ParsesDocumentText(fl: FloatTest, key: Scrap, k: string, space: string, sign: char,
                                              ps: seq<Scrap>, tail: string, init: seq<Token>, end: Token)
    requires Document(fl, key, k, space, sign, ps, tail)
    requires Tokens(tail) == init + [end] && Newlines(init) && end.kind == TEof
    ensures ParseRoot(fl, Tokens(DocumentText(key, space, sign, ps, tail))) ==
            Done([NField([k], Meaning(WritingOf(ps)), false)], [end])
  {
    LexesToMember(fl, key, k, space, sign, ps, tail, init, end);
    MemberIsValid(fl, key, k, SignOf(sign, space), ps, tail, init);
    ParsesOneMember(fl, MemberOf(key, k, SignOf(sign, space), ps, init), end);
  }

  lemma {:induction false} TrailsSplit(tail: string) returns (init: seq<Token>, end: Token)
    requires Trails(tail)
    ensures Tokens(tail) == init + [end] && Newlines(init) && end.kind == TEof
  {
    var ts := Tokens(tail);
    init, end := ts[..|ts| - 1], ts[|ts| - 1];
  }

  /** An object of one field. */
  function One(k: string, v: Val): (o: Val)
    ensures o.Obj?
  {
    Obj([k], map[k := v], map[])
  }

  lemma {:induction false} BuildsField(k: string, n: Node, v: Val)
    requires Build(n) == Some(v)
    ensures Build(NObject([NField([k], n, false)])) == Some(One(k, v))
  {
    var fs := [NField([k], n, false)];
    assert fs[1..] == [] && [] + [k] == [k];
    assert BuildFields(fs, EMPTY_OBJ) == BuildFields([], Set(EMPTY_OBJ, k, v));
  }

  lemma {:induction false} ResolvesField(lt: LetterTest, fuel: nat, k: string, v: Val, r: Val)
    requires !v.Obj? && forall c: Ctx :: ResolveVal(c, fuel, v) == Ok(r)
    ensures ResolveTree(lt, One(k, v), fuel) == Ok(One(k, r))
  {
    var o := One(k, v);
    var c := Start(lt, o);
    assert o.keys[1..] == [] && [] + [k] == [k];
    assert ResolveVal(c.(field := c.field + [k]), fuel, v) == Ok(r);
    assert ResolveField(c, fuel, o, k) == Ok(r);
    var c' := c.(cache := c.cache[KeyOf(lt, [k]) := r]);
    assert Set(EMPTY_OBJ, k, r) == One(k, r);
    assert ResolveFields(c', fuel, o, [], true, Set(EMPTY_OBJ, k, r)) == Built(Set(EMPTY_OBJ, k, r), c'.cache);
  }

  lemma {:induction false} ReadsDocument(fl: FloatTest, key: Scrap, k: string, space: string, sign: char,
                                         ps: seq<Scrap>, tail: string)
    requires Document(fl, key, k, space, sign, ps, tail) && key.gap == ""
    ensures ReadText(fl, DocumentText(key, space, sign, ps, tail)) == Some(One(k, TreeOf(ps)))
  {
    var text := DocumentText(key, space, sign, ps, tail);
    DocumentHead(fl, key, space + ([sign] + (LineText(ps) + tail)));
    assert text[0] == LineText([key])[0];
    var init, end := TrailsSplit(tail);
    ParsesDocumentText(fl, key, k, space, sign, ps, tail, init, end);
    LineScraps(fl, ps, tail);
    BuildsLine(fl, ps);
    BuildsField(k, Meaning(WritingOf(ps)), TreeOf(ps));
  }

  lemma {:induction false} LineTreeResolves(lt: LetterTest, fuel: nat, k: string, ps: seq<Scrap>)
    requires ps != []
    ensures ResolveTree(lt, One(k, TreeOf(ps)), fuel) ==
            Ok(One(k, LineValue(ps)))
  {
    forall c: Ctx ensures ResolveVal(c, fuel, TreeOf(ps)) == Ok(LineValue(ps)) { ResolvesLine(c, fuel, ps); }
    ResolvesField(lt, fuel, k, TreeOf(ps), LineValue(ps));
  }

  /** Reading a text and resolving the tree. */
  function Outcome(lt: LetterTest, fuel: nat, fl: FloatTest, text: string): Res {
    var o := ReadText(fl, text);
    if o.Some? && o.value.Obj? then ResolveTree(lt, o.value, fuel) else Fail
  }

  /** A line of text comes to the text as written: the pieces and the whitespace
      between them, that in front of the first and behind the last aside. */
  lemma {:induction false} LineComesTo(lt: LetterTest, fuel: nat, fl: FloatTest, key: Scrap, k: string, space: string,
                                       sign: char, ps: seq<Scrap>, tail: string)
    requires Document(fl, key, k, space, sign, ps, tail) && key.gap == ""
    ensures Outcome(lt, fuel, fl, DocumentText(key, space, sign, ps, tail)) == Ok(One(k, LineValue(ps)))
  {
    ReadsDocument(fl, key, k, space, sign, ps, tail);
    LineTreeResolves(lt, fuel, k, ps);
  }

  // ---------- text without quotes ----------

  lemma {:induction false} BehindAsWritten(ps: seq<Scrap>)
    requires forall i | 0 <= i < |ps| :: !ps[i].InQuotes?
    ensures SaidBehind(ps) == LineText(ps)
  {
    if ps != [] { BehindAsWritten(ps[1..]); }
  }

  /** Without quotes the text is what stands on the line. */
  lemma {:induction false} SaidAsWritten(ps: seq<Scrap>)
    requires ps != [] && forall i | 0 <= i < |ps| :: !ps[i].InQuotes?
    ensures LineText(ps) == ps[0].gap + Said(ps) && LineValue(ps).raw == Said(ps)
  {
    BehindAsWritten(ps[1..]);
    if |ps| == 1 { assert ps[0].text + "" == ps[0].text; }
  }

  predicate WordStart(s: string, i: nat)
    requires i < |s|
  {
    (i == 0 || IsSpace(s[i - 1])) && !IsSpace(s[i])
  }

  function SpaceLength(s: string): (n: nat)
    ensures n <= |s| && (forall i | 0 <= i < n :: IsSpace(s[i])) && (n < |s| ==> !IsSpace(s[n]))
  {
    if s != "" && IsSpace(s[0]) then 1 + SpaceLength(s[1..]) else 0
  }

  function WordLength(s: string): (n: nat)
    ensures n <= |s| && (forall i | 0 <= i < n :: !IsSpace(s[i])) && (n < |s| ==> IsSpace(s[n]))
  {
    if s != "" && !IsSpace(s[0]) then 1 + WordLength(s[1..]) else 0
  }

  predicate ProseChar(c: char) {
    c != '\n' && (IsSpace(c) || !IsForbidden(c))
  }

  predicate NoNumbers(s: string) {
    forall i | 0 <= i < |s| && WordStart(s, i) :: !(s[i] == '-' || IsDigit(s[i]))
  }

  /** Words without a forbidden character, none of them beginning like a number, and
      any whitespace between them. */
  predicate Prose(s: string) {
    && (forall i | 0 <= i < |s| :: ProseChar(s[i])) && NoComment(s) && NoNumbers(s)
    && (s != "" ==> !IsSpace(s[|s| - 1]))
  }

  lemma {:induction false} NoNumbersTail(s: string, n: nat)
    requires NoNumbers(s) && n <= |s| && (n < |s| ==> n == 0 || IsSpace(s[n - 1]) || IsSpace(s[n]))
    ensures NoNumbers(s[n..])
  {
    var t := s[n..];
    forall i | 0 <= i < |t| && WordStart(t, i) ensures !(t[i] == '-' || IsDigit(t[i])) {
      if i > 0 { assert t[i - 1] == s[n + i - 1]; }
      assert t[i] == s[n + i] && WordStart(s, n + i);
    }
  }

  lemma {:induction false} ProseTail(s: string, n: nat)
    requires Prose(s) && n <= |s| && (n < |s| ==> n == 0 || IsSpace(s[n - 1]) || IsSpace(s[n]))
    ensures Prose(s[n..])
  {
    NoCommentTail(s, n);
    NoNumbersTail(s, n);
    forall i | 0 <= i < |s[n..]| ensures ProseChar(s[n..][i]) { assert s[n..][i] == s[n + i]; }
  }

  lemma {:induction false} FirstWordIsBare(t: string)
    requires Prose(t) && t != "" && !IsSpace(t[0])
    ensures Bare(t[..WordLength(t)])
  {
    var n := WordLength(t);
    assert WordStart(t, 0) && n > 0;
    forall i | 0 <= i < |t[..n]| - 1 ensures !(t[..n][i] == '/' && t[..n][i + 1] == '/') {
      assert t[..n][i] == t[i] && t[..n][i + 1] == t[i + 1];
    }
  }

  lemma {:induction false} WordStaysApart(t: string, n: nat, tail: string)
    requires n <= |t| && (n < |t| ==> IsSpace(t[n])) && Ends(tail)
    ensures Ends(t[n..] + tail)
  {
    if n == |t| { assert t[n..] + tail == tail; }
  }

  lemma {:induction false} OneScrapMore(fl: FloatTest, gap: string, word: string, more: seq<Scrap>, tail: string)
    requires Blank(gap) && Bare(word) && Line(fl, more, tail) && Ends(LineText(more) + tail)
    ensures var ps := [Unquoted(gap, word)] + more;
            Line(fl, ps, tail) && LineText(ps) == gap + (word + LineText(more))
  {
    var ps := [Unquoted(gap, word)] + more;
    assert ps[1..] == more && ps[0] == Unquoted(gap, word);
  }

  lemma {:induction false} GapOfProse(s: string)
    requires Prose(s) && s != ""
    ensures var g := SpaceLength(s); g < |s| && Blank(s[..g]) && Prose(s[g..]) && !IsSpace(s[g..][0])
  {
    var g := SpaceLength(s);
    if g < |s| { ProseTail(s, g); }
    forall i | 0 <= i < g ensures IsSpace(s[..g][i]) && s[..g][i] != '\n' { assert ProseChar(s[i]); }
  }

  lemma {:induction false} WordOfProse(t: string, tail: string)
    requires Prose(t) && t != "" && !IsSpace(t[0]) && Ends(tail)
    ensures var w := WordLength(t); w > 0 && Bare(t[..w]) && Ends(t[w..] + tail) && Prose(t[w..])
  {
    FirstWordIsBare(t);
    ProseTail(t, WordLength(t));
    WordStaysApart(t, WordLength(t), tail);
  }

  lemma {:induction false} CutTwice(s: string, g: nat, w: nat)
    requires g <= |s| && w <= |s[g..]|
    ensures s == s[..g] + (s[g..][..w] + s[g..][w..])
  {
  }

  lemma {:induction false} NoSpaceAhead(s: string)
    requires s != "" && !IsSpace(s[0])
    ensures s[..SpaceLength(s)] == ""
  {
  }

  /** The first word, and the whitespace in front of it. */
  lemma {:induction false} FirstScrap(s: string, tail: string) returns (gap: string, word: string, rest: string)
    requires Prose(s) && s != "" && Ends(tail)
    ensures s == gap + (word + rest) && Blank(gap) && Bare(word) && Prose(rest) && Ends(rest + tail)
    ensures !IsSpace(s[0]) ==> gap == ""
  {
    var g := SpaceLength(s);
    GapOfProse(s);
    if !IsSpace(s[0]) { NoSpaceAhead(s); }
    var t := s[g..];
    WordOfProse(t, tail);
    var w := WordLength(t);
    CutTwice(s, g, w);
    gap, word, rest := s[..g], t[..w], t[w..];
  }

  lemma {:induction false} CutsProse(fl: FloatTest, s: string, tail: string) returns (ps: seq<Scrap>)
    requires Prose(s) && Ends(tail)
    ensures Line(fl, ps, tail) && LineText(ps) == s && (s != "" ==> ps != [] && (!IsSpace(s[0]) ==> ps[0].gap == ""))
    ensures forall i | 0 <= i < |ps| :: !ps[i].InQuotes?
    decreases |s|
  {
    if s == "" {
      ps := [];
    } else {
      var gap, word, rest := FirstScrap(s, tail);
      var more := CutsProse(fl, rest, tail);
      OneScrapMore(fl, gap, word, more, tail);
      ps := [Unquoted(gap, word)] + more;
    }
  }

  lemma {:induction false} QuotedKey(fl: FloatTest, k: string, rest: string)
    requires !StartsWithQuote(rest)
    ensures Line(fl, [InQuotes("", k)], rest) && LineText([InQuotes("", k)]) == QuoteString(k)
    ensures SpellsKey([TokenOf(InQuotes("", k))], [k])
  {
    var ps := [InQuotes("", k)];
    assert ps[1..] == [] && LineText(ps[1..]) == "" && "" + rest == rest;
    assert QuoteString(k) + "" == QuoteString(k) && "" + QuoteString(k) == QuoteString(k);
  }

  lemma {:induction false} Spaced(fl: FloatTest, gap: string, ps: seq<Scrap>, tail: string)
    requires ps != [] && ps[0].gap == "" && Line(fl, ps, tail) && Blank(gap)
    ensures var spaced := [ps[0].(gap := gap)] + ps[1..];
            && Line(fl, spaced, tail) && LineText(spaced) + tail == gap + (LineText(ps) + tail)
            && Said(spaced) == Said(ps)
  {
    var spaced := [ps[0].(gap := gap)] + ps[1..];
    assert spaced[1..] == ps[1..];
    assert "" + (Literal(ps[0]) + LineText(ps[1..])) == Literal(ps[0]) + LineText(ps[1..]);
    Assoc(gap, LineText(ps), tail);
  }

  function Assignment(k: string, space: string, sign: char, value: string): string {
    QuoteString(k) + (space + ([sign] + value))
  }

  lemma {:induction false} NoQuoteAhead(space: string, sign: char, value: string)
    requires Blank(space) && sign in [':', '=']
    ensures !StartsWithQuote(space + ([sign] + value))
  {
    if space == "" { assert space + ([sign] + value) == [sign] + value; }
  }

  lemma {:induction false} ProseDocument(fl: FloatTest, k: string, space: string, sign: char, ps: seq<Scrap>,
                                         tail: string)
    requires ps != [] && Line(fl, ps, tail) && Blank(space) && sign in [':', '='] && Trails(tail)
    ensures Document(fl, InQuotes("", k), k, space, sign, ps, tail)
    ensures DocumentText(InQuotes("", k), space, sign, ps, tail) == Assignment(k, space, sign, LineText(ps) + tail)
  {
    NoQuoteAhead(space, sign, LineText(ps) + tail);
    QuotedKey(fl, k, space + ([sign] + (LineText(ps) + tail)));
  }

  lemma {:induction false} AssignmentComesTo(lt: LetterTest, fuel: nat, fl: FloatTest, k: string, space: string,
                                             sign: char, ps: seq<Scrap>, tail: string, value: string)
    requires ps != [] && Line(fl, ps, tail) && Blank(space) && sign in [':', '='] && Trails(tail)
    requires value == LineText(ps) + tail
    ensures Outcome(lt, fuel, fl, Assignment(k, space, sign, value)) == Ok(One(k, LineValue(ps)))
  {
    ProseDocument(fl, k, space, sign, ps, tail);
    LineComesTo(lt, fuel, fl, InQuotes("", k), k, space, sign, ps, tail);
  }

  /** The pieces of the text, whitespace in front of it. */
  lemma {:induction false} ProseLine(fl: FloatTest, gap: string, s: string, tail: string) returns (ps: seq<Scrap>)
    requires Prose(s) && s != "" && !IsSpace(s[0]) && Ends(tail) && Blank(gap)
    ensures ps != [] && Line(fl, ps, tail) && LineText(ps) + tail == gap + (s + tail) && LineValue(ps).raw == s
  {
    var cut := CutsProse(fl, s, tail);
    ps := [cut[0].(gap := gap)] + cut[1..];
    SaidAsWritten(cut);
    SaidAsWritten(ps);
    Spaced(fl, gap, cut, tail);
  }

  /** Words and whitespace behind a key come to the text as it stands there. */
  lemma {:induction false} ProseComesToItself(lt: LetterTest, fuel: nat, fl: FloatTest, k: string, space: string,
                                              sign: char, gap: string, s: string, tail: string)
    returns (v: Val)
    requires Prose(s) && s != "" && !IsSpace(s[0]) && Ends(tail) && Trails(tail)
    requires Blank(space) && sign in [':', '='] && Blank(gap)
    ensures v.Scalar? && v.raw == s
    ensures Outcome(lt, fuel, fl, Assignment(k, space, sign, gap + (s + tail))) == Ok(One(k, v))
  {
    var ps := ProseLine(fl, gap, s, tail);
    AssignmentComesTo(lt, fuel, fl, k, space, sign, ps, tail, gap + (s + tail));
    v := LineValue(ps);
  }

  // ---------- what may stand behind a line ----------

  lemma {:induction false} OneTokenMore(t: Token, ts: seq<Token>)
    requires t.kind == TNewline && EndsDocument(ts)
    ensures EndsDocument([t] + ts)
  {
    var all := [t] + ts;
    assert all[..|all| - 1] == [t] + ts[..|ts| - 1];
  }

  /** Whitespace, and a newline with more of the kind. */
  lemma {:induction false} NewlineTrails(ws: string, tail: string)
    requires Blank(ws) && Trails(tail)
    ensures Trails(ws + ("\n" + tail)) && Ends(ws + ("\n" + tail))
  {
    assert ("\n" + tail)[1..] == tail;
    Step(ws, "\n" + tail, NL, tail);
    OneTokenMore(NL.(space := ws), Tokens(tail));
    if ws == "" { assert ws + ("\n" + tail) == "\n" + tail; }
  }

  /** The end, whatever whitespace stands in front of it. */
  lemma {:induction false} EndTrails(ws: string)
    requires Blank(ws)
    ensures Trails(ws) && Ends(ws)
  {
    SkipsToEnd(ws);
    assert Next(ws).tok.kind == TEof && Tokens(ws) == [Next(ws).tok];
    assert Tokens(ws)[..0] == [];
  }

  lemma {:induction false} SkipsToEnd(ws: string)
    requires Blank(ws)
    ensures Skip(ws) == Skipped(ws, "")
  {
    if ws != "" {
      SkipsToEnd(ws[1..]);
      assert ws == [ws[0]] + ws[1..];
    }
  }

  // ---------- comments ----------

  predicate CommentSign(s: string) {
    s == "#" || s == "//"
  }

  lemma {:induction false} DropsLine(text: string, rest: string)
    requires '\n' !in text && (rest == "" || rest[0] == '\n')
    ensures DropLine(text + rest) == rest
  {
    if text == "" {
      assert text + rest == rest;
    } else {
      assert (text + rest)[1..] == text[1..] + rest;
      DropsLine(text[1..], rest);
    }
  }

  lemma {:induction false} SkipsSign(sign: string, text: string, rest: string)
    requires CommentSign(sign) && '\n' !in text && (rest == "" || rest[0] == '\n')
    ensures Skip(sign + (text + rest)) == Skipped("", rest)
  {
    var all, more := sign + (text + rest), sign[1..] + text;
    assert StartsComment(all) && !IsSpace('#') && !IsSpace('/');
    assert all[1..] == more + rest;
    DropsLine(more, rest);
  }

  lemma {:induction false} SkipsComment(ws: string, sign: string, text: string, rest: string)
    requires Blank(ws) && CommentSign(sign) && '\n' !in text && (rest == "" || rest[0] == '\n')
    ensures Skip(ws + (sign + (text + rest))) == Skipped(ws, rest)
  {
    var all := sign + (text + rest);
    SkipsSign(sign, text, rest);
    if ws == "" {
      assert ws + all == all;
    } else {
      assert (ws + all)[1..] == ws[1..] + all && (ws + all)[0] == ws[0];
      SkipsComment(ws[1..], sign, text, rest);
      assert ws == [ws[0]] + ws[1..];
    }
  }

  /** A comment is skipped up to the end of its line. */
  lemma {:induction false} CommentTrails(ws: string, sign: string, text: string, rest: string)
    requires Blank(ws) && CommentSign(sign) && '\n' !in text && (rest == "" || rest[0] == '\n')
    ensures var all := ws + (sign + (text + rest));
            && Tokens(all)[0] == Next(rest).tok.(space := ws) && (Trails(rest) <==> Trails(all))
  {
    var all := ws + (sign + (text + rest));
    SkipsComment(ws, sign, text, rest);
    assert Skip(rest) == Skipped("", rest);
    var l := NextToken(rest);
    var t := l.tok.(space := ws);
    assert Next(all) == l.(tok := t) && Next(rest) == l.(tok := l.tok.(space := ""));
    TokensFrom(all);
    TokensFrom(rest);
    SameTail(all, rest);
  }

  lemma {:induction false} TokensFrom(s: string)
    ensures Tokens(s) == [Next(s).tok] + if Last(Next(s).tok) then [] else Tokens(Next(s).rest)
  {
  }

  lemma {:induction false} SameKinds(a: Token, b: Token, more: seq<Token>)
    requires a.kind == b.kind
    ensures EndsDocument([a] + more) <==> EndsDocument([b] + more)
  {
    var x, y := [a] + more, [b] + more;
    assert |x| == |y| && forall i | 0 <= i < |x| :: x[i].kind == y[i].kind;
    assert forall i | 0 <= i < |x| - 1 :: x[..|x| - 1][i] == x[i] && y[..|y| - 1][i] == y[i];
  }

  lemma {:induction false} SameTail(a: string, b: string)
    requires Next(a).rest == Next(b).rest && Next(a).tok.kind == Next(b).tok.kind
    ensures Trails(a) <==> Trails(b)
  {
    TokensFrom(a);
    TokensFrom(b);
    SameKinds(Next(a).tok, Next(b).tok, if Last(Next(a).tok) then [] else Tokens(Next(a).rest));
  }
}
