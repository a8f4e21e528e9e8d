/**
 The parser, the specification (internal/parser/parser.go): what a token list is
 parsed to.  Include directives, substitutions, keys that go on over a dot or a
 space, and a braced root are outside this model; a list that reaches one of them
 is answered with Outside.
 */
module Parsing {
  import opened Paths
  import opened Values
  import opened Lexing
  import Decimals
  import Units

  datatype Node =
    | NScalar(raw: string, typ: ScalarType, separator: bool)
    | NArray(elems: seq<Node>)
    | NObject(fields: seq<NField>)
    | NConcat(nodes: seq<Node>)

  datatype NField = NField(key: seq<string>, value: Node, append: bool)

  datatype Parse<+T> = Done(value: T, rest: seq<Token>) | Rejected | Outside

  /** Which float texts strconv.ParseFloat accepts. */
  type FloatTest = string -> bool

  function Head(ts: seq<Token>): Token {
    if ts == [] then Token(TEof, "", false, "") else ts[0]
  }

  function SkipNewlines(ts: seq<Token>): (r: seq<Token>)
    ensures |r| <= |ts| && Head(r).kind != TNewline
  {
    if Head(ts).kind == TNewline then SkipNewlines(ts[1..]) else ts
  }

  function SkipSeparator(ts: seq<Token>): (r: seq<Token>)
    ensures |r| <= |ts|
  {
    var r := SkipNewlines(ts);
    if Head(r).kind == TComma then SkipNewlines(r[1..]) else r
  }

  // ---------- keys ----------

  /** The non-empty pieces; only a leading piece behind another segment and the
      last piece may be empty. */
  function KeepSegments(pieces: seq<string>, skipFirst: bool): Option<seq<string>> {
    if pieces == [] then Some([])
    else if pieces[0] == "" && !skipFirst && |pieces| > 1 then None
    else
      var rest := KeepSegments(pieces[1..], false);
      if rest.None? then None else Some((if pieces[0] == "" then [] else [pieces[0]]) + rest.value)
  }

  function SplitKeySegments(raw: string, havePrev: bool): Option<seq<string>> {
    KeepSegments(SplitDots(raw), havePrev)
  }

  predicate StartsKey(kind: Kind) {
    kind == TString || kind == TInt || kind == TFloat || kind == TBool || kind == TNull
  }

  predicate ContinuesKey(kind: Kind) {
    StartsKey(kind) || kind == TInclude
  }

  predicate StartsWithDot(s: string) {
    s != "" && s[0] == '.'
  }

  predicate EndsWithDot(s: string) {
    s != "" && s[|s| - 1] == '.'
  }

  /** A token that goes on with a number in front of it. */
  predicate IsTail(t: Token) {
    ContinuesKey(t.kind) && !(t.kind == TString && t.quoted) && t.space == "" && !StartsWithDot(t.value)
  }

  function ParseTails(parts: seq<string>, ts: seq<Token>): (r: Parse<seq<string>>)
    ensures r.Done? ==> |r.rest| <= |ts|
    decreases |ts|
  {
    if parts == [] || !IsTail(Head(ts)) then Done(parts, ts)
    else
      var init, tail := parts[..|parts| - 1], ts[0].value;
      var more := SplitKeySegments(parts[|parts| - 1] + tail, init != []);
      if more.None? then Rejected
      else if EndsWithDot(tail) then Outside
      else ParseTails(init + more.value, ts[1..])
  }

  /** What may follow a key. */
  function EndKey(parts: seq<string>, ts: seq<Token>): (r: Parse<seq<string>>)
    ensures r.Done? ==> r.rest == ts
  {
    var t := Head(ts);
    if t.kind == TString && !t.quoted && StartsWithDot(t.value) then Outside
    else if t.space != "" && ContinuesKey(t.kind) then Outside
    else if parts == [] then Rejected
    else Done(parts, ts)
  }

  function ParseKey(ts: seq<Token>): (r: Parse<seq<string>>)
    ensures r.Done? ==> |r.rest| < |ts|
  {
    var t := Head(ts);
    if t.kind == TOutside then Outside
    else if !StartsKey(t.kind) then Rejected
    else if t.quoted then EndKey([t.value], ts[1..])
    else
      var parts := SplitKeySegments(t.value, false);
      if parts.None? then Rejected
      else if EndsWithDot(t.value) then Outside
      else if t.kind != TInt && t.kind != TFloat then EndKey(parts.value, ts[1..])
      else
        var tails := ParseTails(parts.value, ts[1..]);
        if tails.Done? then EndKey(tails.value, tails.rest) else tails
  }

  // ---------- values ----------

  predicate EndsValue(kind: Kind) {
    kind == TNewline || kind == TEof || kind == TComma || kind == TRBrace || kind == TRBracket
  }

  /** strconv.ParseInt with 64 bits on an integer token. */
  predicate IntOk(raw: string) {
    Units.IsInteger(raw) && Decimals.InInt64(Units.IntegerOf(raw))
  }

  function ParseFields(fl: FloatTest, ts: seq<Token>, braced: bool): (r: Parse<seq<NField>>)
    ensures r.Done? ==> |r.rest| <= |ts|
    decreases |ts|, 4
  {
    var s := SkipNewlines(ts);
    var t := Head(s);
    if braced && t.kind == TRBrace then Done([], s[1..])
    else if t.kind == TEof then if braced then Rejected else Done([], s)
    else if t.kind == TInclude then Outside
    else
      match ParseField(fl, s)
      case Rejected => Rejected
      case Outside => Outside
      case Done(f, rest) =>
        var more := ParseFields(fl, SkipSeparator(rest), braced);
        if more.Done? then Done([f] + more.value, more.rest) else more
  }

  function ParseField(fl: FloatTest, ts: seq<Token>): (r: Parse<NField>)
    ensures r.Done? ==> |r.rest| < |ts|
    decreases |ts|, 3
  {
    match ParseKey(ts)
    case Rejected => Rejected
    case Outside => Outside
    case Done(key, rest) =>
      if key != [] && key[0] == "include" && !ts[0].quoted && ts[0].kind == TString then Rejected
      else ParseAfterKey(fl, key, rest)
  }

  /** The separator and the value of a field. */
  function ParseAfterKey(fl: FloatTest, key: seq<string>, ts: seq<Token>): (r: Parse<NField>)
    ensures r.Done? ==> |r.rest| < |ts|
    decreases |ts|, 3
  {
    var s := SkipNewlines(ts);
    var sep := Head(s).kind;
    if sep == TOutside then Outside
    else if sep != TColon && sep != TEquals && sep != TPlusEquals && sep != TLBrace then Rejected
    else
      match ParseValue(fl, if sep == TLBrace then s else s[1..])
      case Rejected => Rejected
      case Outside => Outside
      case Done(v, after) => Done(NField(key, v, sep == TPlusEquals), after)
  }

  function ParseValue(fl: FloatTest, ts: seq<Token>): (r: Parse<Node>)
    ensures r.Done? ==> |r.rest| < |ts|
    decreases |ts|, 2
  {
    match ParseSingle(fl, SkipNewlines(ts))
    case Rejected => Rejected
    case Outside => Outside
    case Done(first, rest) =>
      match ParseMore(fl, [first], rest)
      case Rejected => Rejected
      case Outside => Outside
      case Done(nodes, after) => Done(if |nodes| == 1 then nodes[0] else NConcat(nodes), after)
  }

  /** The further pieces of a concatenation, with the whitespace between them. */
  function ParseMore(fl: FloatTest, nodes: seq<Node>, ts: seq<Token>): (r: Parse<seq<Node>>)
    ensures r.Done? ==> |r.rest| <= |ts|
    decreases |ts|, 1
  {
    var t := Head(ts);
    if EndsValue(t.kind) then Done(nodes, ts)
    else
      match ParseSingle(fl, ts)
      case Rejected => Rejected
      case Outside => Outside
      case Done(next, rest) =>
        var sep := if t.space != "" then [NScalar(t.space, StringT, true)] else [];
        ParseMore(fl, nodes + sep + [next], rest)
  }

  function ParseSingle(fl: FloatTest, ts: seq<Token>): (r: Parse<Node>)
    ensures r.Done? ==> |r.rest| < |ts|
    decreases |ts|, 0
  {
    var t := Head(ts);
    match t.kind
    case TLBrace =>
      (match ParseFields(fl, ts[1..], true)
       case Rejected => Rejected
       case Outside => Outside
       case Done(fields, rest) => Done(NObject(fields), rest))
    case TLBracket =>
      (match ParseElements(fl, ts[1..])
       case Rejected => Rejected
       case Outside => Outside
       case Done(elems, rest) => Done(NArray(elems), rest))
    case TString => Done(NScalar(t.value, StringT, false), ts[1..])
    case TInclude => Done(NScalar("include", StringT, false), ts[1..])
    case TInt => if IntOk(t.value) then Done(NScalar(t.value, NumberT, false), ts[1..]) else Rejected
    case TFloat => if fl(t.value) then Done(NScalar(t.value, NumberT, false), ts[1..]) else Rejected
    case TBool => Done(NScalar(t.value, BooleanT, false), ts[1..])
    case TNull => Done(NScalar("null", NullT, false), ts[1..])
    case TOutside => Outside
    case _ => Rejected
  }

  /** parseArray, behind the opening bracket. */
  function ParseElements(fl: FloatTest, ts: seq<Token>): (r: Parse<seq<Node>>)
    ensures r.Done? ==> |r.rest| <= |ts|
    decreases |ts|, 3
  {
    var s := SkipNewlines(ts);
    var t := Head(s);
    if t.kind == TRBracket then Done([], s[1..])
    else if t.kind == TEof then Rejected
    else
      match ParseValue(fl, s)
      case Rejected => Rejected
      case Outside => Outside
      case Done(e, rest) =>
        var more := ParseElements(fl, SkipSeparator(rest));
        if more.Done? then Done([e] + more.value, more.rest) else more
  }

  function ParseRoot(fl: FloatTest, ts: seq<Token>): Parse<seq<NField>> {
    var s := SkipNewlines(ts);
    if Head(s).kind == TLBracket then Rejected
    else if Head(s).kind == TLBrace then Outside
    else ParseFields(fl, s, false)
  }

  // ---------- from syntax to the value tree ----------

  /** resolveNode on syntax without substitutions, where no object assigns a key
      twice; None elsewhere. */
  function Build(n: Node): Option<Val>
    decreases n, 1
  {
    match n
    case NScalar(raw, typ, separator) => Some(Scalar(raw, typ, separator))
    case NArray(es) => var vs := BuildAll(es); if vs.None? then None else Some(Arr(vs.value))
    case NConcat(ns) => var vs := BuildAll(ns); if vs.None? then None else Some(Concat(vs.value))
    case NObject(fields) => BuildFields(fields, EMPTY_OBJ)
  }

  function BuildAll(ns: seq<Node>): Option<seq<Val>>
    decreases ns, 0
  {
    if ns == [] then Some([])
    else
      var v, rest := Build(ns[0]), BuildAll(ns[1..]);
      if v.None? || rest.None? then None else Some([v.value] + rest.value)
  }

  function BuildFields(fields: seq<NField>, acc: Val): Option<Val>
    requires acc.Obj?
    decreases fields, 0
  {
    if fields == [] then Some(acc)
    else
      var f := fields[0];
      var v := Build(f.value);
      if |f.key| != 1 || f.append || v.None? || f.key[0] in acc.vals then None
      else BuildFields(fields[1..], Set(acc, f.key[0], v.value))
  }

  /** The value tree of a text. */
  function ReadText(fl: FloatTest, text: string): Option<Val> {
    match ParseRoot(fl, TokensOfText(text))
    case Done(fields, _) => Build(NObject(fields))
    case _ => None
  }
}
