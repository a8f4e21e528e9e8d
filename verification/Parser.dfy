/**
 The parser of the source: one token in hand, the lexer behind it.  Every method
 answers what the specification says of the tokens still to come and leaves those
 behind its syntax.
 */
module Parser {
  import opened Paths
  import opened Values
  import opened Lexing
  import opened Parsing
  import Lexer

  datatype Answer<+T> = Got(value: T) | Refused | Beyond

  class Parser {
    const lex: Lexer.Lexer
    const fl: FloatTest
    var current: Token

    ghost predicate Valid()
      reads this, lex
    {
      lex.Valid()
    }

    /** The tokens still to come, the one in hand first. */
    ghost function Stream(): seq<Token>
      reads this, lex
      requires Valid()
    {
      [current] + if Last(current) then [] else Tokens(lex.Left())
    }

    ghost predicate Agrees<T>(r: Answer<T>, p: Parse<T>)
      reads this, lex
      requires Valid()
    {
      match p
      case Done(v, rest) => r == Got(v) && Stream() == rest
      case Rejected => r == Refused
      case Outside => r == Beyond
    }

    constructor (text: string, fl: FloatTest)
      ensures Valid() && fresh(lex) && this.fl == fl && Stream() == TokensOfText(text)
    {
      var l := new Lexer.Lexer(text);
      var t := l.NextOne();
      this.lex := l;
      this.fl := fl;
      this.current := t;
    }

    method Advance()
      requires Valid() && !Last(current)
      modifies this`current, lex
      ensures Valid() && Stream() == old(Stream())[1..]
    {
      ghost var all := Stream();
      assert all[1..] == Tokens(lex.Left());
      current := lex.NextOne();
    }

    method SkipNewlines()
      requires Valid()
      modifies this`current, lex
      ensures Valid() && Stream() == Parsing.SkipNewlines(old(Stream()))
    {
      while current.kind == TNewline
        invariant Valid()
        invariant Parsing.SkipNewlines(Stream()) == Parsing.SkipNewlines(old(Stream()))
        decreases |Stream()|
      {
        Advance();
      }
    }

    method SkipSeparator()
      requires Valid()
      modifies this`current, lex
      ensures Valid() && Stream() == Parsing.SkipSeparator(old(Stream()))
    {
      SkipNewlines();
      if current.kind == TComma {
        Advance();
        SkipNewlines();
      }
    }

    // ---------- keys ----------

    method ParseKey() returns (r: Answer<seq<string>>)
      requires Valid()
      modifies this`current, lex
      ensures Valid() && Agrees(r, Parsing.ParseKey(old(Stream())))
    {
      var t := current;
      if t.kind == TOutside {
        return Beyond;
      }
      if !StartsKey(t.kind) {
        return Refused;
      }
      Advance();
      if t.quoted {
        r := FinishKey([t.value]);
        return;
      }
      var parts := SplitKeySegments(t.value, false);
      if parts.None? {
        return Refused;
      }
      if EndsWithDot(t.value) {
        return Beyond;
      }
      if t.kind == TInt || t.kind == TFloat {
        var tails := ParseTails(parts.value);
        if !tails.Got? {
          return tails;
        }
        r := FinishKey(tails.value);
      } else {
        r := FinishKey(parts.value);
      }
    }

    /** The checks behind a key; no token is consumed. */
    method FinishKey(parts: seq<string>) returns (r: Answer<seq<string>>)
      requires Valid()
      ensures Agrees(r, EndKey(parts, Stream()))
    {
      if current.kind == TString && !current.quoted && StartsWithDot(current.value) {
        return Beyond;
      }
      if current.space != "" && ContinuesKey(current.kind) {
        return Beyond;
      }
      return if parts == [] then Refused else Got(parts);
    }

    /** The loop that joins adjacent tokens to a number. */
    method ParseTails(first: seq<string>) returns (r: Answer<seq<string>>)
      requires Valid()
      modifies this`current, lex
      ensures Valid() && Agrees(r, Parsing.ParseTails(first, old(Stream())))
    {
      var parts := first;
      while parts != [] && IsTail(current)
        invariant Valid()
        invariant Parsing.ParseTails(parts, Stream()) == Parsing.ParseTails(first, old(Stream()))
        decreases |Stream()|
      {
        var tail := current.value;
        Advance();
        var merged := parts[|parts| - 1] + tail;
        parts := parts[..|parts| - 1];
        var mergedParts := SplitKeySegments(merged, parts != []);
        if mergedParts.None? {
          return Refused;
        }
        if EndsWithDot(tail) {
          return Beyond;
        }
        parts := parts + mergedParts.value;
      }
      return Got(parts);
    }

    // ---------- objects, arrays, values ----------

    method ParseObjectFields(braced: bool) returns (r: Answer<seq<NField>>)
      requires Valid()
      modifies this`current, lex
      ensures Valid() && Agrees(r, ParseFields(fl, old(Stream()), braced))
      decreases |Stream()|, 4
    {
      var fields: seq<NField> := [];
      ghost var ts := Stream();
      ghost var all := ParseFields(fl, ts, braced);
      assert all.Done? ==> [] + all.value == all.value;
      while true
        invariant Valid() && |Stream()| <= |ts|
        invariant ParseFields(fl, ts, braced) == Behind(fields, ParseFields(fl, Stream(), braced))
        decreases |Stream()|
      {
        ghost var before := Stream();
        SkipNewlines();
        ghost var s := Stream();
        if braced && current.kind == TRBrace {
          Advance();
          assert fields + [] == fields;
          return Got(fields);
        }
        if current.kind == TEof {
          assert fields + [] == fields;
          return if braced then Refused else Got(fields);
        }
        if current.kind == TInclude {
          return Beyond;
        }
        var field := ParseOneField();
        match field {
          case Refused => return Refused;
          case Beyond => return Beyond;
          case Got(f) =>
            SkipSeparator();
            FieldsTurn(fl, before, s, braced, f, Stream(), fields);
            fields := fields + [f];
        }
      }
    }

    method ParseOneField() returns (r: Answer<NField>)
      requires Valid()
      modifies this`current, lex
      ensures Valid() && Agrees(r, ParseField(fl, old(Stream())))
      decreases |Stream()|, 3
    {
      var firstIsQuoted, firstKind := current.quoted, current.kind;
      var key := ParseKey();
      match key {
        case Refused => return Refused;
        case Beyond => return Beyond;
        case Got(_) =>
      }
      if key.value != [] && key.value[0] == "include" && !firstIsQuoted && firstKind == TString {
        return Refused;
      }
      r := ParseFieldValue(key.value);
    }

    /** The separator and the value of a field. */
    method ParseFieldValue(key: seq<string>) returns (r: Answer<NField>)
      requires Valid()
      modifies this`current, lex
      ensures Valid() && Agrees(r, ParseAfterKey(fl, key, old(Stream())))
      decreases |Stream()|, 3
    {
      SkipNewlines();
      var sep := current.kind;
      if sep == TOutside {
        return Beyond;
      }
      if sep == TColon || sep == TEquals || sep == TPlusEquals {
        Advance();
      } else if sep != TLBrace {
        return Refused;
      }
      var value := ParseValueNode();
      match value {
        case Refused => return Refused;
        case Beyond => return Beyond;
        case Got(v) => return Got(NField(key, v, sep == TPlusEquals));
      }
    }

    method ParseValueNode() returns (r: Answer<Node>)
      requires Valid()
      modifies this`current, lex
      ensures Valid() && Agrees(r, ParseValue(fl, old(Stream())))
      decreases |Stream()|, 2
    {
      SkipNewlines();
      var first := ParseSingleValue();
      match first {
        case Refused => return Refused;
        case Beyond => return Beyond;
        case Got(_) =>
      }
      var nodes := [first.value];
      ghost var more := ParseMore(fl, nodes, Stream());
      while !EndsValue(current.kind)
        invariant Valid() && |Stream()| < |old(Stream())| && nodes != []
        invariant ParseMore(fl, nodes, Stream()) == more
        decreases |Stream()|
      {
        var precedingWS := current.space;
        var next := ParseSingleValue();
        match next {
          case Refused => return Refused;
          case Beyond => return Beyond;
          case Got(n) =>
            if precedingWS != "" {
              nodes := nodes + [NScalar(precedingWS, StringT, true)] + [n];
            } else {
              assert nodes + [] == nodes;
              nodes := nodes + [n];
            }
        }
      }
      return Got(if |nodes| == 1 then nodes[0] else NConcat(nodes));
    }

    method ParseSingleValue() returns (r: Answer<Node>)
      requires Valid()
      modifies this`current, lex
      ensures Valid() && Agrees(r, ParseSingle(fl, old(Stream())))
      decreases |Stream()|, 0
    {
      var t := current;
      if Last(t) {
        return if t.kind == TOutside then Beyond else Refused;
      }
      match t.kind
      case TLBrace =>
        Advance();
        var fields := ParseObjectFields(true);
        match fields {
          case Refused => return Refused;
          case Beyond => return Beyond;
          case Got(fs) => return Got(NObject(fs));
        }
      case TLBracket =>
        Advance();
        var elems := ParseArray();
        match elems {
          case Refused => return Refused;
          case Beyond => return Beyond;
          case Got(es) => return Got(NArray(es));
        }
      case TString =>
        Advance();
        return Got(NScalar(t.value, StringT, false));
      case TInclude =>
        Advance();
        return Got(NScalar("include", StringT, false));
      case TInt =>
        Advance();
        return if IntOk(t.value) then Got(NScalar(t.value, NumberT, false)) else Refused;
      case TFloat =>
        Advance();
        return if fl(t.value) then Got(NScalar(t.value, NumberT, false)) else Refused;
      case TBool =>
        Advance();
        return Got(NScalar(t.value, BooleanT, false));
      case TNull =>
        Advance();
        return Got(NScalar("null", NullT, false));
      case _ => return Refused;
    }

    /** The elements of an array, behind its opening bracket. */
    method ParseArray() returns (r: Answer<seq<Node>>)
      requires Valid()
      modifies this`current, lex
      ensures Valid() && Agrees(r, ParseElements(fl, old(Stream())))
      decreases |Stream()|, 3
    {
      var elems: seq<Node> := [];
      ghost var ts := Stream();
      ghost var all := ParseElements(fl, ts);
      assert all.Done? ==> [] + all.value == all.value;
      while true
        invariant Valid() && |Stream()| <= |ts|
        invariant ParseElements(fl, ts) == Behind(elems, ParseElements(fl, Stream()))
        decreases |Stream()|
      {
        ghost var before := Stream();
        SkipNewlines();
        ghost var s := Stream();
        if current.kind == TRBracket {
          Advance();
          assert elems + [] == elems;
          return Got(elems);
        }
        if current.kind == TEof {
          return Refused;
        }
        var elem := ParseValueNode();
        match elem {
          case Refused => return Refused;
          case Beyond => return Beyond;
          case Got(e) =>
            SkipSeparator();
            ElementsTurn(fl, before, s, e, Stream(), elems);
            elems := elems + [e];
        }
      }
    }
  }

  /** What is still to be parsed, with what is done already in front. */
  ghost function Behind<T>(done: seq<T>, p: Parse<seq<T>>): Parse<seq<T>> {
    if p.Done? then Done(done + p.value, p.rest) else p
  }

  lemma {:induction false} FieldsTurn(fl: FloatTest, before: seq<Token>, s: seq<Token>, braced: bool, f: NField,
                                      after: seq<Token>, fields: seq<NField>)
    requires s == Parsing.SkipNewlines(before) && ParseField(fl, s).Done? && ParseField(fl, s).value == f
    requires after == Parsing.SkipSeparator(ParseField(fl, s).rest)
    requires Head(s).kind != TEof && Head(s).kind != TInclude && !(braced && Head(s).kind == TRBrace)
    ensures Behind(fields, ParseFields(fl, before, braced)) == Behind(fields + [f], ParseFields(fl, after, braced))
  {
    var more := ParseFields(fl, after, braced);
    if more.Done? {
      Assoc(fields, [f], more.value);
    }
  }

  lemma {:induction false} ElementsTurn(fl: FloatTest, before: seq<Token>, s: seq<Token>, e: Node, after: seq<Token>,
                                        elems: seq<Node>)
    requires s == Parsing.SkipNewlines(before) && ParseValue(fl, s).Done? && ParseValue(fl, s).value == e
    requires after == Parsing.SkipSeparator(ParseValue(fl, s).rest)
    requires Head(s).kind != TEof && Head(s).kind != TRBracket
    ensures Behind(elems, ParseElements(fl, before)) == Behind(elems + [e], ParseElements(fl, after))
  {
    var more := ParseElements(fl, after);
    if more.Done? {
      Assoc(elems, [e], more.value);
    }
  }

  /** Parse: the fields of a document's root object. */
  method ParseText(fl: FloatTest, text: string) returns (r: Answer<seq<NField>>)
    ensures match ParseRoot(fl, TokensOfText(text))
            case Done(fields, _) => r == Got(fields)
            case Rejected => r == Refused
            case Outside => r == Beyond
  {
    var p := new Parser(text, fl);
    p.SkipNewlines();
    if p.current.kind == TLBracket {
      return Refused;
    }
    if p.current.kind == TLBrace {
      return Beyond;
    }
    r := p.ParseObjectFields(false);
  }
}
