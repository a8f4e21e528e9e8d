/**
 What is written down is what is parsed (internal/parser/parser.go): values and
 fields in every layout, with newlines and commas as separators, any of the three
 field separators or none, dotted keys, and the whitespace between the pieces of a
 concatenation.
 */
module Grammar {
  import opened Paths
  import opened Values
  import opened Lexing
  import opened Parsing

  // ---------- what may be written ----------

  /** A value as it is written, token by token. */
  datatype Writing =
    | Word(tok: Token)
    | List(open: Token, lead: seq<Token>, items: seq<Item>, close: Token)
    | Block(open: Token, lead: seq<Token>, members: seq<Member>, close: Token)
    | Joined(first: Writing, more: seq<Writing>)

  /** An element, and the separator behind it. */
  datatype Item = Item(value: Writing, behind: seq<Token>)

  /** A field: its key, newlines, the separator unless an object follows, newlines, the
      value, and the separator behind it. */
  datatype Member = Member(
    key: seq<Token>, path: seq<string>,
    before: seq<Token>, sep: Option<Token>, after: seq<Token>,
    value: Writing, behind: seq<Token>)

  predicate Newlines(ts: seq<Token>) {
    forall i | 0 <= i < |ts| :: ts[i].kind == TNewline
  }

  /** Newlines, or newlines around one comma. */
  predicate Separator(ts: seq<Token>) {
    Newlines(ts) || exists i | 0 <= i < |ts| :: ts[i].kind == TComma && Newlines(ts[..i]) && Newlines(ts[i + 1..])
  }

  /** The token of a scalar. */
  predicate WordToken(fl: FloatTest, t: Token) {
    match t.kind
    case TString => true
    case TInclude => true
    case TInt => IntOk(t.value)
    case TFloat => fl(t.value)
    case TBool => true
    case TNull => true
    case _ => false
  }

  predicate NoDot(s: string) {
    forall i | 0 <= i < |s| :: s[i] != '.'
  }

  /** Segments with a dot between them. */
  function Dotted(segs: seq<string>): string {
    if segs == [] then "" else if |segs| == 1 then segs[0] else segs[0] + "." + Dotted(segs[1..])
  }

  ghost predicate Segments(path: seq<string>) {
    forall i | 0 <= i < |path| :: path[i] != "" && NoDot(path[i])
  }

  /** The texts of tokens, one after the other. */
  function TextOf(ts: seq<Token>): string {
    if ts == [] then "" else ts[0].value + TextOf(ts[1..])
  }

  /** A number may go on as a word right behind it. */
  predicate Tails(ts: seq<Token>) {
    forall i | 0 <= i < |ts| :: IsTail(ts[i]) && !EndsWithDot(ts[i].value)
  }

  /** A quoted key of one segment, or unquoted text with dots between the segments. */
  ghost predicate SpellsKey(ts: seq<Token>, path: seq<string>) {
    && ts != [] && StartsKey(ts[0].kind) && path != []
    && (path[0] == "include" && ts[0].kind == TString ==> ts[0].quoted)
    && if ts[0].quoted then |ts| == 1 && path == [ts[0].value]
       else && TextOf(ts) == Dotted(path) && Segments(path) && ts[0].value != "" && !EndsWithDot(ts[0].value)
            && Tails(ts[1..]) && (|ts| > 1 ==> ts[0].kind == TInt || ts[0].kind == TFloat)
  }

  predicate FieldSeparator(t: Token) {
    t.kind == TEquals || t.kind == TColon || t.kind == TPlusEquals
  }

  predicate Single(w: Writing) {
    !w.Joined?
  }

  ghost predicate Valid(fl: FloatTest, w: Writing)
    decreases w
  {
    match w
    case Word(t) => WordToken(fl, t)
    case List(open, lead, items, close) =>
      && open.kind == TLBracket && close.kind == TRBracket && Newlines(lead)
      && forall i | 0 <= i < |items| ::
           Valid(fl, items[i].value) && Separator(items[i].behind) && (i + 1 < |items| ==> items[i].behind != [])
    case Block(open, lead, members, close) =>
      && open.kind == TLBrace && close.kind == TRBrace && Newlines(lead)
      && forall i | 0 <= i < |members| ::
           ValidMember(fl, members[i]) && (i + 1 < |members| ==> members[i].behind != [])
    case Joined(first, more) =>
      && Single(first) && Valid(fl, first) && more != []
      && forall i | 0 <= i < |more| :: Single(more[i]) && Valid(fl, more[i])
  }

  ghost predicate ValidMember(fl: FloatTest, m: Member)
    decreases m
  {
    && SpellsKey(m.key, m.path) && Newlines(m.before) && Newlines(m.after) && Valid(fl, m.value) && Separator(m.behind)
    && (if m.sep.Some? then FieldSeparator(m.sep.value) else m.after == [] && StartsBlock(m.value))
  }

  predicate StartsBlock(w: Writing) {
    match w
    case Block(_, _, _, _) => true
    case Joined(first, _) => StartsBlock(first)
    case _ => false
  }

  // ---------- its tokens ----------

  function Written(w: Writing): (ts: seq<Token>)
    ensures ts != [] || w.Joined?
    decreases w, 2
  {
    match w
    case Word(t) => [t]
    case List(open, lead, items, close) => [open] + (lead + (WrittenItems(items) + [close]))
    case Block(open, lead, members, close) => [open] + (lead + (WrittenMembers(members) + [close]))
    case Joined(first, more) => Written(first) + WrittenAll(more)
  }

  function WrittenAll(ws: seq<Writing>): seq<Token>
    decreases ws, 0
  {
    if ws == [] then [] else Written(ws[0]) + WrittenAll(ws[1..])
  }

  function WrittenItems(items: seq<Item>): seq<Token>
    decreases items, 0
  {
    if items == [] then [] else Written(items[0].value) + (items[0].behind + WrittenItems(items[1..]))
  }

  function WrittenMember(m: Member): (ts: seq<Token>)
    decreases m, 0
  {
    m.key + (m.before + ((if m.sep.Some? then [m.sep.value] else []) + (m.after + (Written(m.value) + m.behind))))
  }

  function WrittenMembers(ms: seq<Member>): seq<Token>
    decreases ms, 1
  {
    if ms == [] then [] else WrittenMember(ms[0]) + WrittenMembers(ms[1..])
  }

  // ---------- what it means ----------

  function WordNode(t: Token): Node {
    match t.kind
    case TInt => NScalar(t.value, NumberT, false)
    case TFloat => NScalar(t.value, NumberT, false)
    case TBool => NScalar(t.value, BooleanT, false)
    case TNull => NScalar("null", NullT, false)
    case TInclude => NScalar("include", StringT, false)
    case _ => NScalar(t.value, StringT, false)
  }

  /** The whitespace in front of a piece. */
  function Gap(w: Writing): string
    requires Single(w)
  {
    match w
    case Word(t) => t.space
    case List(open, _, _, _) => open.space
    case Block(open, _, _, _) => open.space
  }

  function Meaning(w: Writing): Node
    decreases w, 2
  {
    match w
    case Word(t) => WordNode(t)
    case List(_, _, items, _) => NArray(seq(|items|, i requires 0 <= i < |items| => Meaning(items[i].value)))
    case Block(_, _, members, _) => NObject(seq(|members|, i requires 0 <= i < |members| => FieldOf(members[i])))
    case Joined(first, more) => NConcat([Meaning(first)] + MeaningBehind(more))
  }

  /** Every piece, with its whitespace in front of it where it has any. */
  function MeaningBehind(ws: seq<Writing>): seq<Node>
    decreases ws, 0
  {
    if ws == [] then []
    else
      var gap := if Single(ws[0]) then Gap(ws[0]) else "";
      (if gap != "" then [NScalar(gap, StringT, true)] else []) + ([Meaning(ws[0])] + MeaningBehind(ws[1..]))
  }

  function FieldOf(m: Member): NField
    decreases m, 0
  {
    NField(m.path, Meaning(m.value), m.sep.Some? && m.sep.value.kind == TPlusEquals)
  }

  /** What the elements are. */
  function MeaningOfItems(items: seq<Item>): (ns: seq<Node>)
    ensures |ns| == |items|
  {
    seq(|items|, i requires 0 <= i < |items| => Meaning(items[i].value))
  }

  function MeaningOfMembers(ms: seq<Member>): (fs: seq<NField>)
    ensures |fs| == |ms|
  {
    seq(|ms|, i requires 0 <= i < |ms| => FieldOf(ms[i]))
  }

  lemma {:induction false} FirstItem(items: seq<Item>)
    requires items != []
    ensures MeaningOfItems(items) == [Meaning(items[0].value)] + MeaningOfItems(items[1..])
  {
  }

  lemma {:induction false} FirstMember(ms: seq<Member>)
    requires ms != []
    ensures MeaningOfMembers(ms) == [FieldOf(ms[0])] + MeaningOfMembers(ms[1..])
  {
  }

  ghost predicate ValidItems(fl: FloatTest, items: seq<Item>) {
    forall i | 0 <= i < |items| ::
      Valid(fl, items[i].value) && Separator(items[i].behind) && (i + 1 < |items| ==> items[i].behind != [])
  }

  ghost predicate ValidMembers(fl: FloatTest, ms: seq<Member>) {
    forall i | 0 <= i < |ms| :: ValidMember(fl, ms[i]) && (i + 1 < |ms| ==> ms[i].behind != [])
  }

  // ---------- newlines and separators are skipped ----------

  lemma {:induction false} Skipping(nl: seq<Token>, ts: seq<Token>)
    requires Newlines(nl)
    ensures SkipNewlines(nl + ts) == SkipNewlines(ts)
  {
    if nl == [] {
      assert nl + ts == ts;
    } else {
      assert (nl + ts)[0] == nl[0] && (nl + ts)[1..] == nl[1..] + ts;
      assert Newlines(nl[1..]);
      Skipping(nl[1..], ts);
    }
  }

  lemma {:induction false} SkippingAll(nl: seq<Token>, ts: seq<Token>)
    requires Newlines(nl) && Head(ts).kind != TNewline
    ensures SkipNewlines(nl + ts) == ts
  {
    Skipping(nl, ts);
  }

  lemma {:induction false} AroundComma(sep: seq<Token>, i: nat, ts: seq<Token>)
    requires i < |sep|
    ensures sep + ts == sep[..i] + ([sep[i]] + (sep[i + 1..] + ts))
  {
    Assoc(sep[..i], [sep[i]] + sep[i + 1..], ts);
    Assoc([sep[i]], sep[i + 1..], ts);
    assert sep == sep[..i] + ([sep[i]] + sep[i + 1..]);
  }

  lemma {:induction false} SkippingComma(nl: seq<Token>, comma: Token, more: seq<Token>, ts: seq<Token>)
    requires Newlines(nl) && comma.kind == TComma && Newlines(more) && Head(ts).kind != TNewline
    ensures SkipSeparator(nl + ([comma] + (more + ts))) == ts
  {
    var rest := [comma] + (more + ts);
    SkippingAll(nl, rest);
    assert rest[1..] == more + ts;
    SkippingAll(more, ts);
  }

  lemma {:induction false} SkippingSeparator(sep: seq<Token>, ts: seq<Token>)
    requires Separator(sep) && Head(ts).kind != TNewline && Head(ts).kind != TComma
    ensures SkipSeparator(sep + ts) == ts
  {
    if Newlines(sep) {
      SkippingAll(sep, ts);
    } else {
      var i :| 0 <= i < |sep| && sep[i].kind == TComma && Newlines(sep[..i]) && Newlines(sep[i + 1..]);
      AroundComma(sep, i, ts);
      SkippingComma(sep[..i], sep[i], sep[i + 1..], ts);
    }
  }

  /** What stands behind a value ends it. */
  lemma {:induction false} SeparatorEnds(sep: seq<Token>, ts: seq<Token>)
    requires Separator(sep) && (sep == [] ==> EndsValue(Head(ts).kind))
    ensures EndsValue(Head(sep + ts).kind)
  {
    if sep == [] {
      assert sep + ts == ts;
    } else if !Newlines(sep) {
      var i :| 0 <= i < |sep| && sep[i].kind == TComma && Newlines(sep[..i]) && Newlines(sep[i + 1..]);
      if i > 0 { assert sep[..i][0] == sep[0]; }
    }
  }

  // ---------- how a value begins ----------

  lemma {:induction false} WrittenHead(fl: FloatTest, w: Writing, ts: seq<Token>)
    requires Valid(fl, w)
    ensures var h := Head(Written(w) + ts);
            && Written(w) != [] && !EndsValue(h.kind) && (Single(w) ==> h.space == Gap(w))
            && (StartsBlock(w) <==> h.kind == TLBrace)
    decreases w
  {
    match w
    case Joined(first, more) =>
      Assoc(Written(first), WrittenAll(more), ts);
      WrittenHead(fl, first, WrittenAll(more) + ts);
    case _ =>
  }

  // ---------- scalars and pieces ----------

  lemma {:induction false} ParsesWord(fl: FloatTest, t: Token, ts: seq<Token>)
    requires WordToken(fl, t)
    ensures ParseSingle(fl, [t] + ts) == Done(WordNode(t), ts)
  {
    assert ([t] + ts)[0] == t && ([t] + ts)[1..] == ts;
  }

  lemma {:induction false} OpenAndRest(open: Token, lead: seq<Token>, inner: seq<Token>, close: Token,
                                       ts: seq<Token>)
    ensures var all := ([open] + (lead + (inner + [close]))) + ts;
            all[0] == open && all[1..] == lead + (inner + ([close] + ts))
  {
    Assoc([open], lead + (inner + [close]), ts);
    Assoc(lead, inner + [close], ts);
    Assoc(inner, [close], ts);
  }

  lemma {:induction false} ListIsValid(fl: FloatTest, w: Writing)
    requires w.List?
    ensures Valid(fl, w) <==> w.open.kind == TLBracket && w.close.kind == TRBracket && Newlines(w.lead) &&
                              ValidItems(fl, w.items)
    ensures Meaning(w) == NArray(MeaningOfItems(w.items))
  {
  }

  lemma {:induction false} ListSingle(fl: FloatTest, ts: seq<Token>, elems: seq<Node>, rest: seq<Token>)
    requires Head(ts).kind == TLBracket && ParseElements(fl, ts[1..]) == Done(elems, rest)
    ensures ParseSingle(fl, ts) == Done(NArray(elems), rest)
  {
  }

  lemma {:induction false} ParsesList(fl: FloatTest, w: Writing, ts: seq<Token>)
    requires w.List? && Valid(fl, w)
    ensures ParseSingle(fl, Written(w) + ts) == Done(Meaning(w), ts)
    decreases w, 0
  {
    var after := [w.close] + ts;
    OpenAndRest(w.open, w.lead, WrittenItems(w.items), w.close, ts);
    ListIsValid(fl, w);
    ParsesItems(fl, w.items, after);
    FromLead(fl, w.lead, WrittenItems(w.items) + after, false);
    assert after[1..] == ts;
    ListSingle(fl, Written(w) + ts, MeaningOfItems(w.items), ts);
  }

  lemma {:induction false} BlockIsValid(fl: FloatTest, w: Writing)
    requires w.Block?
    ensures Valid(fl, w) <==> w.open.kind == TLBrace && w.close.kind == TRBrace && Newlines(w.lead) &&
                              ValidMembers(fl, w.members)
    ensures Meaning(w) == NObject(MeaningOfMembers(w.members))
  {
  }

  lemma {:induction false} FromLead(fl: FloatTest, lead: seq<Token>, ts: seq<Token>, braced: bool)
    requires Newlines(lead)
    ensures ParseFields(fl, lead + ts, braced) == ParseFields(fl, ts, braced)
    ensures ParseElements(fl, lead + ts) == ParseElements(fl, ts)
  {
    Skipping(lead, ts);
  }

  lemma {:induction false} BlockSingle(fl: FloatTest, ts: seq<Token>, fields: seq<NField>, rest: seq<Token>)
    requires Head(ts).kind == TLBrace && ParseFields(fl, ts[1..], true) == Done(fields, rest)
    ensures ParseSingle(fl, ts) == Done(NObject(fields), rest)
  {
  }

  lemma {:induction false} ParsesBlock(fl: FloatTest, w: Writing, ts: seq<Token>)
    requires w.Block? && Valid(fl, w)
    ensures ParseSingle(fl, Written(w) + ts) == Done(Meaning(w), ts)
    decreases w, 0
  {
    var after := [w.close] + ts;
    OpenAndRest(w.open, w.lead, WrittenMembers(w.members), w.close, ts);
    BlockIsValid(fl, w);
    ParsesMembers(fl, w.members, after, true);
    FromLead(fl, w.lead, WrittenMembers(w.members) + after, true);
    assert after[1..] == ts;
    BlockSingle(fl, Written(w) + ts, MeaningOfMembers(w.members), ts);
  }

  lemma {:induction false} ParsesSingle(fl: FloatTest, w: Writing, ts: seq<Token>)
    requires Single(w) && Valid(fl, w)
    ensures ParseSingle(fl, Written(w) + ts) == Done(Meaning(w), ts)
    decreases w, 1
  {
    match w
    case Word(t) => ParsesWord(fl, t, ts);
    case List(_, _, _, _) => ParsesList(fl, w, ts);
    case Block(_, _, _, _) => ParsesBlock(fl, w, ts);
  }

  ghost predicate ValidPieces(fl: FloatTest, ws: seq<Writing>) {
    forall i | 0 <= i < |ws| :: Single(ws[i]) && Valid(fl, ws[i])
  }

  lemma {:induction false} OneMore(fl: FloatTest, nodes: seq<Node>, ts: seq<Token>, node: Node, rest: seq<Token>)
    requires !EndsValue(Head(ts).kind) && ParseSingle(fl, ts) == Done(node, rest)
    ensures ParseMore(fl, nodes, ts) ==
            ParseMore(fl, nodes + (if Head(ts).space != "" then [NScalar(Head(ts).space, StringT, true)] else []) +
                          [node], rest)
  {
  }

  lemma {:induction false} ParsesMore(fl: FloatTest, nodes: seq<Node>, ws: seq<Writing>, ts: seq<Token>)
    requires ValidPieces(fl, ws) && EndsValue(Head(ts).kind)
    ensures ParseMore(fl, nodes, WrittenAll(ws) + ts) == Done(nodes + MeaningBehind(ws), ts)
    decreases ws, 0
  {
    if ws == [] {
      assert [] + ts == ts && nodes + [] == nodes;
    } else {
      var rest := WrittenAll(ws[1..]) + ts;
      var gap := if Gap(ws[0]) != "" then [NScalar(Gap(ws[0]), StringT, true)] else [];
      Assoc(Written(ws[0]), WrittenAll(ws[1..]), ts);
      WrittenHead(fl, ws[0], rest);
      ParsesSingle(fl, ws[0], rest);
      OneMore(fl, nodes, Written(ws[0]) + rest, Meaning(ws[0]), rest);
      ParsesMore(fl, nodes + gap + [Meaning(ws[0])], ws[1..], ts);
      GapAndPiece(nodes, gap, [Meaning(ws[0])], MeaningBehind(ws[1..]));
    }
  }

  lemma {:induction false} GapAndPiece(nodes: seq<Node>, gap: seq<Node>, piece: seq<Node>, rest: seq<Node>)
    ensures (nodes + gap + piece) + rest == nodes + (gap + (piece + rest))
  {
    Assoc(nodes + gap, piece, rest);
    Assoc(nodes, gap, piece + rest);
  }

  // ---------- values ----------

  lemma {:induction false} BehindHolds(ws: seq<Writing>)
    requires ws != []
    ensures MeaningBehind(ws) != []
  {
  }

  lemma {:induction false} ValueOf(fl: FloatTest, ts: seq<Token>, first: Node, rest: seq<Token>, nodes: seq<Node>,
                                   after: seq<Token>)
    requires Head(ts).kind != TNewline && ParseSingle(fl, ts) == Done(first, rest)
    requires ParseMore(fl, [first], rest) == Done(nodes, after) && nodes != []
    ensures ParseValue(fl, ts) == Done(if |nodes| == 1 then nodes[0] else NConcat(nodes), after)
  {
  }

  /** A value in front of what ends it. */
  lemma {:induction false} ParsesValue(fl: FloatTest, w: Writing, ts: seq<Token>)
    requires Valid(fl, w) && EndsValue(Head(ts).kind)
    ensures ParseValue(fl, Written(w) + ts) == Done(Meaning(w), ts)
    decreases w, 2
  {
    WrittenHead(fl, w, ts);
    if Single(w) {
      ParsesSingle(fl, w, ts);
      ValueOf(fl, Written(w) + ts, Meaning(w), ts, [Meaning(w)], ts);
    } else {
      var rest := WrittenAll(w.more) + ts;
      Assoc(Written(w.first), WrittenAll(w.more), ts);
      ParsesSingle(fl, w.first, rest);
      ParsesMore(fl, [Meaning(w.first)], w.more, ts);
      BehindHolds(w.more);
      ValueOf(fl, Written(w) + ts, Meaning(w.first), rest, [Meaning(w.first)] + MeaningBehind(w.more), ts);
    }
  }

  // ---------- elements ----------

  lemma {:induction false} OneItem(fl: FloatTest, ts: seq<Token>, node: Node, rest: seq<Token>, next: seq<Token>)
    requires !EndsValue(Head(ts).kind) && ParseValue(fl, ts) == Done(node, rest) && SkipSeparator(rest) == next
    ensures ParseElements(fl, ts) ==
            var more := ParseElements(fl, next);
            if more.Done? then Done([node] + more.value, more.rest) else more
  {
    assert SkipNewlines(ts) == ts;
  }

  lemma {:induction false} ItemsHead(fl: FloatTest, items: seq<Item>, ts: seq<Token>)
    requires ValidItems(fl, items) && Head(ts).kind == TRBracket
    ensures var h := Head(WrittenItems(items) + ts); h.kind != TNewline && h.kind != TComma
  {
    if items == [] {
      assert [] + ts == ts;
    } else {
      var rest := items[0].behind + WrittenItems(items[1..]);
      Assoc(Written(items[0].value), rest, ts);
      WrittenHead(fl, items[0].value, rest + ts);
    }
  }

  lemma {:induction false} ParsesItems(fl: FloatTest, items: seq<Item>, ts: seq<Token>)
    requires ValidItems(fl, items) && Head(ts).kind == TRBracket
    ensures ParseElements(fl, WrittenItems(items) + ts) == Done(MeaningOfItems(items), ts[1..])
    decreases items, 0
  {
    if items == [] {
      assert [] + ts == ts && MeaningOfItems(items) == [];
    } else {
      var value, behind, next := items[0].value, items[0].behind, WrittenItems(items[1..]) + ts;
      Assoc(Written(value), behind + WrittenItems(items[1..]), ts);
      Assoc(behind, WrittenItems(items[1..]), ts);
      if behind == [] { assert items[1..] == [] && next == ts; }
      SeparatorEnds(behind, next);
      assert ValidItems(fl, items[1..]);
      ItemsHead(fl, items[1..], ts);
      SkippingSeparator(behind, next);
      WrittenHead(fl, value, behind + next);
      ParsesValue(fl, value, behind + next);
      OneItem(fl, Written(value) + (behind + next), Meaning(value), behind + next, next);
      ParsesItems(fl, items[1..], ts);
      FirstItem(items);
    }
  }

  // ---------- keys ----------

  lemma {:induction false} DotIn(a: string, b: string)
    requires NoDot(a)
    ensures IndexDot(a + "." + b) == |a| && IndexDot(a) == |a|
  {
    if a == "" {
      assert "" + "." + b == "." + b;
    } else {
      assert (a + "." + b)[1..] == a[1..] + "." + b;
      DotIn(a[1..], b);
    }
  }

  lemma {:induction false} SplitsDotted(path: seq<string>)
    requires path != [] && Segments(path)
    ensures SplitDots(Dotted(path)) == path
  {
    if |path| == 1 {
      DotIn(path[0], "");
    } else {
      var s := Dotted(path);
      DotIn(path[0], Dotted(path[1..]));
      assert s[..|path[0]|] == path[0] && s[|path[0]| + 1..] == Dotted(path[1..]);
      SplitsDotted(path[1..]);
    }
  }

  lemma {:induction false} KeepsAll(path: seq<string>)
    requires Segments(path)
    ensures KeepSegments(path, false) == Some(path)
  {
    if path != [] {
      assert Segments(path[1..]);
      KeepsAll(path[1..]);
      assert [path[0]] + path[1..] == path;
    }
  }

  /** What a field goes on with behind its key. */
  predicate EndsKey(kind: Kind) {
    kind == TNewline || kind == TEquals || kind == TColon || kind == TPlusEquals || kind == TLBrace
  }

  lemma {:induction false} NoTails(parts: seq<string>, ts: seq<Token>)
    requires parts != [] && EndsKey(Head(ts).kind)
    ensures ParseTails(parts, ts) == Done(parts, ts) && EndKey(parts, ts) == Done(parts, ts)
  {
  }

  lemma {:induction false} SplitFirst(a: string, rest: string)
    requires NoDot(a)
    ensures SplitDots(a + "." + rest) == [a] + SplitDots(rest)
  {
    DotIn(a, rest);
    var s := a + "." + rest;
    assert s[..|a|] == a && s[|a| + 1..] == rest;
  }

  lemma {:induction false} PiecesHaveNoDot(s: string)
    ensures forall i | 0 <= i < |SplitDots(s)| :: NoDot(SplitDots(s)[i])
    decreases |s|
  {
    var d := IndexDot(s);
    if d < |s| {
      PiecesHaveNoDot(s[d + 1..]);
      forall i | 0 <= i < |SplitDots(s)| ensures NoDot(SplitDots(s)[i]) {
        if i > 0 { assert SplitDots(s)[i] == SplitDots(s[d + 1..])[i - 1]; }
      }
    }
  }

  lemma {:induction false} AtFirstDot(s: string)
    requires IndexDot(s) < |s|
    ensures var d := IndexDot(s);
            && s == s[..d] + "." + s[d + 1..] && NoDot(s[..d]) && SplitDots(s) == [s[..d]] + SplitDots(s[d + 1..])
  {
  }

  lemma {:induction false} DotAndMore(x: string, y: string, z: string)
    ensures (x + "." + y) + z == x + "." + (y + z)
  {
  }

  lemma {:induction false} InitAndLast(x: string, qs: seq<string>)
    requires qs != []
    ensures var ps := [x] + qs; ps[..|ps| - 1] == [x] + qs[..|qs| - 1] && ps[|ps| - 1] == qs[|qs| - 1]
  {
  }

  /** Text behind other text goes on with the last piece. */
  lemma {:induction false} SplitGoesOn(a: string, b: string)
    ensures var ps := SplitDots(a); SplitDots(a + b) == ps[..|ps| - 1] + SplitDots(ps[|ps| - 1] + b)
    decreases |a|
  {
    var d, ps := IndexDot(a), SplitDots(a);
    if d == |a| {
      assert ps[..0] + SplitDots(a + b) == SplitDots(a + b);
    } else {
      var x, rest := a[..d], a[d + 1..];
      var qs := SplitDots(rest);
      AtFirstDot(a);
      SplitGoesOn(rest, b);
      DotAndMore(x, rest, b);
      SplitFirst(x, rest + b);
      InitAndLast(x, qs);
      Assoc([x], qs[..|qs| - 1], SplitDots(qs[|qs| - 1] + b));
    }
  }

  lemma {:induction false} LastPiece(s: string)
    ensures var ps := SplitDots(s); ps[|ps| - 1] == "" <==> s == "" || EndsWithDot(s)
    decreases |s|
  {
    var d := IndexDot(s);
    if d < |s| { LastPiece(s[d + 1..]); }
  }

  /** The pieces of the first part of a text, when it does not end at a dot. */
  lemma {:induction false} FrontSegments(a: string, b: string)
    requires Segments(SplitDots(a + b)) && a != "" && !EndsWithDot(a)
    ensures Segments(SplitDots(a))
  {
    var ps, qs := SplitDots(a), SplitDots(a + b);
    SplitGoesOn(a, b);
    LastPiece(a);
    PiecesHaveNoDot(a);
    forall i | 0 <= i < |ps| ensures ps[i] != "" && NoDot(ps[i]) {
      if i < |ps| - 1 { assert qs[i] == ps[i]; }
    }
  }

  lemma {:induction false} KeepsEither(path: seq<string>, skip: bool)
    requires Segments(path)
    ensures KeepSegments(path, skip) == Some(path)
  {
    KeepsAll(path);
    if path != [] {
      assert Segments(path[1..]);
      KeepsAll(path[1..]);
    }
  }

  lemma {:induction false} OneTail(parts: seq<string>, t: Token, ts: seq<Token>, more: seq<string>)
    requires parts != [] && IsTail(t) && !EndsWithDot(t.value)
    requires SplitDots(parts[|parts| - 1] + t.value) == more && Segments(more)
    ensures ParseTails(parts, [t] + ts) == ParseTails(parts[..|parts| - 1] + more, ts)
  {
    assert ([t] + ts)[0] == t && ([t] + ts)[1..] == ts;
    KeepsEither(more, parts[..|parts| - 1] != []);
  }

  lemma {:induction false} NoDotAtEnd(a: string, b: string)
    requires !EndsWithDot(a) && !EndsWithDot(b)
    ensures !EndsWithDot(a + b)
  {
    if b == "" { assert a + b == a; }
  }

  lemma {:induction false} BackSegments(a: seq<string>, b: seq<string>)
    requires Segments(a + b)
    ensures Segments(b)
  {
    forall i | 0 <= i < |b| ensures b[i] != "" && NoDot(b[i]) { assert b[i] == (a + b)[|a| + i]; }
  }

  lemma {:induction false} NextTail(s: string, v: string, rest: string)
    requires Segments(SplitDots(s)) && s != "" && !EndsWithDot(s) && !EndsWithDot(v)
    requires Segments(SplitDots(s + (v + rest)))
    ensures var ps := SplitDots(s);
            var more := SplitDots(ps[|ps| - 1] + v);
            && Segments(more) && SplitDots(s + v) == ps[..|ps| - 1] + more && !EndsWithDot(s + v)
            && Segments(SplitDots(s + v))
  {
    var ps := SplitDots(s);
    NoDotAtEnd(s, v);
    Assoc(s, v, rest);
    FrontSegments(s + v, rest);
    SplitGoesOn(s, v);
    BackSegments(ps[..|ps| - 1], SplitDots(ps[|ps| - 1] + v));
  }

  lemma {:induction false} FirstTail(tails: seq<Token>, ts: seq<Token>)
    requires tails != [] && Tails(tails)
    ensures tails + ts == [tails[0]] + (tails[1..] + ts) && TextOf(tails) == tails[0].value + TextOf(tails[1..])
    ensures IsTail(tails[0]) && !EndsWithDot(tails[0].value) && Tails(tails[1..])
  {
  }

  /** A number and the words right behind it: one text, cut at its dots. */
  lemma {:induction false} ParsesTails(s: string, tails: seq<Token>, path: seq<string>, ts: seq<Token>)
    requires Segments(SplitDots(s)) && s != "" && !EndsWithDot(s) && Tails(tails)
    requires path != [] && Segments(path) && s + TextOf(tails) == Dotted(path) && EndsKey(Head(ts).kind)
    ensures ParseTails(SplitDots(s), tails + ts) == Done(path, ts)
    decreases |tails|
  {
    SplitsDotted(path);
    if tails == [] {
      assert s + "" == s && tails + ts == ts;
      NoTails(path, ts);
    } else {
      var v, ps := tails[0].value, SplitDots(s);
      FirstTail(tails, ts);
      NextTail(s, v, TextOf(tails[1..]));
      OneTail(ps, tails[0], tails[1..] + ts, SplitDots(ps[|ps| - 1] + v));
      Assoc(s, v, TextOf(tails[1..]));
      ParsesTails(s + v, tails[1..], path, ts);
    }
  }

  lemma {:induction false} FirstSegments(key: seq<Token>, path: seq<string>)
    requires SpellsKey(key, path) && !key[0].quoted
    ensures Segments(SplitDots(key[0].value)) && SplitKeySegments(key[0].value, false) == Some(SplitDots(key[0].value))
    ensures |key| == 1 ==> SplitDots(key[0].value) == path
  {
    var s := key[0].value;
    SplitsDotted(path);
    assert TextOf(key) == s + TextOf(key[1..]);
    FrontSegments(s, TextOf(key[1..]));
    KeepsAll(SplitDots(s));
    if |key| == 1 { assert key[1..] == [] && s + "" == s; }
  }

  lemma {:induction false} NumberKey(t: Token, ts: seq<Token>, parts: seq<string>, path: seq<string>,
                                     rest: seq<Token>)
    requires (t.kind == TInt || t.kind == TFloat) && !t.quoted && !EndsWithDot(t.value)
    requires SplitKeySegments(t.value, false) == Some(parts) && ParseTails(parts, ts) == Done(path, rest)
    requires EndKey(path, rest) == Done(path, rest)
    ensures ParseKey([t] + ts) == Done(path, rest)
  {
    assert ([t] + ts)[0] == t && ([t] + ts)[1..] == ts;
  }

  lemma {:induction false} WordKey(t: Token, ts: seq<Token>, path: seq<string>)
    requires StartsKey(t.kind) && t.kind != TInt && t.kind != TFloat && EndKey(path, ts) == Done(path, ts)
    requires if t.quoted then path == [t.value]
             else !EndsWithDot(t.value) && SplitKeySegments(t.value, false) == Some(path)
    ensures ParseKey([t] + ts) == Done(path, ts)
  {
    assert ([t] + ts)[0] == t && ([t] + ts)[1..] == ts;
  }

  lemma {:induction false} ParsesQuotedKey(t: Token, ts: seq<Token>)
    requires StartsKey(t.kind) && t.quoted && EndsKey(Head(ts).kind)
    ensures ParseKey([t] + ts) == Done([t.value], ts)
  {
    assert ([t] + ts)[0] == t && ([t] + ts)[1..] == ts;
    NoTails([t.value], ts);
  }

  lemma {:induction false} ParsesKey(key: seq<Token>, path: seq<string>, ts: seq<Token>)
    requires SpellsKey(key, path) && EndsKey(Head(ts).kind)
    ensures ParseKey(key + ts) == Done(path, ts)
  {
    var t, tails := key[0], key[1..];
    assert key + ts == [t] + (tails + ts);
    NoTails(path, ts);
    if t.quoted {
      assert tails + ts == ts;
      ParsesQuotedKey(t, ts);
    } else {
      FirstSegments(key, path);
      if t.kind == TInt || t.kind == TFloat {
        assert TextOf(key) == t.value + TextOf(tails);
        ParsesTails(t.value, tails, path, ts);
        NumberKey(t, tails + ts, SplitDots(t.value), path, ts);
      } else {
        assert tails + ts == ts;
        WordKey(t, ts, path);
      }
    }
  }

  // ---------- fields ----------

  /** The tokens behind the key of a field. */
  function AfterKey(m: Member): seq<Token> {
    m.before + ((if m.sep.Some? then [m.sep.value] else []) + (m.after + Written(m.value)))
  }

  lemma {:induction false} MemberTokens(m: Member, ts: seq<Token>)
    ensures WrittenMember(m) + ts == m.key + (AfterKey(m) + (m.behind + ts))
  {
    var sep := if m.sep.Some? then [m.sep.value] else [];
    Assoc(m.after, Written(m.value), m.behind);
    Assoc(sep, m.after + Written(m.value), m.behind);
    Assoc(m.before, sep + (m.after + Written(m.value)), m.behind);
    assert WrittenMember(m) == m.key + (AfterKey(m) + m.behind);
    Assoc(m.key, AfterKey(m) + m.behind, ts);
    Assoc(AfterKey(m), m.behind, ts);
  }

  lemma {:induction false} AfterKeyTokens(m: Member, ts: seq<Token>)
    ensures AfterKey(m) + ts ==
            m.before + ((if m.sep.Some? then [m.sep.value] else []) + (m.after + (Written(m.value) + ts)))
  {
    var sep := if m.sep.Some? then [m.sep.value] else [];
    Assoc(m.before, sep + (m.after + Written(m.value)), ts);
    Assoc(sep, m.after + Written(m.value), ts);
    Assoc(m.after, Written(m.value), ts);
  }

  lemma {:induction false} AfterKeyHead(fl: FloatTest, m: Member, ts: seq<Token>)
    requires ValidMember(fl, m)
    ensures EndsKey(Head(AfterKey(m) + ts).kind)
  {
    AfterKeyTokens(m, ts);
    if m.before == [] && m.sep.None? {
      WrittenHead(fl, m.value, ts);
      assert AfterKey(m) + ts == Written(m.value) + ts;
    }
  }

  lemma {:induction false} SkipsToValue(fl: FloatTest, nl: seq<Token>, ts: seq<Token>)
    requires Newlines(nl)
    ensures ParseValue(fl, nl + ts) == ParseValue(fl, ts)
  {
    Skipping(nl, ts);
  }

  lemma {:induction false} FieldValue(fl: FloatTest, m: Member, ts: seq<Token>, s: seq<Token>, rest: seq<Token>)
    requires SkipNewlines(ts) == s && s != []
    requires if m.sep.Some? then s[0] == m.sep.value && FieldSeparator(s[0]) else s[0].kind == TLBrace
    requires ParseValue(fl, if m.sep.Some? then s[1..] else s) == Done(Meaning(m.value), rest)
    ensures ParseAfterKey(fl, m.path, ts) == Done(FieldOf(m), rest)
  {
  }

  lemma {:induction false} ParsesAfterKey(fl: FloatTest, m: Member, ts: seq<Token>)
    requires ValidMember(fl, m) && EndsValue(Head(ts).kind)
    ensures ParseAfterKey(fl, m.path, AfterKey(m) + ts) == Done(FieldOf(m), ts)
    decreases m, 0
  {
    var value := Written(m.value) + ts;
    AfterKeyTokens(m, ts);
    WrittenHead(fl, m.value, ts);
    ParsesValue(fl, m.value, ts);
    if m.sep.Some? {
      var s := [m.sep.value] + (m.after + value);
      SkippingAll(m.before, s);
      assert s[1..] == m.after + value;
      SkipsToValue(fl, m.after, value);
      FieldValue(fl, m, AfterKey(m) + ts, s, ts);
    } else {
      assert [] + ([] + value) == value;
      SkippingAll(m.before, value);
      FieldValue(fl, m, AfterKey(m) + ts, value, ts);
    }
  }

  lemma {:induction false} ParsesMember(fl: FloatTest, m: Member, ts: seq<Token>)
    requires ValidMember(fl, m) && (m.behind == [] ==> EndsValue(Head(ts).kind))
    ensures ParseField(fl, WrittenMember(m) + ts) == Done(FieldOf(m), m.behind + ts)
    decreases m, 1
  {
    var after := m.behind + ts;
    MemberTokens(m, ts);
    SeparatorEnds(m.behind, ts);
    AfterKeyHead(fl, m, after);
    ParsesKey(m.key, m.path, AfterKey(m) + after);
    ParsesAfterKey(fl, m, after);
  }

  lemma {:induction false} OneField(fl: FloatTest, ts: seq<Token>, braced: bool, f: NField, rest: seq<Token>,
                                    next: seq<Token>)
    requires StartsKey(Head(ts).kind) && ParseField(fl, ts) == Done(f, rest) && SkipSeparator(rest) == next
    ensures ParseFields(fl, ts, braced) ==
            var more := ParseFields(fl, next, braced);
            if more.Done? then Done([f] + more.value, more.rest) else more
  {
    assert SkipNewlines(ts) == ts;
  }

  lemma {:induction false} MembersHead(fl: FloatTest, ms: seq<Member>, ts: seq<Token>)
    requires ValidMembers(fl, ms) && (Head(ts).kind == TRBrace || Head(ts).kind == TEof)
    ensures var h := Head(WrittenMembers(ms) + ts); h.kind != TNewline && h.kind != TComma
    ensures ms != [] ==> StartsKey(Head(WrittenMembers(ms) + ts).kind)
  {
    if ms == [] {
      assert [] + ts == ts;
    }
  }

  /** The fields in front of the closing brace, or of the end of the text. */
  lemma {:induction false} ParsesMembers(fl: FloatTest, ms: seq<Member>, ts: seq<Token>, braced: bool)
    requires ValidMembers(fl, ms) && Head(ts).kind == (if braced then TRBrace else TEof)
    ensures ParseFields(fl, WrittenMembers(ms) + ts, braced) ==
            Done(MeaningOfMembers(ms), if braced then ts[1..] else ts)
    decreases ms, 0
  {
    if ms == [] {
      assert [] + ts == ts && MeaningOfMembers(ms) == [];
    } else {
      var m, next := ms[0], WrittenMembers(ms[1..]) + ts;
      Assoc(WrittenMember(m), WrittenMembers(ms[1..]), ts);
      if m.behind == [] { assert ms[1..] == [] && next == ts; }
      assert ValidMembers(fl, ms[1..]);
      MembersHead(fl, ms, ts);
      MembersHead(fl, ms[1..], ts);
      SkippingSeparator(m.behind, next);
      ParsesMember(fl, m, next);
      OneField(fl, WrittenMember(m) + next, braced, FieldOf(m), m.behind + next, next);
      ParsesMembers(fl, ms[1..], ts, braced);
      FirstMember(ms);
    }
  }

  // ---------- documents ----------

  /** A document without root braces, newlines in front: its fields, in order. */
  lemma {:induction false} ParsesDocument(fl: FloatTest, lead: seq<Token>, ms: seq<Member>, end: seq<Token>)
    requires Newlines(lead) && ValidMembers(fl, ms) && Head(end).kind == TEof
    ensures ParseRoot(fl, lead + (WrittenMembers(ms) + end)) == Done(MeaningOfMembers(ms), end)
  {
    var body := WrittenMembers(ms) + end;
    MembersHead(fl, ms, end);
    SkippingAll(lead, body);
    ParsesMembers(fl, ms, end, false);
    if ms == [] { assert body == end; }
  }
}
