/**
 The converse of Grammar: whatever the parser accepts is one of the written forms,
 and means what that form means.  Together: the parser accepts exactly the grammar.
 */
module Accepts {
  import opened Paths
  import opened Values
  import opened Lexing
  import opened Parsing
  import opened Grammar

  // ---------- newlines and separators ----------

  lemma {:induction false} SkippedNewlines(ts: seq<Token>) returns (nl: seq<Token>)
    ensures Newlines(nl) && ts == nl + SkipNewlines(ts)
  {
    if Head(ts).kind == TNewline {
      var more := SkippedNewlines(ts[1..]);
      nl := [ts[0]] + more;
      assert ts == [ts[0]] + ts[1..];
    } else {
      nl := [];
    }
  }

  lemma {:induction false} CommaSeparates(nl: seq<Token>, comma: Token, more: seq<Token>)
    requires Newlines(nl) && comma.kind == TComma && Newlines(more)
    ensures Separator(nl + ([comma] + more))
  {
    var sep, i := nl + ([comma] + more), |nl|;
    assert sep[i] == comma && sep[..i] == nl && sep[i + 1..] == more;
  }

  lemma {:induction false} SkippedSeparator(ts: seq<Token>) returns (sep: seq<Token>)
    ensures Separator(sep) && ts == sep + SkipSeparator(ts)
  {
    var nl := SkippedNewlines(ts);
    var r := SkipNewlines(ts);
    if Head(r).kind == TComma {
      var more := SkippedNewlines(r[1..]);
      CommaSeparates(nl, r[0], more);
      sep := nl + ([r[0]] + more);
      assert r == [r[0]] + r[1..];
      Assoc([r[0]], more, SkipSeparator(ts));
      Assoc(nl, [r[0]] + more, SkipSeparator(ts));
    } else {
      sep := nl;
    }
  }

  // ---------- keys ----------

  lemma {:induction false} Undotted(s: string)
    ensures Dotted(SplitDots(s)) == s
    decreases |s|
  {
    var d := IndexDot(s);
    if d < |s| {
      Undotted(s[d + 1..]);
      var rest := SplitDots(s[d + 1..]);
      assert ([s[..d]] + rest)[1..] == rest;
      assert s == s[..d] + "." + s[d + 1..];
    }
  }

  lemma {:induction false} KeptAreAll(pieces: seq<string>, skip: bool)
    requires pieces != [] && pieces[0] != "" && pieces[|pieces| - 1] != "" && KeepSegments(pieces, skip).Some?
    requires forall i | 0 <= i < |pieces| :: NoDot(pieces[i])
    ensures KeepSegments(pieces, skip) == Some(pieces) && Segments(pieces)
  {
    if |pieces| == 1 {
      assert pieces[1..] == [] && [pieces[0]] + [] == pieces;
    } else {
      var rest := pieces[1..];
      assert rest[0] != "";
      KeptAreAll(rest, false);
      assert pieces == [pieces[0]] + rest;
      forall i | 0 <= i < |pieces| ensures pieces[i] != "" && NoDot(pieces[i]) {
        if i > 0 { assert pieces[i] == rest[i - 1]; }
      }
    }
  }

  lemma {:induction false} FirstPiece(s: string)
    ensures SplitDots(s)[0] == "" <==> s == "" || StartsWithDot(s)
  {
  }

  /** A key text the parser takes: nothing is left out of it. */
  lemma {:induction false} KeyTextIs(s: string, skip: bool)
    requires SplitKeySegments(s, skip).Some? && s != "" && !StartsWithDot(s) && !EndsWithDot(s)
    ensures SplitKeySegments(s, skip) == Some(SplitDots(s)) && Segments(SplitDots(s))
  {
    FirstPiece(s);
    LastPiece(s);
    PiecesHaveNoDot(s);
    KeptAreAll(SplitDots(s), skip);
  }

  lemma {:induction false} TailStep(s: string, v: string)
    requires Segments(SplitDots(s)) && s != "" && !StartsWithDot(s) && !EndsWithDot(s) && !EndsWithDot(v)
    requires var ps := SplitDots(s); SplitKeySegments(ps[|ps| - 1] + v, ps[..|ps| - 1] != []).Some?
    ensures var ps := SplitDots(s);
            var more := SplitKeySegments(ps[|ps| - 1] + v, ps[..|ps| - 1] != []);
            && ps[..|ps| - 1] + more.value == SplitDots(s + v) && Segments(SplitDots(s + v))
            && s + v != "" && !StartsWithDot(s + v) && !EndsWithDot(s + v)
  {
    var ps := SplitDots(s);
    var last := ps[|ps| - 1];
    assert last != "" && NoDot(last);
    assert !EndsWithDot(last) by { assert last[|last| - 1] != '.'; }
    NoDotAtEnd(last, v);
    NoDotAtEnd(s, v);
    KeyTextIs(last + v, ps[..|ps| - 1] != []);
    SplitGoesOn(s, v);
    assert (s + v)[0] == s[0];
  }

  lemma {:induction false} TailsGoOn(parts: seq<string>, ts: seq<Token>)
    requires parts != [] && IsTail(Head(ts)) && ParseTails(parts, ts).Done?
    ensures ts != [] && !EndsWithDot(ts[0].value)
    ensures var more := SplitKeySegments(parts[|parts| - 1] + ts[0].value, parts[..|parts| - 1] != []);
            more.Some? && ParseTails(parts, ts) == ParseTails(parts[..|parts| - 1] + more.value, ts[1..])
  {
  }

  lemma {:induction false} PutTail(t: Token, tails: seq<Token>)
    requires IsTail(t) && !EndsWithDot(t.value) && Tails(tails)
    ensures Tails([t] + tails) && TextOf([t] + tails) == t.value + TextOf(tails)
  {
    assert ([t] + tails)[1..] == tails;
  }

  lemma {:induction false} TailsWere(s: string, ts: seq<Token>) returns (tails: seq<Token>)
    requires Segments(SplitDots(s)) && s != "" && !StartsWithDot(s) && !EndsWithDot(s)
    requires ParseTails(SplitDots(s), ts).Done?
    ensures var r := ParseTails(SplitDots(s), ts);
            && ts == tails + r.rest && Tails(tails) && Segments(r.value) && r.value != []
            && s + TextOf(tails) == Dotted(r.value)
    decreases |ts|
  {
    var ps := SplitDots(s);
    if IsTail(Head(ts)) {
      var v := ts[0].value;
      TailsGoOn(ps, ts);
      TailStep(s, v);
      var more := TailsWere(s + v, ts[1..]);
      tails := [ts[0]] + more;
      PutTail(ts[0], more);
      Assoc(s, v, TextOf(more));
      Assoc([ts[0]], more, ParseTails(ps, ts).rest);
    } else {
      tails := [];
      Undotted(s);
      assert s + "" == s;
    }
  }

  lemma {:induction false} EmptyKey()
    ensures SplitKeySegments("", false) == Some([])
  {
    var ps := SplitDots("");
    assert ps == [""] && ps[1..] == [];
    assert KeepSegments(ps[1..], false) == Some([]);
    assert [] + [] == ps[1..];
  }

  lemma {:induction false} KeyFirst(t: Token, parts: seq<string>)
    requires SplitKeySegments(t.value, false) == Some(parts) && parts != [] && !EndsWithDot(t.value)
    ensures t.value != "" && !StartsWithDot(t.value) && parts == SplitDots(t.value) && Segments(parts)
  {
    var ps := SplitDots(t.value);
    FirstPiece(t.value);
    EmptyKey();
    LastPiece(t.value);
    KeyTextIs(t.value, false);
  }

  lemma {:induction false} NoParts(ts: seq<Token>)
    ensures ParseTails([], ts) == Done([], ts) && !EndKey([], ts).Done?
  {
  }

  lemma {:induction false} NumberKeyIs(ts: seq<Token>)
    requires ParseKey(ts).Done? && !ts[0].quoted && (ts[0].kind == TInt || ts[0].kind == TFloat)
    ensures var parts := SplitKeySegments(ts[0].value, false);
            && parts.Some? && parts.value != [] && !EndsWithDot(ts[0].value)
            && ParseTails(parts.value, ts[1..]) == ParseKey(ts)
  {
    NoParts(ts[1..]);
  }

  lemma {:induction false} NumberKeyWas(ts: seq<Token>) returns (key: seq<Token>)
    requires ParseKey(ts).Done? && !ts[0].quoted && (ts[0].kind == TInt || ts[0].kind == TFloat)
    ensures ts == key + ParseKey(ts).rest && SpellsKey(key, ParseKey(ts).value)
  {
    var t, parts := ts[0], SplitKeySegments(ts[0].value, false);
    NumberKeyIs(ts);
    KeyFirst(t, parts.value);
    var tails := TailsWere(t.value, ts[1..]);
    key := [t] + tails;
    Assoc([t], tails, ParseKey(ts).rest);
    assert key[1..] == tails;
  }

  lemma {:induction false} WordKeyWas(ts: seq<Token>) returns (key: seq<Token>)
    requires ParseKey(ts).Done? && !ts[0].quoted && ts[0].kind != TInt && ts[0].kind != TFloat
    requires !(ParseKey(ts).value[0] == "include" && ts[0].kind == TString)
    ensures ts == key + ParseKey(ts).rest && SpellsKey(key, ParseKey(ts).value)
  {
    var t, parts := ts[0], SplitKeySegments(ts[0].value, false);
    KeyFirst(t, parts.value);
    Undotted(t.value);
    key := [t];
    assert ts == [t] + ts[1..] && key[1..] == [] && t.value + "" == t.value;
  }

  lemma {:induction false} KeyIsThere(ts: seq<Token>)
    requires ParseKey(ts).Done?
    ensures ts != [] && StartsKey(ts[0].kind) && ParseKey(ts).value != []
  {
  }

  lemma {:induction false} KeyWas(ts: seq<Token>) returns (key: seq<Token>)
    requires ParseKey(ts).Done?
    requires !(ParseKey(ts).value != [] && ParseKey(ts).value[0] == "include" && !ts[0].quoted && ts[0].kind == TString)
    ensures ts == key + ParseKey(ts).rest && SpellsKey(key, ParseKey(ts).value)
  {
    KeyIsThere(ts);
    if ts[0].quoted {
      key := [ts[0]];
    } else if ts[0].kind == TInt || ts[0].kind == TFloat {
      key := NumberKeyWas(ts);
    } else {
      key := WordKeyWas(ts);
    }
  }

  // ---------- values ----------

  lemma {:induction false} SingleIsThere(fl: FloatTest, ts: seq<Token>)
    requires ParseSingle(fl, ts).Done?
    ensures ts != [] && ts == [ts[0]] + ts[1..]
  {
  }

  lemma {:induction false} WordWas(fl: FloatTest, ts: seq<Token>)
    requires ParseSingle(fl, ts).Done? && Head(ts).kind != TLBrace && Head(ts).kind != TLBracket
    ensures ts != [] && WordToken(fl, ts[0]) && ParseSingle(fl, ts) == Done(WordNode(ts[0]), ts[1..])
  {
  }

  lemma {:induction false} Enclosed(open: Token, lead: seq<Token>, inner: seq<Token>, close: Token, rest: seq<Token>)
    ensures [open] + (lead + (inner + ([close] + rest))) == ([open] + (lead + (inner + [close]))) + rest
  {
    OpenAndRest(open, lead, inner, close, rest);
    var all := ([open] + (lead + (inner + [close]))) + rest;
    assert all == [all[0]] + all[1..];
  }

  lemma {:induction false} BlockWas(fl: FloatTest, ts: seq<Token>) returns (w: Writing)
    requires ParseSingle(fl, ts).Done? && Head(ts).kind == TLBrace
    ensures var r := ParseSingle(fl, ts);
            w.Block? && Valid(fl, w) && ts == Written(w) + r.rest && Meaning(w) == r.value
    decreases |ts|, 0
  {
    SingleIsThere(fl, ts);
    var lead, ms, end := FieldsWere(fl, ts[1..], true);
    w := Block(ts[0], lead, ms, end[0]);
    BlockIsValid(fl, w);
    Enclosed(ts[0], lead, WrittenMembers(ms), end[0], ParseSingle(fl, ts).rest);
  }

  lemma {:induction false} ListWas(fl: FloatTest, ts: seq<Token>) returns (w: Writing)
    requires ParseSingle(fl, ts).Done? && Head(ts).kind == TLBracket
    ensures var r := ParseSingle(fl, ts);
            w.List? && Valid(fl, w) && ts == Written(w) + r.rest && Meaning(w) == r.value
    decreases |ts|, 0
  {
    SingleIsThere(fl, ts);
    var lead, items, close := ElementsWere(fl, ts[1..]);
    w := List(ts[0], lead, items, close);
    ListIsValid(fl, w);
    Enclosed(ts[0], lead, WrittenItems(items), close, ParseSingle(fl, ts).rest);
  }

  lemma {:induction false} SingleWas(fl: FloatTest, ts: seq<Token>) returns (w: Writing)
    requires ParseSingle(fl, ts).Done?
    ensures var r := ParseSingle(fl, ts);
            Single(w) && Valid(fl, w) && ts == Written(w) + r.rest && Meaning(w) == r.value
    decreases |ts|, 1
  {
    if Head(ts).kind == TLBrace {
      w := BlockWas(fl, ts);
    } else if Head(ts).kind == TLBracket {
      w := ListWas(fl, ts);
    } else {
      WordWas(fl, ts);
      SingleIsThere(fl, ts);
      w := Word(ts[0]);
    }
  }

  lemma {:induction false} PutPiece(fl: FloatTest, nodes: seq<Node>, w: Writing, more: seq<Writing>, rest: seq<Token>)
    requires Single(w) && Valid(fl, w) && ValidPieces(fl, more)
    ensures ValidPieces(fl, [w] + more)
    ensures WrittenAll([w] + more) + rest == Written(w) + (WrittenAll(more) + rest)
    ensures (nodes + (if Gap(w) != "" then [NScalar(Gap(w), StringT, true)] else []) + [Meaning(w)]) +
              MeaningBehind(more) == nodes + MeaningBehind([w] + more)
  {
    var gap := if Gap(w) != "" then [NScalar(Gap(w), StringT, true)] else [];
    assert ([w] + more)[1..] == more;
    Assoc(Written(w), WrittenAll(more), rest);
    GapAndPiece(nodes, gap, [Meaning(w)], MeaningBehind(more));
  }

  lemma {:induction false} MoreWere(fl: FloatTest, nodes: seq<Node>, ts: seq<Token>) returns (ws: seq<Writing>)
    requires ParseMore(fl, nodes, ts).Done?
    ensures var r := ParseMore(fl, nodes, ts);
            && ValidPieces(fl, ws) && ts == WrittenAll(ws) + r.rest && r.value == nodes + MeaningBehind(ws)
            && EndsValue(Head(r.rest).kind)
    decreases |ts|, 2
  {
    if EndsValue(Head(ts).kind) {
      ws := [];
      assert [] + ts == ts && nodes + [] == nodes;
    } else {
      var w := SingleWas(fl, ts);
      var rest := ParseSingle(fl, ts).rest;
      WrittenHead(fl, w, rest);
      OneMore(fl, nodes, ts, Meaning(w), rest);
      var gap := if Gap(w) != "" then [NScalar(Gap(w), StringT, true)] else [];
      var more := MoreWere(fl, nodes + gap + [Meaning(w)], rest);
      PutPiece(fl, nodes, w, more, ParseMore(fl, nodes, ts).rest);
      ws := [w] + more;
    }
  }

  lemma {:induction false} JoinedIsValid(fl: FloatTest, first: Writing, more: seq<Writing>)
    requires Single(first) && Valid(fl, first) && more != [] && ValidPieces(fl, more)
    ensures Valid(fl, Joined(first, more))
    ensures Meaning(Joined(first, more)) == NConcat([Meaning(first)] + MeaningBehind(more))
    ensures Written(Joined(first, more)) == Written(first) + WrittenAll(more)
  {
  }

  /** A value, and the newlines in front of it. */
  lemma {:induction false} ValueWas(fl: FloatTest, ts: seq<Token>) returns (lead: seq<Token>, w: Writing)
    requires ParseValue(fl, ts).Done?
    ensures var r := ParseValue(fl, ts);
            && Newlines(lead) && Valid(fl, w) && ts == lead + (Written(w) + r.rest) && Meaning(w) == r.value
            && EndsValue(Head(r.rest).kind) && (Head(ts).kind != TNewline ==> lead == [])
    decreases |ts|, 3
  {
    lead := SkippedNewlines(ts);
    var s := SkipNewlines(ts);
    if Head(ts).kind != TNewline { NoLead(ts, lead); }
    var first := SingleWas(fl, s);
    var rest := ParseSingle(fl, s).rest;
    var more := MoreWere(fl, [Meaning(first)], rest);
    if more == [] {
      w := first;
      assert [Meaning(first)] + [] == [Meaning(first)] && [] + ParseValue(fl, ts).rest == rest;
    } else {
      w := Joined(first, more);
      JoinedIsValid(fl, first, more);
      BehindHolds(more);
      Assoc(Written(first), WrittenAll(more), ParseValue(fl, ts).rest);
    }
  }

  // ---------- elements ----------

  lemma {:induction false} MoreItems(fl: FloatTest, item: Item, items: seq<Item>)
    requires Valid(fl, item.value) && Separator(item.behind) && ValidItems(fl, items)
    requires items != [] ==> item.behind != []
    ensures ValidItems(fl, [item] + items) && WrittenItems([item] + items) ==
            Written(item.value) + (item.behind + WrittenItems(items))
    ensures MeaningOfItems([item] + items) == [Meaning(item.value)] + MeaningOfItems(items)
  {
    var all := [item] + items;
    assert all[1..] == items;
    FirstItem(all);
    forall i | 0 <= i < |all|
      ensures Valid(fl, all[i].value) && Separator(all[i].behind) && (i + 1 < |all| ==> all[i].behind != []) {
      if i > 0 { assert all[i] == items[i - 1]; }
    }
  }

  lemma {:induction false} ItemsStart(fl: FloatTest, items: seq<Item>, ts: seq<Token>)
    requires ValidItems(fl, items) && items != []
    ensures !EndsValue(Head(WrittenItems(items) + ts).kind)
  {
    var rest := items[0].behind + WrittenItems(items[1..]);
    Assoc(Written(items[0].value), rest, ts);
    WrittenHead(fl, items[0].value, rest + ts);
  }

  lemma {:induction false} ElementsEnd(fl: FloatTest, ts: seq<Token>)
    requires Head(SkipNewlines(ts)).kind == TRBracket
    ensures var s := SkipNewlines(ts);
            s != [] && s == [s[0]] + s[1..] && ParseElements(fl, ts) == Done([], s[1..])
  {
  }

  lemma {:induction false} ElementsGoOn(fl: FloatTest, ts: seq<Token>)
    requires ParseElements(fl, ts).Done? && Head(SkipNewlines(ts)).kind != TRBracket
    ensures var first := ParseValue(fl, SkipNewlines(ts));
            && first.Done? && |first.rest| < |ts|
            && var more := ParseElements(fl, SkipSeparator(first.rest));
               more.Done? && ParseElements(fl, ts) == Done([first.value] + more.value, more.rest)
  {
  }

  lemma {:induction false} PutItem(value: seq<Token>, sep: seq<Token>, items: seq<Token>, end: seq<Token>)
    ensures value + (sep + (items + end)) == (value + (sep + items)) + end
  {
    Assoc(sep, items, end);
    Assoc(value, sep + items, end);
  }

  /** An element in front of others. */
  lemma {:induction false} PutElement(fl: FloatTest, s: seq<Token>, item: Item, rest: seq<Token>, items: seq<Item>,
                                      end: seq<Token>)
    requires Valid(fl, item.value) && Separator(item.behind) && ValidItems(fl, items) && EndsValue(Head(rest).kind)
    requires s == Written(item.value) + rest && rest == item.behind + (WrittenItems(items) + end)
    ensures ValidItems(fl, [item] + items) && s == WrittenItems([item] + items) + end
    ensures MeaningOfItems([item] + items) == [Meaning(item.value)] + MeaningOfItems(items)
  {
    if item.behind == [] {
      assert rest == WrittenItems(items) + end;
      if items != [] { ItemsStart(fl, items, end); }
    }
    MoreItems(fl, item, items);
    PutItem(Written(item.value), item.behind, WrittenItems(items), end);
  }

  lemma {:induction false} Nothing(a: seq<Token>, b: seq<Token>)
    requires a == []
    ensures a + b == b
  {
  }

  lemma {:induction false} NoLead(ts: seq<Token>, lead: seq<Token>)
    requires Head(ts).kind != TNewline && ts == lead + SkipNewlines(ts)
    ensures lead == [] && SkipNewlines(ts) == ts
  {
  }

  lemma {:induction false} ElementsWere(fl: FloatTest, ts: seq<Token>)
    returns (lead: seq<Token>, items: seq<Item>, close: Token)
    requires ParseElements(fl, ts).Done?
    ensures var r := ParseElements(fl, ts);
            && Newlines(lead) && ValidItems(fl, items) && close.kind == TRBracket && MeaningOfItems(items) == r.value
            && ts == lead + (WrittenItems(items) + ([close] + r.rest))
            && (Head(ts).kind != TNewline ==> lead == [])
    decreases |ts|, 5
  {
    lead := SkippedNewlines(ts);
    var s := SkipNewlines(ts);
    if Head(ts).kind != TNewline { NoLead(ts, lead); }
    if Head(s).kind == TRBracket {
      ElementsEnd(fl, ts);
      items, close := [], s[0];
      assert [] + s == s && MeaningOfItems([]) == [];
    } else {
      ElementsGoOn(fl, ts);
      items, close := SomeElements(fl, ts, s);
    }
  }

  lemma {:induction false} SomeElements(fl: FloatTest, ts: seq<Token>, s: seq<Token>)
    returns (items: seq<Item>, close: Token)
    requires ParseElements(fl, ts).Done? && s == SkipNewlines(ts) && Head(s).kind != TRBracket
    requires var first := ParseValue(fl, s);
             && first.Done? && |first.rest| < |ts|
             && var more := ParseElements(fl, SkipSeparator(first.rest));
                more.Done? && ParseElements(fl, ts) == Done([first.value] + more.value, more.rest)
    ensures var r := ParseElements(fl, ts);
            && ValidItems(fl, items) && close.kind == TRBracket && MeaningOfItems(items) == r.value
            && s == WrittenItems(items) + ([close] + r.rest)
    decreases |ts|, 4
  {
    var none, w := ValueWas(fl, s);
    var rest := ParseValue(fl, s).rest;
    var sep := SkippedSeparator(rest);
    NextHead(rest);
    var nl, more, end := ElementsWere(fl, SkipSeparator(rest));
    var after := [end] + ParseElements(fl, ts).rest;
    Nothing(none, Written(w) + rest);
    Nothing(nl, WrittenItems(more) + after);
    PutElement(fl, s, Item(w, sep), rest, more, after);
    items, close := [Item(w, sep)] + more, end;
  }

  lemma {:induction false} NextHead(ts: seq<Token>)
    ensures Head(SkipSeparator(ts)).kind != TNewline
  {
  }

  // ---------- fields ----------

  lemma {:induction false} AfterKeyIs(fl: FloatTest, path: seq<string>, ts: seq<Token>)
    requires ParseAfterKey(fl, path, ts).Done?
    ensures var s := SkipNewlines(ts);
            && s != [] && (FieldSeparator(s[0]) || s[0].kind == TLBrace) && EndsKey(Head(ts).kind)
            && var v := ParseValue(fl, if s[0].kind == TLBrace then s else s[1..]);
               v.Done? && ParseAfterKey(fl, path, ts) ==
                          Done(NField(path, v.value, s[0].kind == TPlusEquals), v.rest)
  {
    assert Head(ts).kind == TNewline || SkipNewlines(ts) == ts;
  }

  lemma {:induction false} BracedMember(fl: FloatTest, key: seq<Token>, path: seq<string>, before: seq<Token>,
                                        w: Writing, ts: seq<Token>, rest: seq<Token>)
    requires SpellsKey(key, path) && Newlines(before) && Valid(fl, w) && Head(Written(w) + rest).kind == TLBrace
    requires ts == before + (Written(w) + rest)
    ensures var m := Member(key, path, before, None, [], w, []);
            ValidMember(fl, m) && FieldOf(m) == NField(path, Meaning(w), false) && ts == AfterKey(m) + rest
  {
    var m := Member(key, path, before, None, [], w, []);
    WrittenHead(fl, w, rest);
    AfterKeyTokens(m, rest);
    assert [] + ([] + (Written(w) + rest)) == Written(w) + rest;
  }

  lemma {:induction false} SignedMember(fl: FloatTest, key: seq<Token>, path: seq<string>, before: seq<Token>,
                                        sep: Token, after: seq<Token>, w: Writing, ts: seq<Token>, rest: seq<Token>)
    requires SpellsKey(key, path) && Newlines(before) && FieldSeparator(sep) && Newlines(after) && Valid(fl, w)
    requires ts == before + ([sep] + (after + (Written(w) + rest)))
    ensures var m := Member(key, path, before, Some(sep), after, w, []);
            && ValidMember(fl, m) && FieldOf(m) == NField(path, Meaning(w), sep.kind == TPlusEquals)
            && ts == AfterKey(m) + rest
  {
    AfterKeyTokens(Member(key, path, before, Some(sep), after, w, []), rest);
  }

  /** What stands behind a key: newlines, the separator, newlines, the value. */
  lemma {:induction false} AfterKeyWas(fl: FloatTest, key: seq<Token>, path: seq<string>, ts: seq<Token>)
    returns (m: Member)
    requires ParseAfterKey(fl, path, ts).Done? && SpellsKey(key, path)
    ensures var r := ParseAfterKey(fl, path, ts);
            && m.key == key && m.path == path && m.behind == [] && ValidMember(fl, m) && FieldOf(m) == r.value
            && ts == AfterKey(m) + r.rest && EndsValue(Head(r.rest).kind)
    decreases |ts|, 4
  {
    var rest := ParseAfterKey(fl, path, ts).rest;
    AfterKeyIs(fl, path, ts);
    var before := SkippedNewlines(ts);
    var s := SkipNewlines(ts);
    if s[0].kind == TLBrace {
      var none, w := ValueWas(fl, s);
      Nothing(none, Written(w) + rest);
      BracedMember(fl, key, path, before, w, ts, rest);
      m := Member(key, path, before, None, [], w, []);
    } else {
      var after, w := ValueWas(fl, s[1..]);
      assert s == [s[0]] + s[1..];
      SignedMember(fl, key, path, before, s[0], after, w, ts, rest);
      m := Member(key, path, before, Some(s[0]), after, w, []);
    }
  }

  lemma {:induction false} FieldIsThere(fl: FloatTest, ts: seq<Token>)
    requires ParseField(fl, ts).Done?
    ensures var k := ParseKey(ts);
            && k.Done? && |k.rest| < |ts| && ts != []
            && !(k.value != [] && k.value[0] == "include" && !ts[0].quoted && ts[0].kind == TString)
            && ParseField(fl, ts) == ParseAfterKey(fl, k.value, k.rest)
  {
  }

  lemma {:induction false} FieldWas(fl: FloatTest, ts: seq<Token>) returns (m: Member)
    requires ParseField(fl, ts).Done?
    ensures var r := ParseField(fl, ts);
            && m.behind == [] && ValidMember(fl, m) && FieldOf(m) == r.value
            && ts == m.key + (AfterKey(m) + r.rest) && EndsValue(Head(r.rest).kind)
    decreases |ts|, 5
  {
    FieldIsThere(fl, ts);
    var key := KeyWas(ts);
    m := AfterKeyWas(fl, key, ParseKey(ts).value, ParseKey(ts).rest);
  }

  lemma {:induction false} WithSeparator(fl: FloatTest, m: Member, sep: seq<Token>)
    requires ValidMember(fl, m) && Separator(sep)
    ensures var n := m.(behind := sep); ValidMember(fl, n) && FieldOf(n) == FieldOf(m) && AfterKey(n) == AfterKey(m)
  {
  }

  lemma {:induction false} MoreMembers(fl: FloatTest, m: Member, ms: seq<Member>)
    requires ValidMember(fl, m) && ValidMembers(fl, ms) && (ms != [] ==> m.behind != [])
    ensures ValidMembers(fl, [m] + ms) && WrittenMembers([m] + ms) == WrittenMember(m) + WrittenMembers(ms)
    ensures MeaningOfMembers([m] + ms) == [FieldOf(m)] + MeaningOfMembers(ms)
  {
    var all := [m] + ms;
    assert all[1..] == ms;
    FirstMember(all);
    forall i | 0 <= i < |all| ensures ValidMember(fl, all[i]) && (i + 1 < |all| ==> all[i].behind != []) {
      if i > 0 { assert all[i] == ms[i - 1]; }
    }
  }

  /** The end of the fields: the closing brace, or the end of the text. */
  predicate FieldsEnd(t: Token, braced: bool) {
    t.kind == if braced then TRBrace else TEof
  }

  lemma {:induction false} FieldsStop(fl: FloatTest, ts: seq<Token>, braced: bool)
    requires ParseFields(fl, ts, braced).Done? && FieldsEnd(Head(SkipNewlines(ts)), braced)
    ensures var s := SkipNewlines(ts);
            && ParseFields(fl, ts, braced) == Done([], if braced then s[1..] else s)
            && (braced ==> s != [] && s == [s[0]] + s[1..])
  {
  }

  lemma {:induction false} FieldsGoOn(fl: FloatTest, ts: seq<Token>, braced: bool)
    requires ParseFields(fl, ts, braced).Done? && !FieldsEnd(Head(SkipNewlines(ts)), braced)
    ensures var first := ParseField(fl, SkipNewlines(ts));
            && first.Done? && |first.rest| < |ts|
            && var more := ParseFields(fl, SkipSeparator(first.rest), braced);
               more.Done? && ParseFields(fl, ts, braced) == Done([first.value] + more.value, more.rest)
  {
  }

  /** The end of the fields as it stands in the tokens. */
  predicate Ending(end: seq<Token>, rest: seq<Token>, braced: bool) {
    FieldsEnd(Head(end), braced) && (if braced then end != [] && end == [end[0]] + rest else end == rest)
  }

  lemma {:induction false} PutMember(fl: FloatTest, m: Member, ms: seq<Member>, end: seq<Token>)
    ensures (WrittenMember(m) + WrittenMembers(ms)) + end ==
            m.key + (AfterKey(m) + (m.behind + (WrittenMembers(ms) + end)))
  {
    Assoc(WrittenMember(m), WrittenMembers(ms), end);
    MemberTokens(m, WrittenMembers(ms) + end);
  }

  lemma {:induction false} MembersStart(fl: FloatTest, ms: seq<Member>, ts: seq<Token>)
    requires ValidMembers(fl, ms) && ms != []
    ensures StartsKey(Head(WrittenMembers(ms) + ts).kind)
  {
    var m := ms[0];
    assert ValidMember(fl, m);
    MemberTokens(m, WrittenMembers(ms[1..]) + ts);
    Assoc(WrittenMember(m), WrittenMembers(ms[1..]), ts);
  }

  /** A field in front of others. */
  lemma {:induction false} PutField(fl: FloatTest, s: seq<Token>, first: Member, rest: seq<Token>, sep: seq<Token>,
                                    ms: seq<Member>, end: seq<Token>)
    requires ValidMember(fl, first) && first.behind == [] && Separator(sep) && ValidMembers(fl, ms)
    requires EndsValue(Head(rest).kind)
    requires s == first.key + (AfterKey(first) + rest) && rest == sep + (WrittenMembers(ms) + end)
    ensures var all := [first.(behind := sep)] + ms;
            && ValidMembers(fl, all) && s == WrittenMembers(all) + end
            && MeaningOfMembers(all) == [FieldOf(first)] + MeaningOfMembers(ms)
  {
    if sep == [] {
      assert rest == WrittenMembers(ms) + end;
      if ms != [] { MembersStart(fl, ms, end); }
    }
    var m := first.(behind := sep);
    WithSeparator(fl, first, sep);
    MoreMembers(fl, m, ms);
    PutMember(fl, m, ms, end);
  }

  lemma {:induction false} FieldsWere(fl: FloatTest, ts: seq<Token>, braced: bool)
    returns (lead: seq<Token>, ms: seq<Member>, end: seq<Token>)
    requires ParseFields(fl, ts, braced).Done?
    ensures var r := ParseFields(fl, ts, braced);
            && Newlines(lead) && ValidMembers(fl, ms) && MeaningOfMembers(ms) == r.value
            && Ending(end, r.rest, braced) && ts == lead + (WrittenMembers(ms) + end)
            && (Head(ts).kind != TNewline ==> lead == [])
    decreases |ts|, 7
  {
    lead := SkippedNewlines(ts);
    var s := SkipNewlines(ts);
    if Head(ts).kind != TNewline { NoLead(ts, lead); }
    if FieldsEnd(Head(s), braced) {
      FieldsStop(fl, ts, braced);
      ms, end := [], s;
      assert [] + s == s && MeaningOfMembers([]) == [];
    } else {
      FieldsGoOn(fl, ts, braced);
      ms, end := SomeFields(fl, ts, s, braced);
    }
  }

  lemma {:induction false} SomeFields(fl: FloatTest, ts: seq<Token>, s: seq<Token>, braced: bool)
    returns (ms: seq<Member>, end: seq<Token>)
    requires ParseFields(fl, ts, braced).Done? && s == SkipNewlines(ts) && |s| <= |ts|
    requires var first := ParseField(fl, s);
             && first.Done? && |first.rest| < |ts|
             && var more := ParseFields(fl, SkipSeparator(first.rest), braced);
                more.Done? && ParseFields(fl, ts, braced) == Done([first.value] + more.value, more.rest)
    ensures var r := ParseFields(fl, ts, braced);
            && ValidMembers(fl, ms) && MeaningOfMembers(ms) == r.value && Ending(end, r.rest, braced)
            && s == WrittenMembers(ms) + end
    decreases |ts|, 6
  {
    var first := FieldWas(fl, s);
    var rest := ParseField(fl, s).rest;
    var sep := SkippedSeparator(rest);
    NextHead(rest);
    var nl, more, tail := FieldsWere(fl, SkipSeparator(rest), braced);
    Nothing(nl, WrittenMembers(more) + tail);
    PutField(fl, s, first, rest, sep, more, tail);
    ms, end := [first.(behind := sep)] + more, tail;
  }

  // ---------- exactly the grammar ----------

  ghost predicate IsValue(fl: FloatTest, ts: seq<Token>, node: Node, rest: seq<Token>, lead: seq<Token>, w: Writing) {
    && Newlines(lead) && Valid(fl, w) && ts == lead + (Written(w) + rest) && Meaning(w) == node
    && EndsValue(Head(rest).kind)
  }

  /** A value is parsed exactly where one is written, up to what ends it. */
  lemma {:induction false} ValuesExactly(fl: FloatTest, ts: seq<Token>, node: Node, rest: seq<Token>)
    ensures ParseValue(fl, ts) == Done(node, rest) <==> exists lead, w :: IsValue(fl, ts, node, rest, lead, w)
  {
    if ParseValue(fl, ts) == Done(node, rest) {
      var lead, w := ValueWas(fl, ts);
      assert IsValue(fl, ts, node, rest, lead, w);
    }
    if lead, w :| IsValue(fl, ts, node, rest, lead, w) {
      SkipsToValue(fl, lead, Written(w) + rest);
      ParsesValue(fl, w, rest);
    }
  }

  ghost predicate IsDocument(fl: FloatTest, ts: seq<Token>, fields: seq<NField>, rest: seq<Token>, lead: seq<Token>,
                             ms: seq<Member>) {
    && Newlines(lead) && ValidMembers(fl, ms) && ts == lead + (WrittenMembers(ms) + rest)
    && MeaningOfMembers(ms) == fields && Head(rest).kind == TEof
  }

  /** A document without root braces is parsed exactly when it is written as fields
      up to the end, and to what these fields mean. */
  lemma {:induction false} DocumentsExactly(fl: FloatTest, ts: seq<Token>, fields: seq<NField>, rest: seq<Token>)
    ensures ParseRoot(fl, ts) == Done(fields, rest) <==>
            exists lead, ms :: IsDocument(fl, ts, fields, rest, lead, ms)
  {
    if ParseRoot(fl, ts) == Done(fields, rest) {
      var s := SkipNewlines(ts);
      var lead := SkippedNewlines(ts);
      var none, ms, end := FieldsWere(fl, s, false);
      assert [] + (WrittenMembers(ms) + end) == WrittenMembers(ms) + end;
      assert IsDocument(fl, ts, fields, rest, lead, ms);
    }
    if lead, ms :| IsDocument(fl, ts, fields, rest, lead, ms) {
      ParsesDocument(fl, lead, ms, rest);
    }
  }
}
