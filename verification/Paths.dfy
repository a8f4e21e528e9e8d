/**
 Path keys.  The resolver names a path, a list of segment texts, by one string
 (internal/resolver/path.go), and the public getters read such a string back
 (splitPath in config.go).  Every map of the resolver is keyed by these strings,
 so the two directions have to be inverse to each other.
 */
module Paths {

  /** Which characters the Unicode tables call a letter or a digit.  The tables
      themselves are a parameter: all that matters is that the three characters
      with a meaning in a key are in neither. */
  type LetterTest = f: char -> bool | !f('.') && !f('"') && !f('\\')
    witness c => 'a' <= c <= 'z'

  datatype Option<+T> = None | Some(value: T)

  predicate KeyChar(lt: LetterTest, c: char) {
    lt(c) || c == '-' || c == '_'
  }

  predicate NeedsQuoting(lt: LetterTest, s: string) {
    s == "" || exists i | 0 <= i < |s| :: !KeyChar(lt, s[i])
  }

  // ---------- printing a key ----------

  /** strings.ReplaceAll of a single character. */
  function ReplaceAll(s: string, c: char, into: string): string {
    if s == "" then "" else (if s[0] == c then into else [s[0]]) + ReplaceAll(s[1..], c, into)
  }

  function Escape(s: string): string {
    ReplaceAll(ReplaceAll(s, '\\', "\\\\"), '"', "\\\"")
  }

  function Part(lt: LetterTest, s: string): string {
    if NeedsQuoting(lt, s) then "\"" + Escape(s) + "\"" else s
  }

  /** strings.Join with a dot. */
  function Join(parts: seq<string>): string {
    if parts == [] then "" else if |parts| == 1 then parts[0] else parts[0] + "." + Join(parts[1..])
  }

  function Parts(lt: LetterTest, segs: seq<string>): (parts: seq<string>) {
    seq(|segs|, i requires 0 <= i < |segs| => Part(lt, segs[i]))
  }

  function KeyOf(lt: LetterTest, segs: seq<string>): string {
    Join(Parts(lt, segs))
  }

  // ---------- reading a key ----------

  datatype Quoted = Quoted(text: string, closed: bool, rest: string)

  /** The part of a quoted segment after its opening quote. */
  function ReadQuoted(s: string): (q: Quoted)
    ensures |q.rest| <= |s|
  {
    if s == "" then Quoted("", false, "")
    else if s[0] == '\\' && |s| > 1 then
      var q := ReadQuoted(s[2..]);
      q.(text := [s[1]] + q.text)
    else if s[0] == '"' then Quoted("", true, s[1..])
    else
      var q := ReadQuoted(s[1..]);
      q.(text := [s[0]] + q.text)
  }

  /** strings.IndexByte for a dot, with the length standing for "not found". */
  function IndexDot(s: string): (d: nat)
    ensures d <= |s|
    ensures forall i | 0 <= i < d :: s[i] != '.'
    ensures d < |s| ==> s[d] == '.'
  {
    if s == "" || s[0] == '.' then 0 else 1 + IndexDot(s[1..])
  }

  /** strings.Split on a dot. */
  function SplitDots(s: string): (r: seq<string>)
    ensures r != []
    decreases |s|
  {
    var d := IndexDot(s);
    if d == |s| then [s] else [s[..d]] + SplitDots(s[d + 1..])
  }

  function SkipDot(s: string): (r: string)
    ensures |r| <= |s|
  {
    if s != "" && s[0] == '.' then s[1..] else s
  }

  function SplitPath(path: string): seq<string>
    decreases |path|
  {
    if path == "" then []
    else if path[0] == '"' then
      var q := ReadQuoted(path[1..]);
      if q.closed then [q.text] + SplitPath(SkipDot(q.rest)) else [q.text]
    else
      var d := IndexDot(path);
      if d == |path| then [path] else [path[..d]] + SplitPath(path[d + 1..])
  }

  // ---------- the loops of the source ----------

  method NeedsQuotingScan(lt: LetterTest, s: string) returns (quote: bool)
    ensures quote == NeedsQuoting(lt, s)
  {
    if s == "" {
      return true;
    }
    for i := 0 to |s|
      invariant forall j | 0 <= j < i :: KeyChar(lt, s[j])
    {
      if !KeyChar(lt, s[i]) {
        return true;
      }
    }
    return false;
  }

  method SegmentsToKey(lt: LetterTest, segs: seq<string>) returns (key: string)
    ensures key == KeyOf(lt, segs)
    ensures SplitPath(key) == segs
  {
    var parts := new string[|segs|];
    for i := 0 to |segs|
      invariant forall j | 0 <= j < i :: parts[j] == Part(lt, segs[j])
    {
      var quote := NeedsQuotingScan(lt, segs[i]);
      if quote {
        parts[i] := "\"" + Escape(segs[i]) + "\"";
      } else {
        parts[i] := segs[i];
      }
    }
    assert parts[..] == Parts(lt, segs);
    key := Join(parts[..]);
    SplitPathInvertsKeyOf(lt, segs);
  }

  /** The two readers with what was read so far in front. */
  ghost function ReadOnto(seg: string, s: string): Quoted {
    ReadQuoted(s).(text := seg + ReadQuoted(s).text)
  }

  lemma {:induction false} ReadOntoStep(seg: string, path: string, i: nat)
    requires i < |path|
    ensures ReadOnto(seg, path[i..]) ==
            if path[i] == '\\' && i + 1 < |path| then ReadOnto(seg + [path[i + 1]], path[i + 2..])
            else if path[i] == '"' then Quoted(seg, true, path[i + 1..])
            else ReadOnto(seg + [path[i]], path[i + 1..])
  {
    var s := path[i..];
    assert s[1..] == path[i + 1..];
    if path[i] == '\\' && i + 1 < |path| {
      assert s[2..] == path[i + 2..];
      MoveOne(seg, path[i + 1], ReadQuoted(path[i + 2..]).text);
    } else if path[i] == '"' {
      assert seg + [] == seg;
    } else {
      MoveOne(seg, path[i], ReadQuoted(path[i + 1..]).text);
    }
  }

  lemma {:induction false} MoveOne<T>(done: seq<T>, x: T, rest: seq<T>)
    ensures done + ([x] + rest) == (done + [x]) + rest
  {
  }

  /** The inner loop of splitPath, from just after an opening quote. */
  method ReadQuotedScan(path: string, start: nat) returns (seg: string, closed: bool, i: nat)
    requires start <= |path|
    ensures start <= i <= |path|
    ensures ReadQuoted(path[start..]) == Quoted(seg, closed, path[i..])
  {
    i, seg, closed := start, "", false;
    ghost var q := ReadQuoted(path[start..]);
    assert "" + q.text == q.text;
    while i < |path| && !closed
      invariant start <= i <= |path|
      invariant q == if closed then Quoted(seg, true, path[i..]) else ReadOnto(seg, path[i..])
    {
      ReadOntoStep(seg, path, i);
      if path[i] == '\\' && i + 1 < |path| {
        seg := seg + [path[i + 1]];
        i := i + 2;
      } else if path[i] == '"' {
        closed := true;
        i := i + 1;
      } else {
        seg := seg + [path[i]];
        i := i + 1;
      }
    }
    assert !closed ==> ReadQuoted(path[i..]) == Quoted("", false, path[i..]) && seg + "" == seg;
  }

  ghost function SplitOnto(segments: seq<string>, s: string): seq<string> {
    segments + SplitPath(s)
  }

  /** After a quoted segment that ran from i to end. */
  lemma {:induction false} SplitQuotedStep(segments: seq<string>, path: string, i: nat, q: Quoted, end: nat)
    requires i < |path| && path[i] == '"' && i + 1 <= end <= |path|
    requires ReadQuoted(path[i + 1..]) == q && q.rest == path[end..]
    ensures SplitOnto(segments, path[i..]) ==
            if !q.closed then segments + [q.text]
            else if end < |path| && path[end] == '.' then SplitOnto(segments + [q.text], path[end + 1..])
            else SplitOnto(segments + [q.text], path[end..])
  {
    assert path[i..][1..] == path[i + 1..];
    if q.closed {
      assert end < |path| ==> path[end..][1..] == path[end + 1..];
      MoveOne(segments, q.text, SplitPath(SkipDot(path[end..])));
    }
  }

  lemma {:induction false} SplitBareStep(segments: seq<string>, path: string, i: nat, dot: nat)
    requires i < |path| && path[i] != '"' && dot == IndexDot(path[i..])
    ensures SplitOnto(segments, path[i..]) ==
            if dot == |path| - i then segments + [path[i..]]
            else SplitOnto(segments + [path[i..i + dot]], path[i + dot + 1..])
  {
    if dot < |path| - i {
      assert path[i..][dot + 1..] == path[i + dot + 1..];
      assert path[i..][..dot] == path[i..i + dot];
      MoveOne(segments, path[i..i + dot], SplitPath(path[i + dot + 1..]));
    }
  }

  method SplitPathScan(path: string) returns (segments: seq<string>)
    ensures segments == SplitPath(path)
  {
    segments := [];
    var i := 0;
    ghost var all := SplitPath(path);
    assert path[0..] == path && [] + all == all;
    while i < |path|
      invariant 0 <= i <= |path|
      invariant all == SplitOnto(segments, path[i..])
    {
      if path[i] == '"' {
        var seg, closed, end := ReadQuotedScan(path, i + 1);
        SplitQuotedStep(segments, path, i, Quoted(seg, closed, path[end..]), end);
        segments := segments + [seg];
        if !closed {
          return;
        }
        i := if end < |path| && path[end] == '.' then end + 1 else end;
      } else {
        var dot := IndexDot(path[i..]);
        SplitBareStep(segments, path, i, dot);
        if dot == |path| - i {
          segments := segments + [path[i..]];
          return;
        }
        segments := segments + [path[i..i + dot]];
        i := i + dot + 1;
      }
    }
    assert segments + [] == segments;
  }

  // ---------- the round trip ----------

  lemma {:induction false} EscapeUnfold(c: char, s: string)
    ensures Escape([c] + s) ==
            (if c == '\\' then "\\\\" else if c == '"' then "\\\"" else [c]) + Escape(s)
  {
    assert ([c] + s)[1..] == s;
    var r := ReplaceAll(s, '\\', "\\\\");
    if c == '\\' {
      assert ReplaceAll([c] + s, '\\', "\\\\") == ['\\', '\\'] + r;
      assert (['\\', '\\'] + r)[1..] == ['\\'] + r && (['\\'] + r)[1..] == r;
      assert ReplaceAll(['\\'] + r, '"', "\\\"") == ['\\'] + Escape(s);
      assert ['\\'] + (['\\'] + Escape(s)) == "\\\\" + Escape(s);
    } else {
      assert ReplaceAll([c] + s, '\\', "\\\\") == [c] + r;
      assert ([c] + r)[1..] == r;
    }
  }

  lemma {:induction false} Assoc<T>(a: seq<T>, b: seq<T>, c: seq<T>)
    ensures (a + b) + c == a + (b + c)
  {
  }

  lemma {:induction false} ReadEscaped(c: char, t: string)
    ensures ReadQuoted(['\\', c] + t) == ReadQuoted(t).(text := [c] + ReadQuoted(t).text)
  {
    assert (['\\', c] + t)[2..] == t;
  }

  lemma {:induction false} ReadPlain(c: char, t: string)
    requires c != '\\' && c != '"'
    ensures ReadQuoted([c] + t) == ReadQuoted(t).(text := [c] + ReadQuoted(t).text)
  {
    assert ([c] + t)[1..] == t;
  }

  lemma {:induction false} QuotedRoundTrip(s: string, rest: string)
    ensures ReadQuoted(Escape(s) + ("\"" + rest)) == Quoted(s, true, rest)
  {
    var close := "\"" + rest;
    if s == "" {
      assert Escape(s) + close == close && close[1..] == rest;
    } else {
      var e := Escape(s[1..]);
      QuotedRoundTrip(s[1..], rest);
      assert s == [s[0]] + s[1..];
      EscapeUnfold(s[0], s[1..]);
      if s[0] == '\\' || s[0] == '"' {
        Assoc(['\\', s[0]], e, close);
        ReadEscaped(s[0], e + close);
      } else {
        Assoc([s[0]], e, close);
        ReadPlain(s[0], e + close);
      }
    }
  }

  lemma {:induction false} IndexDotBare(s: string, rest: string)
    requires forall i | 0 <= i < |s| :: s[i] != '.'
    ensures IndexDot(s + "." + rest) == |s|
    ensures IndexDot(s) == |s|
  {
    var d := IndexDot(s + "." + rest);
    assert (s + "." + rest)[|s|] == '.';
    assert forall i | 0 <= i < |s| :: (s + "." + rest)[i] == s[i];
  }

  /** One printed segment, at the end of the key or before more of it. */
  lemma {:induction false} PartRoundTrip(lt: LetterTest, s: string, rest: string)
    ensures SplitPath(Part(lt, s)) == [s]
    ensures SplitPath(Part(lt, s) + "." + rest) == [s] + SplitPath(rest)
  {
    if NeedsQuoting(lt, s) {
      QuotedPartRoundTrip(lt, s, rest);
    } else {
      assert forall i | 0 <= i < |s| :: KeyChar(lt, s[i]);
      IndexDotBare(s, rest);
      assert (s + "." + rest)[|s| + 1..] == rest;
      assert (s + "." + rest)[..|s|] == s;
    }
  }

  /** A quoted segment, whatever text follows it. */
  lemma {:induction false} QuotedSegment(s: string, tail: string)
    ensures SplitPath("\"" + Escape(s) + "\"" + tail) == [s] + SplitPath(SkipDot(tail))
  {
    var whole := "\"" + Escape(s) + "\"" + tail;
    QuotedRoundTrip(s, tail);
    assert whole[1..] == Escape(s) + ("\"" + tail) && whole[0] == '"';
  }

  lemma {:induction false} QuotedPartRoundTrip(lt: LetterTest, s: string, rest: string)
    requires NeedsQuoting(lt, s)
    ensures SplitPath(Part(lt, s)) == [s]
    ensures SplitPath(Part(lt, s) + "." + rest) == [s] + SplitPath(rest)
  {
    QuotedSegment(s, "");
    assert Part(lt, s) + "" == Part(lt, s) && [s] + [] == [s];
    QuotedSegment(s, "." + rest);
    Assoc(Part(lt, s), ".", rest);
    assert ("." + rest)[1..] == rest;
  }

  lemma {:induction false} KeyOfUnfold(lt: LetterTest, segs: seq<string>)
    requires segs != []
    ensures KeyOf(lt, segs) ==
            if |segs| == 1 then Part(lt, segs[0]) else Part(lt, segs[0]) + "." + KeyOf(lt, segs[1..])
  {
    assert Parts(lt, segs)[1..] == Parts(lt, segs[1..]);
  }

  lemma {:induction false} PlainKey(lt: LetterTest, k: string)
    requires !NeedsQuoting(lt, k)
    ensures KeyOf(lt, [k]) == k
  {
    assert Parts(lt, [k]) == [k];
  }

  /** Reading a printed key gives back its segments, whatever they contain. */
  lemma {:induction false} SplitPathInvertsKeyOf(lt: LetterTest, segs: seq<string>)
    ensures SplitPath(KeyOf(lt, segs)) == segs
  {
    if segs == [] {
    } else {
      KeyOfUnfold(lt, segs);
      PartRoundTrip(lt, segs[0], KeyOf(lt, segs[1..]));
      SplitPathInvertsKeyOf(lt, segs[1..]);
    }
  }

  /** Two paths never share a key. */
  lemma {:induction false} KeysNeverCollide(lt: LetterTest, a: seq<string>, b: seq<string>)
    ensures KeyOf(lt, a) == KeyOf(lt, b) <==> a == b
  {
    SplitPathInvertsKeyOf(lt, a);
    SplitPathInvertsKeyOf(lt, b);
  }

  lemma {:induction false} KeyOfAppend(lt: LetterTest, p: seq<string>, rem: seq<string>)
    requires p != [] && rem != []
    ensures KeyOf(lt, p + rem) == KeyOf(lt, p) + "." + KeyOf(lt, rem)
  {
    KeyOfUnfold(lt, p + rem);
    KeyOfUnfold(lt, p);
    if |p| == 1 {
      assert (p + rem)[1..] == rem;
    } else {
      assert (p + rem)[1..] == p[1..] + rem;
      KeyOfAppend(lt, p[1..], rem);
      var first, mid, last := Part(lt, p[0]) + ".", KeyOf(lt, p[1..]), KeyOf(lt, rem);
      Assoc(first, mid + ".", last);
      Assoc(first, mid, ".");
    }
  }

  // ---------- prefix references ----------

  /** substPrefixRemainder: the segments below fullKey when fullKey names a
      proper prefix of the path. */
  function PrefixRemainder(lt: LetterTest, texts: seq<string>, fullKey: string): Option<seq<string>> {
    if fullKey + "." <= KeyOf(lt, texts) then RemainderFrom(lt, texts, fullKey, 1) else None
  }

  function RemainderFrom(lt: LetterTest, texts: seq<string>, fullKey: string, n: nat): (r: Option<seq<string>>)
    ensures r.Some? ==> exists i | n <= i < |texts| :: KeyOf(lt, texts[..i]) == fullKey && r.value == texts[i..]
    ensures r.None? ==> forall i | n <= i < |texts| :: KeyOf(lt, texts[..i]) != fullKey
    decreases |texts| - n
  {
    if n >= |texts| then None
    else if KeyOf(lt, texts[..n]) == fullKey then Some(texts[n..])
    else RemainderFrom(lt, texts, fullKey, n + 1)
  }

  /** A reference has a remainder below the key of p exactly when its path is p
      followed by one or more further segments. */
  lemma {:induction false} RemainderIsExact(lt: LetterTest, texts: seq<string>, p: seq<string>)
    requires p != []
    ensures PrefixRemainder(lt, texts, KeyOf(lt, p)) ==
            if p < texts then Some(texts[|p|..]) else None
  {
    var key := KeyOf(lt, p);
    if p < texts {
      var rem := texts[|p|..];
      assert texts == p + rem;
      KeyOfAppend(lt, p, rem);
      assert texts[..|p|] == p;
      var r := RemainderFrom(lt, texts, key, 1);
      forall i | 1 <= i < |texts| && KeyOf(lt, texts[..i]) == key ensures i == |p| {
        KeysNeverCollide(lt, texts[..i], p);
      }
    } else {
      forall i | 1 <= i < |texts| ensures KeyOf(lt, texts[..i]) != key {
        KeysNeverCollide(lt, texts[..i], p);
      }
    }
  }
}
