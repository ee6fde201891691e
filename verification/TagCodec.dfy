/**
  The hand-written printer and parser that store an event's tags in one text column.
  Text is a sequence of code points. `PrintedTags` and `ParsedTags` say what the
  loops of tagsToJSON and parseTagsJSON compute; parsing undoes printing exactly
  on the tag lists of `InDomain`.
 */
module TagCodec {

  type Tag = seq<string>

  // ---------- library string functions ----------

  /** Unicode White_Space, what strings.TrimSpace strips. */
  predicate IsSpace(c: char) {
    || '\t' <= c <= '\r' || c == ' ' || c == '\U{0085}' || c == '\U{00A0}' || c == '\U{1680}'
    || '\U{2000}' <= c <= '\U{200A}' || c == '\U{2028}' || c == '\U{2029}' || c == '\U{202F}'
    || c == '\U{205F}' || c == '\U{3000}'
  }

  function TrimLeft(s: string): string {
    if s != "" && IsSpace(s[0]) then TrimLeft(s[1..]) else s
  }

  function TrimRight(s: string): string {
    if s != "" && IsSpace(s[|s| - 1]) then TrimRight(s[..|s| - 1]) else s
  }

  function TrimSpace(s: string): string {
    TrimRight(TrimLeft(s))
  }

  /** By code point: tab to carriage return, space, next line, the no-break and the typographic spaces, and the separators. */
  lemma SpacesByCodePoint(c: char)
    ensures var n := c as int;
            IsSpace(c) <==>
              9 <= n <= 13 || 8192 <= n <= 8202 || n in {32, 133, 160, 5760, 8232, 8233, 8239, 8287, 12288}
  {
  }

  ghost predicate Blank(s: string) {
    forall i :: 0 <= i < |s| ==> IsSpace(s[i])
  }

  /** What is stripped at either end is white space, and what is left neither begins nor ends with it. */
  lemma TrimSpaceIsExact(s: string) returns (a: string, b: string)
    ensures s == a + TrimSpace(s) + b && Blank(a) && Blank(b)
    ensures TrimSpace(s) != "" ==> !IsSpace(TrimSpace(s)[0]) && !IsSpace(TrimSpace(s)[|TrimSpace(s)| - 1])
  {
    a := StrippedLeft(s);
    b := StrippedRight(TrimLeft(s));
  }

  lemma {:induction false} StrippedLeft(s: string) returns (a: string)
    ensures s == a + TrimLeft(s) && Blank(a)
    ensures TrimLeft(s) != "" ==> !IsSpace(TrimLeft(s)[0])
  {
    a := "";
    if s != "" && IsSpace(s[0]) {
      a := StrippedLeft(s[1..]);
      a := [s[0]] + a;
    }
  }

  lemma {:induction false} StrippedRight(s: string) returns (b: string)
    ensures s == TrimRight(s) + b && Blank(b)
    ensures TrimRight(s) != "" ==> !IsSpace(TrimRight(s)[|TrimRight(s)| - 1]) && TrimRight(s)[0] == s[0]
  {
    b := "";
    if s != "" && IsSpace(s[|s| - 1]) {
      b := StrippedRight(s[..|s| - 1]);
      b := b + [s[|s| - 1]];
    }
  }

  /** strings.ReplaceAll: left to right, without overlap. */
  function ReplaceAll(s: string, old_: string, new_: string): string
    requires old_ != ""
    decreases |s|
  {
    if s == "" then ""
    else if old_ <= s then new_ + ReplaceAll(s[|old_|..], old_, new_)
    else [s[0]] + ReplaceAll(s[1..], old_, new_)
  }

  /** strings.Join with a comma. */
  function Join(xs: seq<string>): string {
    if xs == [] then "" else if |xs| == 1 then xs[0] else xs[0] + "," + Join(xs[1..])
  }

  /** strings.Split at every comma; `current` is the piece read so far. */
  function SplitCommas(s: string, current: string): seq<string>
    decreases |s|
  {
    if s == "" then [current]
    else if s[0] == ',' then [current] + SplitCommas(s[1..], "")
    else SplitCommas(s[1..], current + [s[0]])
  }

  predicate Bracketed(s: string, open: char, close: char) {
    |s| >= 2 && s[0] == open && s[|s| - 1] == close
  }

  function Inner(s: string): string
    requires |s| >= 2
  {
    s[1..|s| - 1]
  }

  // ---------- printing ----------

  function Escape(s: string): string { ReplaceAll(s, "\"", "\\\"") }

  function Unescape(s: string): string { ReplaceAll(s, "\\\"", "\"") }

  function PrintedPart(p: string): string { "\"" + Escape(p) + "\"" }

  function PrintedParts(tag: Tag): seq<string> {
    seq(|tag|, i requires 0 <= i < |tag| => PrintedPart(tag[i]))
  }

  function PrintedTag(tag: Tag): string { "[" + Join(PrintedParts(tag)) + "]" }

  function PrintedTags(tags: seq<Tag>): string {
    "[" + Join(seq(|tags|, i requires 0 <= i < |tags| => PrintedTag(tags[i]))) + "]"
  }

  // ---------- parsing ----------

  function Nesting(c: char): int {
    if c == '[' then 1 else if c == ']' then -1 else 0
  }

  /** Cuts at the commas read at bracket depth zero; quotes are not looked at. */
  function SplitTop(s: string, depth: int, current: string): (pieces: seq<string>)
    ensures pieces != []
    decreases |s|
  {
    if s == "" then [current]
    else if s[0] == ',' && depth == 0 then [current] + SplitTop(s[1..], 0, "")
    else SplitTop(s[1..], depth + Nesting(s[0]), current + [s[0]])
  }

  function ParsedPart(piece: string): string {
    var p := TrimSpace(piece);
    if Bracketed(p, '"', '"') then Unescape(Inner(p)) else p
  }

  /** A nil tag and an empty one are both the empty sequence. */
  function ParsedTag(tagStr: string): Tag {
    var t := TrimSpace(tagStr);
    if !Bracketed(t, '[', ']') || Inner(t) == "" then []
    else
      var pieces := SplitCommas(Inner(t), "");
      seq(|pieces|, i requires 0 <= i < |pieces| => ParsedPart(pieces[i]))
  }

  function ParsedPieces(pieces: seq<string>): seq<Tag> {
    if pieces == [] then []
    else
      var t := TrimSpace(pieces[0]);
      (if t == "" then [] else [ParsedTag(t)]) + ParsedPieces(pieces[1..])
  }

  function ParsedTags(json: string): seq<Tag> {
    var t := TrimSpace(json);
    if !Bracketed(t, '[', ']') || Inner(t) == "" then [] else ParsedPieces(SplitTop(Inner(t), 0, ""))
  }

  // ---------- the loops ----------

  lemma PartAppends(tag: Tag, i: nat)
    requires i < |tag|
    ensures Opened(tag, i + 1) == Opened(tag, i) + (if i > 0 then "," else "") + PrintedPart(tag[i])
  {
    var parts := PrintedParts(tag);
    JoinAppends(parts[..i], parts[i]);
    assert parts[..i + 1] == parts[..i] + [parts[i]];
  }

  /** The text of a tag up to its i-th part. */
  function Opened(tag: Tag, i: nat): string
    requires i <= |tag|
  {
    "[" + Join(PrintedParts(tag)[..i])
  }

  method PrintTag(tag: Tag) returns (tagStr: string)
    ensures tagStr == PrintedTag(tag)
  {
    tagStr := "[";
    for i := 0 to |tag|
      invariant tagStr == Opened(tag, i)
    {
      PartAppends(tag, i);
      if i > 0 {
        tagStr := tagStr + ",";
      }
      tagStr := tagStr + PrintedPart(tag[i]);
    }
    assert PrintedParts(tag)[..|tag|] == PrintedParts(tag);
    tagStr := tagStr + "]";
  }

  method TagsToJSON(tags: seq<Tag>) returns (json: string)
    ensures json == PrintedTags(tags)
  {
    if |tags| == 0 {
      return "[]";
    }
    var tagStrings: seq<string> := [];
    for t := 0 to |tags|
      invariant tagStrings == seq(t, i requires 0 <= i < t => PrintedTag(tags[i]))
    {
      var tagStr := PrintTag(tags[t]);
      tagStrings := tagStrings + [tagStr];
    }
    return "[" + Join(tagStrings) + "]";
  }

  lemma {:induction false} JoinAppends(xs: seq<string>, x: string)
    ensures Join(xs + [x]) == if xs == [] then x else Join(xs) + "," + x
  {
    if |xs| > 1 {
      JoinAppends(xs[1..], x);
      assert (xs + [x])[1..] == xs[1..] + [x];
    }
  }

  method ParseTagString(tagStr: string) returns (result: Tag)
    ensures result == ParsedTag(tagStr)
  {
    var t := TrimSpace(tagStr);
    if !Bracketed(t, '[', ']') {
      return [];
    }
    t := Inner(t);
    if t == "" {
      return [];
    }
    var parts := SplitCommas(t, "");
    result := [];
    for i := 0 to |parts|
      invariant result == seq(i, k requires 0 <= k < i => ParsedPart(parts[k]))
    {
      var part := TrimSpace(parts[i]);
      if Bracketed(part, '"', '"') {
        part := ReplaceAll(Inner(part), "\\\"", "\"");
      }
      result := result + [part];
    }
  }

  /** Reads a finished piece, unless it is blank. */
  method AppendTag(tags: seq<Tag>, piece: string) returns (r: seq<Tag>)
    ensures forall rest :: tags + ParsedPieces([piece] + rest) == r + ParsedPieces(rest)
  {
    forall rest { CutPiece(piece, rest); }
    r := tags;
    var tagStr := TrimSpace(piece);
    if tagStr == "" {
    } else {
      var tag := ParseTagString(tagStr);
      r := tags + [tag];
    }
  }

  /** One pass over the code points, cutting at commas outside brackets. */
  method ParseTagsJSON(json: string) returns (tags: seq<Tag>)
    ensures tags == ParsedTags(json)
  {
    tags := [];
    var s := TrimSpace(json);
    if !Bracketed(s, '[', ']') {
      return;
    }
    s := Inner(s);
    if s == "" {
      return;
    }
    var depth := 0;
    var current := "";
    for i := 0 to |s|
      invariant ParsedPieces(SplitTop(s, 0, "")) == tags + ParsedPieces(SplitTop(s[i..], depth, current))
    {
      assert s[i..][0] == s[i] && s[i..][1..] == s[i + 1..];
      if s[i] == ',' && depth == 0 {
        tags := AppendTag(tags, current);
        current := "";
      } else {
        if s[i] == '[' {
          depth := depth + 1;
        } else if s[i] == ']' {
          depth := depth - 1;
        }
        current := current + [s[i]];
      }
    }
    tags := AppendTag(tags, current);
    assert [current] + [] == [current];
  }

  lemma CutPiece(current: string, rest: seq<string>)
    ensures ParsedPieces([current] + rest) ==
            (if TrimSpace(current) == "" then [] else [ParsedTag(TrimSpace(current))]) + ParsedPieces(rest)
  {
    assert ([current] + rest)[1..] == rest;
  }

  // ---------- escaping ----------

  /** Quote escaping alone is undone on every string. */
  lemma {:induction false} UnescapeUndoesEscape(s: string)
    ensures Unescape(Escape(s)) == s
  {
    if s == "" {
    } else {
      UnescapeUndoesEscape(s[1..]);
      var t := Escape(s[1..]);
      assert s == [s[0]] + s[1..];
      if s[0] == '"' {
        assert Escape(s) == "\\\"" + t;
        assert ("\\\"" + t)[2..] == t;
      } else {
        assert Escape(s) == [s[0]] + t;
        EscapeNeverOpensWithQuote(s[1..]);
        assert ([s[0]] + t)[1..] == t;
      }
    }
  }

  lemma {:induction false} EscapeConcatenates(a: string, b: string)
    ensures Escape(a + b) == Escape(a) + Escape(b)
  {
    if a == "" {
      assert a + b == b;
    } else {
      assert (a + b)[1..] == a[1..] + b && (a + b)[0] == a[0];
      EscapeConcatenates(a[1..], b);
      if a[0] == '"' {
        assert Escape(a + b) == "\\\"" + Escape(a[1..] + b) && Escape(a) == "\\\"" + Escape(a[1..]);
      } else {
        assert Escape(a + b) == [a[0]] + Escape(a[1..] + b) && Escape(a) == [a[0]] + Escape(a[1..]);
      }
    }
  }

  /** Escaping puts a backslash before each quote and leaves everything else alone. */
  lemma EscapeIsBackslash(a: string, b: string)
    requires '"' !in a
    ensures Escape(a) == a && Escape(a + "\"" + b) == a + "\\\"" + Escape(b)
  {
    EscapeKeeps(a);
    EscapeConcatenates(a, "\"" + b);
    EscapeConcatenates("\"", b);
    assert a + "\"" + b == a + ("\"" + b);
    assert Escape("\"") == "\\\"";
  }

  lemma {:induction false} EscapeKeeps(a: string)
    requires '"' !in a
    ensures Escape(a) == a
  {
    if a == "" {
    } else {
      EscapeKeeps(a[1..]);
      assert a == [a[0]] + a[1..];
    }
  }

  /** The text of one tag of two parts and one of a single part. */
  lemma PrintedForm(p: string, q: string, r: string)
    ensures PrintedTags([[p, q], [r]]) ==
            "[" + (("[\"" + Escape(p) + "\",\"" + Escape(q) + "\"]") + "," + ("[\"" + Escape(r) + "\"]")) + "]"
  {
    PrintedPair(p, q);
    PrintedSingle(r);
    PrintedTwo([p, q], [r]);
  }

  lemma PrintedTwo(one: Tag, two: Tag)
    ensures PrintedTags([one, two]) == "[" + (PrintedTag(one) + "," + PrintedTag(two)) + "]"
  {
    var tags := [one, two];
    assert seq(2, i requires 0 <= i < 2 => PrintedTag(tags[i])) == [PrintedTag(one), PrintedTag(two)];
    JoinTwo(PrintedTag(one), PrintedTag(two));
  }

  lemma PrintedPair(p: string, q: string)
    ensures PrintedTag([p, q]) == "[\"" + Escape(p) + "\",\"" + Escape(q) + "\"]"
  {
    assert PrintedParts([p, q]) == [PrintedPart(p), PrintedPart(q)];
    JoinTwo(PrintedPart(p), PrintedPart(q));
  }

  lemma PrintedSingle(r: string)
    ensures PrintedTag([r]) == "[\"" + Escape(r) + "\"]"
  {
    assert PrintedParts([r]) == [PrintedPart(r)];
  }

  lemma JoinTwo(a: string, b: string)
    ensures Join([a, b]) == a + "," + b
  {
    assert [a, b][1..] == [b];
  }

  lemma EscapeNeverOpensWithQuote(s: string)
    ensures Escape(s) == "" || Escape(s)[0] != '"'
  {
  }

  // ---------- counting ----------

  function Commas(s: string): nat {
    if s == "" then 0 else (if s[0] == ',' then 1 else 0) + Commas(s[1..])
  }

  function Net(s: string): int {
    if s == "" then 0 else Nesting(s[0]) + Net(s[1..])
  }

  lemma {:induction false} Counts(a: string, b: string)
    ensures Commas(a + b) == Commas(a) + Commas(b)
    ensures Net(a + b) == Net(a) + Net(b)
  {
    if a == "" {
      assert a + b == b;
    } else {
      Counts(a[1..], b);
      assert (a + b)[1..] == a[1..] + b;
    }
  }

  lemma {:induction false} EscapeCounts(s: string)
    ensures Commas(Escape(s)) == Commas(s) && Net(Escape(s)) == Net(s)
  {
    if s == "" {
    } else {
      EscapeCounts(s[1..]);
      var t := Escape(s[1..]);
      if s[0] == '"' {
        assert Escape(s) == "\\\"" + t;
        Counts("\\\"", t);
        assert Commas("\\\"") == 0 && Net("\\\"") == 0 by { assert "\\\""[1..] == "\""; }
      } else {
        assert Escape(s) == [s[0]] + t;
        Counts([s[0]], t);
      }
    }
  }

  lemma PrintedPartCounts(p: string)
    ensures Commas(PrintedPart(p)) == Commas(p) && Net(PrintedPart(p)) == Net(p)
  {
    EscapeCounts(p);
    Counts("\"", Escape(p));
    Counts("\"" + Escape(p), "\"");
  }

  // ---------- where parsing undoes printing ----------

  predicate CommaFree(xs: seq<string>) {
    forall i :: 0 <= i < |xs| ==> Commas(xs[i]) == 0
  }

  function NetAll(xs: seq<string>): int {
    if xs == [] then 0 else Net(xs[0]) + NetAll(xs[1..])
  }

  /** Starting at `depth`, the running bracket depth is not zero at any comma between two parts. */
  predicate Passes(xs: seq<string>, depth: int) {
    |xs| > 1 ==> depth + Net(xs[0]) != 0 && Passes(xs[1..], depth + Net(xs[0]))
  }

  predicate BracketsOk(tags: seq<Tag>) {
    tags != [] ==>
      && Passes(tags[0], 1)
      && (|tags| > 1 ==> NetAll(tags[0]) == 0 && BracketsOk(tags[1..]))
  }

  /** No comma in any part; depth never zero inside a tag, and zero again after each tag but the last. */
  predicate InDomain(tags: seq<Tag>) {
    (forall i :: 0 <= i < |tags| ==> CommaFree(tags[i])) && BracketsOk(tags)
  }

  /** The round trip holds exactly on `InDomain`. */
  lemma RoundTripExactly(tags: seq<Tag>)
    ensures ParsedTags(PrintedTags(tags)) == tags <==> InDomain(tags)
  {
    var prints := seq(|tags|, i requires 0 <= i < |tags| => PrintedTag(tags[i]));
    TrimKeepsEnds(PrintedTags(tags));
    if tags != [] {
      assert Join(prints) != "" && Inner(PrintedTags(tags)) == Join(prints);
      var pieces := SplitTop(Join(prints), 0, "");
      if InDomain(tags) || ParsedPieces(pieces) == tags {
        if ParsedPieces(pieces) == tags {
          PiecesAreCommaFree(pieces);
        }
        Pieces(tags, prints);
      }
    }
  }

  /** Parts whose brackets cancel out are in the domain, whatever quotes, backslashes and spaces they hold. */
  lemma {:induction false} BalancedPartsRoundTrip(tags: seq<Tag>)
    requires forall i, j :: 0 <= i < |tags| && 0 <= j < |tags[i]| ==> Commas(tags[i][j]) == 0 && Net(tags[i][j]) == 0
    ensures InDomain(tags) && ParsedTags(PrintedTags(tags)) == tags
  {
    if tags == [] {
    } else {
      FlatTagPasses(tags[0]);
      BalancedPartsRoundTrip(tags[1..]);
    }
    RoundTripExactly(tags);
  }

  lemma {:induction false} FlatTagPasses(tag: Tag)
    requires forall j :: 0 <= j < |tag| ==> Net(tag[j]) == 0
    ensures Passes(tag, 1) && NetAll(tag) == 0
  {
    if tag == [] {
    } else {
      FlatTagPasses(tag[1..]);
    }
  }

  // ---------- scanning ----------

  lemma {:induction false} SkipsCommaFree(a: string, s: string, depth: int, current: string)
    requires Commas(a) == 0
    ensures SplitTop(a + s, depth, current) == SplitTop(s, depth + Net(a), current + a)
    ensures SplitCommas(a + s, current) == SplitCommas(s, current + a)
    decreases |a|
  {
    if a == "" {
      assert a + s == s && current + a == current;
    } else {
      assert (a + s)[1..] == a[1..] + s && current + [a[0]] + a[1..] == current + a;
      SkipsCommaFree(a[1..], s, depth + Nesting(a[0]), current + [a[0]]);
    }
  }

  lemma {:induction false} FirstPiece(s: string, depth: int, current: string)
    ensures var ps := SplitTop(s, depth, current); ps != [] && current <= ps[0]
    decreases |s|
  {
    if s != "" && !(s[0] == ',' && depth == 0) {
      FirstPiece(s[1..], depth + Nesting(s[0]), current + [s[0]]);
    }
  }

  /** With the depth never zero between them, the parts of a tag are read through to the end. */
  lemma {:induction false} ScanPasses(tag: Tag, after: string, depth: int, current: string)
    requires tag != [] && CommaFree(tag) && Passes(tag, depth)
    ensures var s := Join(PrintedParts(tag));
            SplitTop(s + after, depth, current) == SplitTop(after, depth + NetAll(tag), current + s)
    decreases |tag|
  {
    var p, parts := PrintedPart(tag[0]), PrintedParts(tag);
    PrintedPartCounts(tag[0]);
    if |tag| == 1 {
      SkipsCommaFree(p, after, depth, current);
    } else {
      assert parts[1..] == PrintedParts(tag[1..]);
      var rest, d := Join(parts[1..]), depth + Net(tag[0]);
      assert Join(parts) + after == p + ("," + (rest + after));
      ReachesComma(p, rest + after, depth, current);
      assert current + p + "," + rest == current + Join(parts);
      ScanPasses(tag[1..], after, d, current + p + ",");
    }
  }

  /** Otherwise the first piece ends before the last comma between them. */
  lemma {:induction false} ScanStops(tag: Tag, after: string, depth: int, current: string)
    requires CommaFree(tag) && !Passes(tag, depth)
    ensures Commas(SplitTop(Join(PrintedParts(tag)) + after, depth, current)[0]) < Commas(current) + |tag| - 1
    decreases |tag|
  {
    var p, parts := PrintedPart(tag[0]), PrintedParts(tag);
    PrintedPartCounts(tag[0]);
    assert parts[1..] == PrintedParts(tag[1..]);
    var rest, d := Join(parts[1..]), depth + Net(tag[0]);
    assert Join(parts) + after == p + ("," + (rest + after));
    ReachesComma(p, rest + after, depth, current);
    Counts(current, p);
    if d != 0 {
      Counts(current + p, ",");
      ScanStops(tag[1..], after, d, current + p + ",");
    }
  }

  lemma ReachesComma(a: string, more: string, depth: int, current: string)
    requires Commas(a) == 0
    ensures var d := depth + Net(a);
            SplitTop(a + ("," + more), depth, current) ==
            if d == 0 then [current + a] + SplitTop(more, 0, "") else SplitTop(more, d, current + a + ",")
  {
    SkipsCommaFree(a, "," + more, depth, current);
    assert ("," + more)[1..] == more && current + a + [','] == current + a + ",";
  }

  lemma {:induction false} JoinCounts(tag: Tag)
    requires CommaFree(tag)
    ensures Commas(Join(PrintedParts(tag))) == if tag == [] then 0 else |tag| - 1
  {
    if tag == [] {
    } else {
      var parts := PrintedParts(tag);
      assert parts[1..] == PrintedParts(tag[1..]);
      PrintedPartCounts(tag[0]);
      JoinCounts(tag[1..]);
      if |tag| > 1 {
        CommaBetween(parts[0], Join(parts[1..]));
        assert Join(parts) == parts[0] + "," + Join(parts[1..]);
      }
    }
  }

  lemma CommaBetween(a: string, b: string)
    ensures Commas(a + "," + b) == Commas(a) + 1 + Commas(b)
  {
    Counts(a + ",", b);
    Counts(a, ",");
  }

  /** The depths are right for a first tag followed by `more`. */
  predicate DepthsOk(tag: Tag, more: string) {
    Passes(tag, 1) && (more != "" ==> NetAll(tag) == 0)
  }

  lemma OpensTag(tag: Tag, more: string)
    ensures SplitTop(PrintedTag(tag) + more, 0, "") == SplitTop(Join(PrintedParts(tag)) + ("]" + more), 1, "[")
  {
    var s := Join(PrintedParts(tag));
    assert PrintedTag(tag) + more == "[" + (s + ("]" + more));
    OpensBracket(s + ("]" + more));
  }

  lemma PassesTag(tag: Tag, more: string)
    requires CommaFree(tag) && Passes(tag, 1)
    ensures SplitTop(PrintedTag(tag) + more, 0, "") == SplitTop(more, NetAll(tag), PrintedTag(tag))
  {
    var s := Join(PrintedParts(tag));
    OpensTag(tag, more);
    if tag == [] {
      assert s + ("]" + more) == "]" + more;
      ClosesBracket(more, 1, "[");
      assert "[" + "]" == PrintedTag(tag);
    } else {
      ScanPasses(tag, "]" + more, 1, "[");
      ClosesBracket(more, 1 + NetAll(tag), "[" + s);
    }
  }

  lemma FirstTagRead(tag: Tag, more: string)
    requires CommaFree(tag) && DepthsOk(tag, more) && (more == "" || more[0] == ',')
    ensures SplitTop(PrintedTag(tag) + more, 0, "") ==
            [PrintedTag(tag)] + if more == "" then [] else SplitTop(more[1..], 0, "")
  {
    PassesTag(tag, more);
  }

  lemma FirstTagMisread(tag: Tag, more: string)
    requires CommaFree(tag) && !DepthsOk(tag, more) && (more == "" || more[0] == ',')
    ensures var ps := SplitTop(PrintedTag(tag) + more, 0, "");
            |ParsedTag(TrimSpace(ps[0]))| != |tag| && TrimSpace(ps[0]) != ""
  {
    if Passes(tag, 1) {
      TagRunsOn(tag, more);
    } else {
      TagBreaksOff(tag, more);
    }
  }

  lemma TagRunsOn(tag: Tag, more: string)
    requires CommaFree(tag) && Passes(tag, 1) && NetAll(tag) != 0 && more != "" && more[0] == ','
    ensures var ps := SplitTop(PrintedTag(tag) + more, 0, "");
            |ParsedTag(TrimSpace(ps[0]))| != |tag| && TrimSpace(ps[0]) != ""
  {
    PassesTag(tag, more);
    FirstPiece(more[1..], NetAll(tag), PrintedTag(tag) + ",");
    WrongCount(tag, SplitTop(PrintedTag(tag) + more, 0, "")[0]);
  }

  lemma TagBreaksOff(tag: Tag, more: string)
    requires CommaFree(tag) && !Passes(tag, 1)
    ensures var ps := SplitTop(PrintedTag(tag) + more, 0, "");
            |ParsedTag(TrimSpace(ps[0]))| != |tag| && TrimSpace(ps[0]) != ""
  {
    var s := Join(PrintedParts(tag));
    OpensTag(tag, more);
    ScanStops(tag, "]" + more, 1, "[");
    FirstPiece(s + ("]" + more), 1, "[");
    PieceCount(SplitTop(PrintedTag(tag) + more, 0, "")[0]);
  }

  lemma ClosesBracket(more: string, depth: int, current: string)
    ensures SplitTop("]" + more, depth, current) == SplitTop(more, depth - 1, current + "]")
  {
    assert ("]" + more)[1..] == more && ("]" + more)[0] == ']';
  }

  lemma OpensBracket(s: string)
    ensures SplitTop("[" + s, 0, "") == SplitTop(s, 1, "[")
  {
    assert ("[" + s)[0] == '[' && ("[" + s)[1..] == s && "" + ['['] == "[";
  }

  lemma WrongCount(tag: Tag, piece: string)
    requires tag != [] && CommaFree(tag) && PrintedTag(tag) + "," <= piece
    ensures |ParsedTag(TrimSpace(piece))| != |tag| && TrimSpace(piece) != ""
  {
    var s, head := Join(PrintedParts(tag)), PrintedTag(tag) + ",";
    assert piece == head + piece[|head|..];
    Counts(head, piece[|head|..]);
    CommaBetween(PrintedTag(tag), "");
    assert head == PrintedTag(tag) + "," + "";
    Counts("[" + s, "]");
    Counts("[", s);
    JoinCounts(tag);
    PieceCount(piece);
  }

  /** A piece is read as no part at all, or as one part more than it has commas. */
  lemma PieceCount(piece: string)
    requires piece != "" && piece[0] == '['
    ensures TrimSpace(piece) != ""
    ensures |ParsedTag(TrimSpace(piece))| == 0 || |ParsedTag(TrimSpace(piece))| == Commas(piece) + 1
  {
    TrimRightKeeps(piece);
    var t := TrimSpace(piece);
    TrimRightKeeps(t);
    var u := TrimSpace(t);
    if Bracketed(u, '[', ']') && Inner(u) != "" {
      BracketsHoldNoComma(u);
      SplitCount(Inner(u), "");
    }
  }

  lemma BracketsHoldNoComma(u: string)
    requires Bracketed(u, '[', ']')
    ensures Commas(u) == Commas(Inner(u))
  {
    assert u == "[" + Inner(u) + "]";
    Counts("[" + Inner(u), "]");
    Counts("[", Inner(u));
  }

  lemma {:induction false} TrimRightKeeps(s: string)
    requires s != "" && !IsSpace(s[0])
    ensures TrimSpace(s) == TrimRight(s) && TrimRight(s) != "" && TrimRight(s)[0] == s[0]
    ensures Commas(TrimRight(s)) == Commas(s)
  {
    if IsSpace(s[|s| - 1]) {
      var t := s[..|s| - 1];
      TrimRightKeeps(t);
      assert s == t + [s[|s| - 1]];
      Counts(t, [s[|s| - 1]]);
    }
  }

  lemma TrimKeepsEnds(s: string)
    requires s != "" && !IsSpace(s[0]) && !IsSpace(s[|s| - 1])
    ensures TrimSpace(s) == s
  {
  }

  lemma {:induction false} SplitCount(s: string, current: string)
    ensures |SplitCommas(s, current)| == Commas(s) + 1
    decreases |s|
  {
    if s == "" {
    } else {
      SplitCount(s[1..], if s[0] == ',' then "" else current + [s[0]]);
    }
  }

  // ---------- one tag ----------

  lemma {:induction false} SplitUndoesJoin(xs: seq<string>)
    requires xs != [] && CommaFree(xs)
    ensures SplitCommas(Join(xs), "") == xs
  {
    if |xs| == 1 {
      SkipsCommaFree(xs[0], "", 0, "");
      assert xs[0] + "" == xs[0] && "" + xs[0] == xs[0];
    } else {
      var rest := Join(xs[1..]);
      assert Join(xs) == xs[0] + ("," + rest);
      SkipsCommaFree(xs[0], "," + rest, 0, "");
      assert ("," + rest)[1..] == rest && "" + xs[0] == xs[0];
      SplitUndoesJoin(xs[1..]);
    }
  }

  lemma PartRoundTrip(p: string)
    ensures ParsedPart(PrintedPart(p)) == p
  {
    TrimKeepsEnds(PrintedPart(p));
    assert Inner(PrintedPart(p)) == Escape(p);
    UnescapeUndoesEscape(p);
  }

  lemma {:induction false} TrimLeftSkips(a: string, s: string)
    requires Blank(a) && (s == "" || !IsSpace(s[0]))
    ensures TrimLeft(a + s) == s
  {
    if a == "" {
      assert a + s == s;
    } else {
      assert (a + s)[1..] == a[1..] + s;
      TrimLeftSkips(a[1..], s);
    }
  }

  lemma {:induction false} TrimRightSkips(s: string, b: string)
    requires Blank(b) && (s == "" || !IsSpace(s[|s| - 1]))
    ensures TrimRight(s + b) == s
  {
    if b == "" {
      assert s + b == s;
    } else {
      assert (s + b)[..|s + b| - 1] == s + b[..|b| - 1];
      TrimRightSkips(s, b[..|b| - 1]);
    }
  }

  /** White space around a part is ignored. */
  lemma PartIgnoresSpace(a: string, p: string, b: string)
    requires Blank(a) && Blank(b)
    ensures ParsedPart(a + PrintedPart(p) + b) == p
  {
    var q := PrintedPart(p);
    assert a + q + b == a + (q + b) && (q + b)[0] == q[0] == '"';
    TrimLeftSkips(a, q + b);
    TrimRightSkips(q, b);
    TrimKeepsEnds(q);
    PartRoundTrip(p);
  }

  lemma TagRoundTrip(tag: Tag)
    requires CommaFree(tag)
    ensures ParsedTag(TrimSpace(PrintedTag(tag))) == tag
  {
    TrimKeepsEnds(PrintedTag(tag));
    var parts := PrintedParts(tag);
    assert Inner(PrintedTag(tag)) == Join(parts);
    if tag != [] {
      assert parts[0] != "";
      assert Join(parts) != "";
      forall i | 0 <= i < |tag| ensures Commas(parts[i]) == 0 && ParsedPart(parts[i]) == tag[i] {
        PrintedPartCounts(tag[i]);
        PartRoundTrip(tag[i]);
      }
      SplitUndoesJoin(parts);
    }
  }

  lemma {:induction false} Pieces(tags: seq<Tag>, prints: seq<string>)
    requires tags != [] && forall i :: 0 <= i < |tags| ==> CommaFree(tags[i])
    requires prints == seq(|tags|, i requires 0 <= i < |tags| => PrintedTag(tags[i]))
    ensures ParsedPieces(SplitTop(Join(prints), 0, "")) == tags <==> BracketsOk(tags)
    decreases |tags|
  {
    var more := if |tags| == 1 then "" else "," + Join(prints[1..]);
    assert Join(prints) == PrintedTag(tags[0]) + more;
    HeadPiece(tags[0], more);
    assert tags == [tags[0]] + tags[1..];
    if |tags| > 1 {
      assert more[1..] == Join(prints[1..]);
      Pieces(tags[1..], prints[1..]);
    }
  }

  /** With the right depths the first tag is read back; otherwise it gets a wrong number of parts. */
  lemma HeadPiece(tag: Tag, more: string)
    requires CommaFree(tag) && (more == "" || more[0] == ',')
    ensures var read := ParsedPieces(SplitTop(PrintedTag(tag) + more, 0, ""));
            if DepthsOk(tag, more) then
              read == [tag] + if more == "" then [] else ParsedPieces(SplitTop(more[1..], 0, ""))
            else read != [] && |read[0]| != |tag|
  {
    var ps := SplitTop(PrintedTag(tag) + more, 0, "");
    CutPiece(ps[0], ps[1..]);
    assert ps == [ps[0]] + ps[1..];
    if DepthsOk(tag, more) {
      FirstTagRead(tag, more);
      TagReadBack(tag);
    } else {
      FirstTagMisread(tag, more);
    }
  }

  lemma TagReadBack(tag: Tag)
    requires CommaFree(tag)
    ensures TrimSpace(PrintedTag(tag)) != "" && ParsedTag(TrimSpace(PrintedTag(tag))) == tag
  {
    TrimKeepsEnds(PrintedTag(tag));
    TagRoundTrip(tag);
  }

  // ---------- parsed parts never hold a comma ----------

  lemma {:induction false} PiecesAreCommaFree(pieces: seq<string>)
    ensures forall i :: 0 <= i < |ParsedPieces(pieces)| ==> CommaFree(ParsedPieces(pieces)[i])
  {
    if pieces == [] {
    } else {
      PiecesAreCommaFree(pieces[1..]);
      TagIsCommaFree(TrimSpace(pieces[0]));
    }
  }

  lemma TagIsCommaFree(tagStr: string)
    ensures CommaFree(ParsedTag(tagStr))
  {
    var t := TrimSpace(tagStr);
    if Bracketed(t, '[', ']') && Inner(t) != "" {
      SplitIsCommaFree(Inner(t), "");
      var pieces := SplitCommas(Inner(t), "");
      forall i | 0 <= i < |pieces| ensures Commas(ParsedPart(pieces[i])) == 0 {
        PartIsCommaFree(pieces[i]);
      }
    }
  }

  lemma {:induction false} SplitIsCommaFree(s: string, current: string)
    requires Commas(current) == 0
    ensures CommaFree(SplitCommas(s, current))
    decreases |s|
  {
    if s == "" {
    } else {
      if s[0] != ',' { Counts(current, [s[0]]); }
      SplitIsCommaFree(s[1..], if s[0] == ',' then "" else current + [s[0]]);
    }
  }

  lemma {:induction false} TrimLeftCounts(s: string)
    ensures Commas(TrimLeft(s)) <= Commas(s)
  {
    if s == "" {
    } else {
      TrimLeftCounts(s[1..]);
    }
  }

  lemma {:induction false} TrimRightCounts(s: string)
    ensures Commas(TrimRight(s)) <= Commas(s)
  {
    if s == "" {
    } else {
      TrimRightCounts(s[..|s| - 1]);
      assert s == s[..|s| - 1] + [s[|s| - 1]];
      Counts(s[..|s| - 1], [s[|s| - 1]]);
    }
  }

  lemma {:induction false} UnescapeCounts(s: string)
    ensures Commas(Unescape(s)) <= Commas(s)
    decreases |s|
  {
    if s == "" {
    } else {
      if "\\\"" <= s {
        UnescapeCounts(s[2..]);
        assert s[1..][1..] == s[2..];
        Counts("\"", Unescape(s[2..]));
      } else {
        UnescapeCounts(s[1..]);
        Counts([s[0]], Unescape(s[1..]));
      }
    }
  }

  lemma PartIsCommaFree(piece: string)
    requires Commas(piece) == 0
    ensures Commas(ParsedPart(piece)) == 0
  {
    TrimLeftCounts(piece);
    TrimRightCounts(TrimLeft(piece));
    var p := TrimSpace(piece);
    if Bracketed(p, '"', '"') {
      assert p == "\"" + Inner(p) + "\"";
      Counts("\"" + Inner(p), "\"");
      Counts("\"", Inner(p));
      UnescapeCounts(Inner(p));
    }
  }
}
