/**
  Search (NIP-50). A query is a list of words: terms, exclusions and key:value
  extensions. Case folding comes from the Unicode tables of the caller's library.
 */
module Search {
  import opened Orders
  import opened Events
  import opened TagCodec
  import opened MemoryStore

  /** strings.ToLower and strings.EqualFold. */
  datatype Folding = Folding(lower: string -> string, equalFold: (string, string) -> bool)

  datatype SearchQuery = SearchQuery(terms: seq<string>, exclusions: seq<string>, extensions: map<string, string>)

  const EMPTY_QUERY := SearchQuery([], [], map[])

  // ---------- words ----------

  /** strings.Fields; `current` is the word read so far. */
  function Fields(s: string, current: string): seq<string>
    decreases |s|
  {
    var word := if current == "" then [] else [current];
    if s == "" then word
    else if IsSpace(s[0]) then word + Fields(s[1..], "")
    else Fields(s[1..], current + [s[0]])
  }

  function Words(search: string): seq<string> {
    Fields(TrimSpace(search), "")
  }

  datatype Word = Extension(key: string, value: string) | Exclusion(text: string) | Term(text: string)

  /** Length of the part before the first colon. */
  function KeyLength(word: string): (n: nat)
    ensures n <= |word| && (n < |word| <==> ':' in word)
  {
    if word == "" || word[0] == ':' then 0 else 1 + KeyLength(word[1..])
  }

  function Classify(word: string): Word {
    var n := KeyLength(word);
    if ':' in word && !("-" <= word) && n > 0 && n + 1 < |word| then Extension(word[..n], word[n + 1..])
    else if "-" <= word && |word| > 1 then Exclusion(word[1..])
    else Term(word)
  }

  // ---------- what a word asks of an event ----------

  predicate Contains(text: string, part: string) {
    exists i :: 0 <= i <= |text| && part <= text[i..]
  }

  predicate EndsWith(text: string, end: string) {
    |end| <= |text| && text[|text| - |end|..] == end
  }

  predicate ContainsTerm(e: Event, term: string, f: Folding) {
    || Contains(f.lower(e.content), f.lower(term))
    || exists i :: 0 <= i < |e.tags| && |e.tags[i]| >= 2 && Contains(f.lower(e.tags[i][1]), f.lower(term))
  }

  predicate HasTagNamed(e: Event, name: string) {
    exists i :: 0 <= i < |e.tags| && |e.tags[i]| >= 2 && e.tags[i][0] == name
  }

  /** Unknown extensions are ignored. */
  predicate MatchesExtension(e: Event, key: string, value: string, f: Folding) {
    var k, v := f.lower(key), f.lower(value);
    if k == "domain" then
      exists i :: 0 <= i < |e.tags| && |e.tags[i]| >= 2 && e.tags[i][0] == "nip05" && EndsWith(f.lower(e.tags[i][1]), "@" + v)
    else if k == "language" then
      exists i :: 0 <= i < |e.tags| && |e.tags[i]| >= 2 && e.tags[i][0] == "language" && f.equalFold(e.tags[i][1], v)
    else if k == "nsfw" then
      if v == "true" then HasTagNamed(e, "content-warning")
      else if v == "false" then !HasTagNamed(e, "content-warning")
      else true
    else true
  }

  predicate WordAccepts(w: Word, e: Event, f: Folding) {
    match w
    case Extension(key, value) => MatchesExtension(e, key, value, f)
    case Exclusion(text) => !ContainsTerm(e, text, f)
    case Term(text) => ContainsTerm(e, text, f)
  }

  predicate QueryAccepts(q: SearchQuery, e: Event, f: Folding) {
    && (forall i :: 0 <= i < |q.terms| ==> ContainsTerm(e, q.terms[i], f))
    && (forall i :: 0 <= i < |q.exclusions| ==> !ContainsTerm(e, q.exclusions[i], f))
    && (forall key :: key in q.extensions ==> MatchesExtension(e, key, q.extensions[key], f))
  }

  // ---------- parsing ----------

  function Parsed(words: seq<string>): SearchQuery {
    if words == [] then EMPTY_QUERY
    else
      var q := Parsed(words[..|words| - 1]);
      match Classify(words[|words| - 1])
      case Extension(key, value) => q.(extensions := q.extensions[key := value])
      case Exclusion(text) => q.(exclusions := q.exclusions + [text])
      case Term(text) => q.(terms := q.terms + [text])
  }

  method ParseSearchQuery(query: string) returns (q: SearchQuery)
    ensures q == Parsed(Words(query))
  {
    q := EMPTY_QUERY;
    if query == "" {
      return;
    }
    var words := Words(query);
    for i := 0 to |words|
      invariant q == Parsed(words[..i])
    {
      var word := words[i];
      assert words[..i + 1][..i] == words[..i];
      if ':' in word && !("-" <= word) {
        var n := KeyLength(word);
        if n > 0 && n + 1 < |word| {
          q := q.(extensions := q.extensions[word[..n] := word[n + 1..]]);
          continue;
        }
      }
      if "-" <= word && |word| > 1 {
        q := q.(exclusions := q.exclusions + [word[1..]]);
        continue;
      }
      q := q.(terms := q.terms + [word]);
    }
    assert words[..|words|] == words;
  }

  // ---------- what the words of a query ask for ----------

  function Spaced(words: seq<string>): string {
    if words == [] then "" else if |words| == 1 then words[0] else words[0] + " " + Spaced(words[1..])
  }

  ghost predicate IsWord(w: string) {
    w != "" && forall i :: 0 <= i < |w| ==> !IsSpace(w[i])
  }

  ghost predicate AllWords(words: seq<string>) {
    forall i :: 0 <= i < |words| ==> IsWord(words[i])
  }

  lemma {:induction false} FieldsReadWord(w: string, rest: string, current: string)
    requires forall i :: 0 <= i < |w| ==> !IsSpace(w[i])
    ensures Fields(w + rest, current) == Fields(rest, current + w)
    decreases |w|
  {
    if w == "" {
      assert w + rest == rest && current + w == current;
    } else {
      assert (w + rest)[1..] == w[1..] + rest && current + [w[0]] + w[1..] == current + w;
      FieldsReadWord(w[1..], rest, current + [w[0]]);
    }
  }

  lemma {:induction false} FieldsOfSpaced(words: seq<string>)
    requires AllWords(words)
    ensures Fields(Spaced(words), "") == words
  {
    if words == [] {
    } else {
      var w := words[0];
      assert IsWord(w);
      if |words| == 1 {
        FieldsReadWord(w, "", "");
        assert w + "" == w && "" + w == w;
      } else {
        var rest := Spaced(words[1..]);
        assert Spaced(words) == w + (" " + rest);
        FieldsReadWord(w, " " + rest, "");
        assert (" " + rest)[1..] == rest && "" + w == w;
        assert AllWords(words[1..]);
        FieldsOfSpaced(words[1..]);
      }
    }
  }

  lemma {:induction false} SpacedEnds(words: seq<string>)
    requires AllWords(words) && words != []
    ensures var s := Spaced(words); s != "" && !IsSpace(s[0]) && !IsSpace(s[|s| - 1])
  {
    assert IsWord(words[0]);
    if |words| > 1 {
      assert AllWords(words[1..]);
      SpacedEnds(words[1..]);
    }
  }

  /** The words of a text are read back from it. */
  lemma WordsOfSpaced(words: seq<string>)
    requires AllWords(words)
    ensures Words(Spaced(words)) == words
  {
    FieldsOfSpaced(words);
    if words != [] {
      SpacedEnds(words);
      TrimKeepsEnds(Spaced(words));
    }
  }

  ghost predicate Occurs(part: string, text: string) {
    exists before, after :: text == before + part + after
  }

  /** The content or the value of some tag has the term in it, letter case aside. */
  ghost predicate Mentions(e: Event, term: string, f: Folding) {
    || Occurs(f.lower(term), f.lower(e.content))
    || exists i :: 0 <= i < |e.tags| && |e.tags[i]| >= 2 && Occurs(f.lower(term), f.lower(e.tags[i][1]))
  }

  lemma OccursIsContains(part: string, text: string)
    ensures Occurs(part, text) <==> Contains(text, part)
  {
    if Contains(text, part) {
      var i :| 0 <= i <= |text| && part <= text[i..];
      assert text == text[..i] + part + text[i + |part|..];
    }
    if Occurs(part, text) {
      var before, after :| text == before + part + after;
      assert text[|before|..] == part + after;
    }
  }

  lemma MentionsIsContains(e: Event, term: string, f: Folding)
    ensures Mentions(e, term, f) <==> ContainsTerm(e, term, f)
  {
    OccursIsContains(f.lower(term), f.lower(e.content));
    forall i | 0 <= i < |e.tags| && |e.tags[i]| >= 2
      ensures Occurs(f.lower(term), f.lower(e.tags[i][1])) <==> Contains(f.lower(e.tags[i][1]), f.lower(term))
    {
      OccursIsContains(f.lower(term), f.lower(e.tags[i][1]));
    }
  }

  lemma ParsedOne(w: string)
    ensures Parsed([w]) ==
            match Classify(w)
            case Extension(key, value) => SearchQuery([], [], map[key := value])
            case Exclusion(text) => SearchQuery([], [text], map[])
            case Term(text) => SearchQuery([text], [], map[])
  {
    assert [w][..0] == [];
  }

  lemma {:induction false} KeyBeforeColon(key: string, value: string)
    requires ':' !in key
    ensures KeyLength(key + ":" + value) == |key|
  {
    var w := key + ":" + value;
    if key == "" {
    } else {
      assert w[1..] == key[1..] + ":" + value;
      KeyBeforeColon(key[1..], value);
    }
  }

  /** A word without a colon, and not beginning with a minus sign, must be mentioned. */
  lemma PlainWord(w: string, e: Event, f: Folding)
    requires w != "" && ':' !in w && (w[0] != '-' || w == "-")
    ensures QueryAccepts(Parsed([w]), e, f) <==> Mentions(e, w, f)
  {
    ParsedOne(w);
    MentionsIsContains(e, w, f);
  }

  /** After a minus sign it must not, whatever it holds. */
  lemma MinusWord(w: string, e: Event, f: Folding)
    requires w != ""
    ensures QueryAccepts(Parsed(["-" + w]), e, f) <==> !Mentions(e, w, f)
  {
    ParsedOne("-" + w);
    assert ("-" + w)[1..] == w && ("-" + w)[..1] == "-";
    assert Classify("-" + w) == Exclusion(w);
    assert Parsed(["-" + w]) == SearchQuery([], [w], map[]);
    assert [w][0] == w;
    MentionsIsContains(e, w, f);
  }

  /** A key and a value around the first colon are an extension; with either of them missing it is a plain word. */
  lemma ColonWord(key: string, value: string)
    requires ':' !in key && !("-" <= key)
    ensures var w := key + ":" + value;
            Parsed([w]) == if key != "" && value != "" then SearchQuery([], [], map[key := value])
                           else SearchQuery([w], [], map[])
  {
    var w := key + ":" + value;
    ParsedOne(w);
    KeyBeforeColon(key, value);
    assert w[|key|] == ':' && w[..|key|] == key && w[|key| + 1..] == value;
    assert !("-" <= w);
  }

  function OneExtension(key: string, value: string): SearchQuery { SearchQuery([], [], map[key := value]) }

  lemma ExtensionAlone(key: string, value: string, e: Event, f: Folding)
    ensures QueryAccepts(OneExtension(key, value), e, f) <==> MatchesExtension(e, key, value, f)
  {
    assert key in OneExtension(key, value).extensions && OneExtension(key, value).extensions[key] == value;
  }

  /** nsfw:true asks for a content warning, nsfw:false for none. */
  lemma NsfwMeans(key: string, value: string, e: Event, f: Folding)
    requires f.lower(key) == "nsfw"
    ensures var warned := exists i :: 0 <= i < |e.tags| && |e.tags[i]| >= 2 && e.tags[i][0] == "content-warning";
            QueryAccepts(OneExtension(key, value), e, f) <==>
              (f.lower(value) == "true" ==> warned) && (f.lower(value) == "false" ==> !warned)
  {
    ExtensionAlone(key, value, e, f);
  }

  /** language:x asks for a language tag of that value, domain:x for a nip05 tag at that domain, letter case aside. */
  lemma LanguageAndDomainMean(key: string, value: string, e: Event, f: Folding)
    ensures f.lower(key) == "language" ==>
              (QueryAccepts(OneExtension(key, value), e, f) <==>
                exists i :: 0 <= i < |e.tags| && |e.tags[i]| >= 2 && e.tags[i][0] == "language"
                            && f.equalFold(e.tags[i][1], f.lower(value)))
    ensures f.lower(key) == "domain" ==>
              (QueryAccepts(OneExtension(key, value), e, f) <==>
                exists i, name :: 0 <= i < |e.tags| && |e.tags[i]| >= 2 && e.tags[i][0] == "nip05"
                                  && f.lower(e.tags[i][1]) == name + ("@" + f.lower(value)))
  {
    ExtensionAlone(key, value, e, f);
    if f.lower(key) == "domain" {
      forall i | 0 <= i < |e.tags| && |e.tags[i]| >= 2
        ensures EndsWith(f.lower(e.tags[i][1]), "@" + f.lower(value)) <==>
                exists name :: f.lower(e.tags[i][1]) == name + ("@" + f.lower(value))
      {
        EndsWithMeans(f.lower(e.tags[i][1]), "@" + f.lower(value));
      }
    }
  }

  lemma EndsWithMeans(text: string, end: string)
    ensures EndsWith(text, end) <==> exists name :: text == name + end
  {
    if EndsWith(text, end) {
      assert text == text[..|text| - |end|] + end;
    }
  }

  /** An extension of any other key is ignored. */
  lemma OtherExtensionsAreIgnored(key: string, value: string, e: Event, f: Folding)
    requires f.lower(key) !in {"nsfw", "language", "domain"}
    ensures QueryAccepts(OneExtension(key, value), e, f)
  {
    ExtensionAlone(key, value, e, f);
  }

  // ---------- a query means what its words mean ----------

  /** A later word gives the same extension key another value. */
  ghost predicate Overridden(words: seq<string>, i: nat)
    requires i < |words|
  {
    Classify(words[i]).Extension? &&
    exists j :: i < j < |words| && Classify(words[j]).Extension? && Classify(words[j]).key == Classify(words[i]).key
  }

  ghost predicate WordHolds(words: seq<string>, i: nat, e: Event, f: Folding)
    requires i < |words|
  {
    WordAccepts(Classify(words[i]), e, f) || Overridden(words, i)
  }

  ghost predicate AllHold(words: seq<string>, e: Event, f: Folding) {
    forall i: nat :: i < |words| ==> WordHolds(words, i, e, f)
  }

  /** Every extension kept by the parser is the value of its key's last word. */
  lemma {:induction false} LastValue(words: seq<string>, i: nat)
    requires i < |words| && Classify(words[i]).Extension? && !Overridden(words, i)
    ensures var w := Classify(words[i]); w.key in Parsed(words).extensions && Parsed(words).extensions[w.key] == w.value
  {
    var n := |words| - 1;
    if i < n {
      var before := words[..n];
      assert !Overridden(before, i);
      LastValue(before, i);
    }
  }

  lemma EachWordHolds(words: seq<string>, i: nat, e: Event, f: Folding)
    requires i < |words| && QueryAccepts(Parsed(words), e, f)
    ensures WordHolds(words, i, e, f)
  {
    var w := Classify(words[i]);
    if w.Extension? {
      if !Overridden(words, i) { LastValue(words, i); }
    } else {
      WordIsKept(words, i);
    }
  }

  lemma {:induction false} WordIsKept(words: seq<string>, i: nat)
    requires i < |words| && !Classify(words[i]).Extension?
    ensures var w := Classify(words[i]); w.text in if w.Term? then Parsed(words).terms else Parsed(words).exclusions
  {
    if i < |words| - 1 { WordIsKept(words[..|words| - 1], i); }
  }

  lemma {:induction false} KeptIsWord(words: seq<string>)
    ensures forall t :: t in Parsed(words).terms ==> exists i :: 0 <= i < |words| && Classify(words[i]) == Term(t)
    ensures forall t :: t in Parsed(words).exclusions ==> exists i :: 0 <= i < |words| && Classify(words[i]) == Exclusion(t)
  {
    if words == [] {
    } else {
      var n := |words| - 1;
      KeptIsWord(words[..n]);
      assert forall i :: 0 <= i < n ==> words[..n][i] == words[i];
      assert Classify(words[n]) == Classify(words[n]);
    }
  }

  /** An extension kept by the parser comes from a word that is not overridden. */
  lemma {:induction false} ExtensionIsWord(words: seq<string>, key: string) returns (i: nat)
    requires key in Parsed(words).extensions
    ensures i < |words| && !Overridden(words, i)
    ensures Classify(words[i]) == Extension(key, Parsed(words).extensions[key])
  {
    var n := |words| - 1;
    var w := Classify(words[n]);
    if w.Extension? && w.key == key {
      i := n;
    } else {
      i := ExtensionIsWord(words[..n], key);
    }
  }

  lemma WordsSuffice(words: seq<string>, e: Event, f: Folding)
    requires AllHold(words, e, f)
    ensures QueryAccepts(Parsed(words), e, f)
  {
    var q := Parsed(words);
    KeptIsWord(words);
    forall k | 0 <= k < |q.terms| ensures ContainsTerm(e, q.terms[k], f) {
      assert q.terms[k] in q.terms;
      var i: nat :| i < |words| && Classify(words[i]) == Term(q.terms[k]);
      assert WordHolds(words, i, e, f);
    }
    forall k | 0 <= k < |q.exclusions| ensures !ContainsTerm(e, q.exclusions[k], f) {
      assert q.exclusions[k] in q.exclusions;
      var i: nat :| i < |words| && Classify(words[i]) == Exclusion(q.exclusions[k]);
      assert WordHolds(words, i, e, f);
    }
    forall key | key in q.extensions ensures MatchesExtension(e, key, q.extensions[key], f) {
      var i := ExtensionIsWord(words, key);
      assert WordHolds(words, i, e, f);
    }
  }

  /** A query accepts an event exactly when every word does, except extensions given again later. */
  lemma QueryMeansItsWords(words: seq<string>, e: Event, f: Folding)
    ensures QueryAccepts(Parsed(words), e, f) <==> AllHold(words, e, f)
  {
    if QueryAccepts(Parsed(words), e, f) {
      forall i: nat | i < |words| ensures WordHolds(words, i, e, f) {
        EachWordHolds(words, i, e, f);
      }
    }
    if AllHold(words, e, f) {
      WordsSuffice(words, e, f);
    }
  }

  // ---------- order and growth of a query ----------

  /** No two words give the same extension key. */
  ghost predicate DistinctKeys(words: seq<string>) {
    forall i, j :: 0 <= i < j < |words| && Classify(words[i]).Extension? && Classify(words[j]).Extension? ==>
      Classify(words[i]).key != Classify(words[j]).key
  }

  lemma DistinctKeysMean(words: seq<string>, e: Event, f: Folding)
    requires DistinctKeys(words)
    ensures QueryAccepts(Parsed(words), e, f) <==> forall w :: w in words ==> WordAccepts(Classify(w), e, f)
  {
    QueryMeansItsWords(words, e, f);
    forall i: nat | i < |words| ensures !Overridden(words, i) && words[i] in words {}
    if AllHold(words, e, f) {
      forall w | w in words ensures WordAccepts(Classify(w), e, f) {
        var i: nat :| i < |words| && words[i] == w;
        assert WordHolds(words, i, e, f);
      }
    }
  }

  lemma DistinctKeysPermute(words: seq<string>, others: seq<string>)
    requires multiset(words) == multiset(others) && DistinctKeys(words)
    ensures DistinctKeys(others)
  {
    forall i, j | 0 <= i < j < |others| && Classify(others[i]).Extension? && Classify(others[j]).Extension?
      ensures Classify(others[i]).key != Classify(others[j]).key
    {
      PickTwo(words, others, i, j);
    }
  }

  /** Two positions of a permutation come from two positions of the original. */
  lemma PickTwo(xs: seq<string>, ys: seq<string>, i: nat, j: nat)
    requires multiset(xs) == multiset(ys) && i < j < |ys|
    ensures exists a, b :: 0 <= a < |xs| && 0 <= b < |xs| && a != b && xs[a] == ys[i] && xs[b] == ys[j]
  {
    if ys[i] == ys[j] {
      OccursTwice(ys, i, j);
      var a, b := FindTwo(xs, ys[i]);
    } else {
      PermutationKeeps(xs, ys);
      assert ys[i] in xs && ys[j] in xs;
    }
  }

  lemma FindTwo(xs: seq<string>, x: string) returns (a: nat, b: nat)
    requires multiset(xs)[x] >= 2
    ensures a < |xs| && b < |xs| && a != b && xs[a] == xs[b] == x
  {
    assert x in multiset(xs);
    a :| a < |xs| && xs[a] == x;
    var rest := xs[..a] + xs[a + 1..];
    assert xs == xs[..a] + [x] + xs[a + 1..];
    assert multiset(xs) == multiset(rest) + multiset{x};
    assert x in multiset(rest);
    var c: nat :| c < |rest| && rest[c] == x;
    b := Shift(a, c);
  }

  /** Permuting the words of a query with distinct extension keys does not change what it accepts. */
  lemma WordOrderIsIrrelevant(words: seq<string>, others: seq<string>, e: Event, f: Folding)
    requires multiset(words) == multiset(others) && DistinctKeys(words)
    ensures QueryAccepts(Parsed(words), e, f) <==> QueryAccepts(Parsed(others), e, f)
  {
    DistinctKeysPermute(words, others);
    PermutationKeeps(words, others);
    DistinctKeysMean(words, e, f);
    DistinctKeysMean(others, e, f);
  }

  /** The added word is no extension, or its key is new to the query. */
  ghost predicate Narrows(words: seq<string>, word: string) {
    Classify(word).Extension? ==>
      forall i :: 0 <= i < |words| && Classify(words[i]).Extension? ==> Classify(words[i]).key != Classify(word).key
  }

  /** Adding such a word anywhere keeps exactly the events the new word accepts too. */
  lemma AddedWordNarrows(before: seq<string>, word: string, after: seq<string>, e: Event, f: Folding)
    requires Narrows(before + after, word)
    ensures QueryAccepts(Parsed(before + [word] + after), e, f) <==>
            QueryAccepts(Parsed(before + after), e, f) && WordAccepts(Classify(word), e, f)
  {
    QueryMeansItsWords(before + after, e, f);
    QueryMeansItsWords(before + [word] + after, e, f);
    AddedWordHolds(before, word, after, e, f);
  }

  lemma AddedWordHolds(before: seq<string>, word: string, after: seq<string>, e: Event, f: Folding)
    requires Narrows(before + after, word)
    ensures AllHold(before + [word] + after, e, f) <==>
            AllHold(before + after, e, f) && WordAccepts(Classify(word), e, f)
  {
    var old_, new_, n := before + after, before + [word] + after, |before|;
    assert !Overridden(new_, n) by {
      assert forall j :: n < j < |new_| ==> new_[j] == old_[j - 1];
    }
    assert WordHolds(new_, n, e, f) <==> WordAccepts(Classify(word), e, f);
    if AllHold(new_, e, f) {
      forall i: nat | i < |old_| ensures WordHolds(old_, i, e, f) {
        SameOverrides(before, word, after, i);
        assert WordHolds(new_, Shift(n, i), e, f);
      }
    }
    if AllHold(old_, e, f) && WordAccepts(Classify(word), e, f) {
      forall i: nat | i < |new_| ensures WordHolds(new_, i, e, f) {
        if i != n {
          var k := if i < n then i else i - 1;
          SameOverrides(before, word, after, k);
          assert WordHolds(old_, k, e, f);
        }
      }
    }
  }

  /** Where position i of a sequence goes when a word is inserted at n. */
  function Shift(n: nat, i: nat): nat {
    if i < n then i else i + 1
  }

  lemma InsertShifts(before: seq<string>, word: string, after: seq<string>)
    ensures forall i: nat :: i < |before + after| ==>
      (before + [word] + after)[Shift(|before|, i)] == (before + after)[i]
  {
  }

  lemma SameOverrides(before: seq<string>, word: string, after: seq<string>, i: nat)
    requires Narrows(before + after, word) && i < |before + after|
    ensures var j := Shift(|before|, i);
            && (before + [word] + after)[j] == (before + after)[i]
            && (Overridden(before + [word] + after, j) <==> Overridden(before + after, i))
  {
    InsertShifts(before, word, after);
    if Overridden(before + [word] + after, Shift(|before|, i)) { OverriddenBefore(before, word, after, i); }
    if Overridden(before + after, i) { OverriddenAfter(before, word, after, i); }
  }

  lemma OverriddenBefore(before: seq<string>, word: string, after: seq<string>, i: nat)
    requires Narrows(before + after, word) && i < |before + after|
    requires Overridden(before + [word] + after, Shift(|before|, i))
    ensures Overridden(before + after, i)
  {
    var old_, new_, n := before + after, before + [word] + after, |before|;
    var j := Shift(n, i);
    var k: nat :| j < k < |new_| && Classify(new_[k]).Extension? && Classify(new_[k]).key == Classify(new_[j]).key;
    InsertShifts(before, word, after);
    assert k != n;
    assert old_[if k < n then k else k - 1] == new_[k];
  }

  lemma OverriddenAfter(before: seq<string>, word: string, after: seq<string>, i: nat)
    requires i < |before + after| && Overridden(before + after, i)
    ensures Overridden(before + [word] + after, Shift(|before|, i))
  {
    var old_, new_, n := before + after, before + [word] + after, |before|;
    var k: nat :| i < k < |old_| && Classify(old_[k]).Extension? && Classify(old_[k]).key == Classify(old_[i]).key;
    InsertShifts(before, word, after);
    assert new_[Shift(n, k)] == old_[k];
  }

  // ---------- searching the store ----------

  ghost predicate FilterFinds(filter: Filter, e: Event, f: Folding) {
    Accepts(filter, e) && QueryAccepts(Parsed(Words(filter.search)), e, f)
  }

  ghost predicate SomeFinds(filters: seq<Filter>, e: Event, f: Folding) {
    exists i :: 0 <= i < |filters| && FilterFinds(filters[i], e, f)
  }

  /** The events some filter finds, in the order given. */
  ghost function Found(events: seq<Event>, filters: seq<Filter>, f: Folding): seq<Event> {
    Kept(events, e => SomeFinds(filters, e, f))
  }

  /** A search filters an answer of the plain query, whose limit is applied before. */
  ghost predicate SearchAnswers(m: Memory, filters: seq<Filter>, f: Folding, r: seq<Event>)
    requires LimitOk(filters)
  {
    exists base :: Answers(m, filters, base) && r == Found(base, filters, f)
  }

  method EventContainsTerm(e: Event, term: string, f: Folding) returns (found: bool)
    ensures found <==> ContainsTerm(e, term, f)
  {
    var t := f.lower(term);
    if Contains(f.lower(e.content), t) {
      return true;
    }
    for i := 0 to |e.tags|
      invariant forall k :: 0 <= k < i && |e.tags[k]| >= 2 ==> !Contains(f.lower(e.tags[k][1]), t)
    {
      if |e.tags[i]| >= 2 && Contains(f.lower(e.tags[i][1]), t) {
        return true;
      }
    }
    return false;
  }

  method SearchMatches(filter: Filter, q: SearchQuery, e: Event, f: Folding) returns (ok: bool)
    ensures ok <==> Accepts(filter, e) && QueryAccepts(q, e, f)
  {
    var base := Matches(e, filter);
    if !base {
      return false;
    }
    for i := 0 to |q.terms|
      invariant forall k :: 0 <= k < i ==> ContainsTerm(e, q.terms[k], f)
    {
      var has := EventContainsTerm(e, q.terms[i], f);
      if !has { return false; }
    }
    for i := 0 to |q.exclusions|
      invariant forall k :: 0 <= k < i ==> !ContainsTerm(e, q.exclusions[k], f)
    {
      var has := EventContainsTerm(e, q.exclusions[i], f);
      if has { return false; }
    }
    var rest := q.extensions.Keys;
    while rest != {}
      invariant rest <= q.extensions.Keys
      invariant forall key :: key in q.extensions && key !in rest ==> MatchesExtension(e, key, q.extensions[key], f)
    {
      var key :| key in rest;
      rest := rest - {key};
      if !MatchesExtension(e, key, q.extensions[key], f) {
        return false;
      }
    }
    return true;
  }

  method SearchMatchesSome(filters: seq<Filter>, queries: seq<SearchQuery>, e: Event, f: Folding) returns (hit: bool)
    requires |queries| == |filters| && forall k :: 0 <= k < |filters| ==> queries[k] == Parsed(Words(filters[k].search))
    ensures hit <==> SomeFinds(filters, e, f)
  {
    for i := 0 to |filters|
      invariant forall k :: 0 <= k < i ==> !FilterFinds(filters[k], e, f)
    {
      var ok := SearchMatches(filters[i], queries[i], e, f);
      if ok {
        assert FilterFinds(filters[i], e, f);
        return true;
      }
    }
    return false;
  }

  method SearchEvents(store: Store, filters: seq<Filter>, f: Folding) returns (matched: seq<Event>)
    requires store.Valid() && LimitOk(filters)
    ensures SearchAnswers(store.State(), filters, f, matched)
  {
    var queries: seq<SearchQuery> := [];
    for i := 0 to |filters|
      invariant |queries| == i && forall k :: 0 <= k < i ==> queries[k] == Parsed(Words(filters[k].search))
    {
      var q := ParseSearchQuery(filters[i].search);
      queries := queries + [q];
    }
    var events := store.QueryEvents(filters);
    matched := [];
    for n := 0 to |events|
      invariant matched == Found(events[..n], filters, f)
    {
      assert events[..n + 1][..n] == events[..n];
      var hit := SearchMatchesSome(filters, queries, events[n], f);
      if hit {
        matched := matched + [events[n]];
      }
    }
    assert events[..|events|] == events;
  }

  lemma SearchIsLive(m: Memory, filters: seq<Filter>, f: Folding, r: seq<Event>)
    requires LimitOk(filters) && SearchAnswers(m, filters, f, r)
    ensures forall e :: e in r ==> e in Live(m) && SomeFinds(filters, e, f)
  {
    var base :| Answers(m, filters, base) && r == Found(base, filters, f);
    AnswersAreNewest(m, filters, base);
    KeptMembers(base, e => SomeFinds(filters, e, f));
  }

  /** Without limits: exactly the live events some filter finds, newest first, each once. */
  lemma SearchIsComplete(m: Memory, filters: seq<Filter>, f: Folding, r: seq<Event>)
    requires LimitOf(filters).None? && SearchAnswers(m, filters, f, r)
    ensures forall e :: e in r <==> e in Live(m) && SomeFinds(filters, e, f)
    ensures NoDuplicates(r) && Descending(r, CreatedAt)
  {
    var base :| Answers(m, filters, base) && r == Found(base, filters, f);
    AnswersAreNewest(m, filters, base);
    KeptMembers(base, e => SomeFinds(filters, e, f));
    KeptInOrder(base, e => SomeFinds(filters, e, f), CreatedAt);
    assert forall e :: SomeFinds(filters, e, f) ==> AcceptedBySome(filters, e);
  }

  // ---------- whole searches ----------

  /** The same filters up to their search text. */
  ghost predicate SameButSearch(filters: seq<Filter>, others: seq<Filter>) {
    |filters| == |others| &&
    forall i :: 0 <= i < |filters| ==> filters[i].(search := "") == others[i].(search := "")
  }

  lemma SearchTextIsNotQueried(m: Memory, filters: seq<Filter>, others: seq<Filter>, base: seq<Event>)
    requires SameButSearch(filters, others) && LimitOk(filters) && LimitOk(others)
    ensures Answers(m, filters, base) <==> Answers(m, others, base)
  {
    assert forall e, i :: 0 <= i < |filters| ==>
      (Accepts(filters[i], e) <==> Accepts(filters[i].(search := ""), e));
    assert forall e, i :: 0 <= i < |others| ==>
      (Accepts(others[i], e) <==> Accepts(others[i].(search := ""), e));
    assert Matching(m, filters) == Matching(m, others);
  }

  /** Reordering the words of each query leaves the answers of a search as they are. */
  lemma SearchIgnoresWordOrder(m: Memory, filters: seq<Filter>, others: seq<Filter>, f: Folding, r: seq<Event>)
    requires SameButSearch(filters, others) && LimitOk(filters) && LimitOk(others)
    requires forall i :: 0 <= i < |filters| ==>
      multiset(Words(filters[i].search)) == multiset(Words(others[i].search)) && DistinctKeys(Words(filters[i].search))
    ensures SearchAnswers(m, filters, f, r) <==> SearchAnswers(m, others, f, r)
  {
    forall e ensures SomeFinds(filters, e, f) <==> SomeFinds(others, e, f) {
      forall i | 0 <= i < |filters| ensures FilterFinds(filters[i], e, f) <==> FilterFinds(others[i], e, f) {
        WordOrderIsIrrelevant(Words(filters[i].search), Words(others[i].search), e, f);
        assert Accepts(filters[i], e) <==> Accepts(filters[i].(search := ""), e);
        assert Accepts(others[i], e) <==> Accepts(others[i].(search := ""), e);
      }
    }
    forall base ensures Answers(m, filters, base) <==> Answers(m, others, base) {
      SearchTextIsNotQueried(m, filters, others, base);
    }
    forall base ensures Found(base, filters, f) == Found(base, others, f) {
      SameKept(base, e => SomeFinds(filters, e, f), e => SomeFinds(others, e, f));
    }
  }

  /** Adding one word to one query never adds a result. */
  lemma SearchNarrows(m: Memory, filters: seq<Filter>, k: nat, before: seq<string>, word: string, after: seq<string>,
                      search: string, f: Folding, r: seq<Event>)
    requires k < |filters| && LimitOk(filters)
    requires Words(filters[k].search) == before + after && Words(search) == before + [word] + after
    requires Narrows(before + after, word)
    requires LimitOk(filters[k := filters[k].(search := search)])
    requires SearchAnswers(m, filters[k := filters[k].(search := search)], f, r)
    ensures exists wider :: SearchAnswers(m, filters, f, wider) && forall e :: e in r ==> e in wider
  {
    var others := filters[k := filters[k].(search := search)];
    var base :| Answers(m, others, base) && r == Found(base, others, f);
    SearchTextIsNotQueried(m, filters, others, base);
    var wider := Found(base, filters, f);
    assert SearchAnswers(m, filters, f, wider);
    KeptMembers(base, e => SomeFinds(others, e, f));
    KeptMembers(base, e => SomeFinds(filters, e, f));
    forall e | e in r ensures e in wider {
      SomeNarrows(filters, k, before, word, after, search, e, f);
    }
  }

  lemma SomeNarrows(filters: seq<Filter>, k: nat, before: seq<string>, word: string, after: seq<string>,
                    search: string, e: Event, f: Folding)
    requires k < |filters| && Narrows(before + after, word)
    requires Words(filters[k].search) == before + after && Words(search) == before + [word] + after
    requires SomeFinds(filters[k := filters[k].(search := search)], e, f)
    ensures SomeFinds(filters, e, f)
  {
    var others := filters[k := filters[k].(search := search)];
    var i :| 0 <= i < |others| && FilterFinds(others[i], e, f);
    if i == k { FilterNarrows(filters[k], before, word, after, search, e, f); }
    assert FilterFinds(filters[i], e, f);
  }

  lemma FilterNarrows(filter: Filter, before: seq<string>, word: string, after: seq<string>, search: string,
                      e: Event, f: Folding)
    requires Words(filter.search) == before + after && Words(search) == before + [word] + after
    requires Narrows(before + after, word) && FilterFinds(filter.(search := search), e, f)
    ensures FilterFinds(filter, e, f)
  {
    AddedWordNarrows(before, word, after, e, f);
  }
}
