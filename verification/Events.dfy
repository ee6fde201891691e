/**
  Nostr events, subscription filters, and when a filter accepts an event.
  Ghost predicates say what a filter means; the methods are the scans that decide it.
 */
module Events {
  import opened Wrappers

  datatype Event = Event(
    id: string, pubkey: string, createdAt: int, kind: int,
    tags: seq<seq<string>>, content: string, sig: string)

  /** `None` is a nil list and `Some([])` an empty one: the SQL compiler tells them apart. */
  datatype Filter = Filter(
    ids: Option<seq<string>>, authors: Option<seq<string>>, kinds: Option<seq<int>>,
    tags: map<string, seq<string>>,
    since: Option<int>, until: Option<int>, limit: Option<int>, search: string)

  function Items<T>(list: Option<seq<T>>): seq<T> {
    if list.Some? then list.value else []
  }

  function MatchesPrefix(target: string, prefix: string): (r: bool)
    ensures r <==> prefix <= target
  {
    if |prefix| > |target| then false else target[..|prefix|] == prefix
  }

  function CreatedAt(e: Event): int { e.createdAt }

  /** NIP-01: only the newest event of a pubkey and kind is kept for these kinds. */
  predicate IsReplaceable(kind: int) {
    kind == 0 || kind == 3 || 10000 <= kind < 20000
  }

  predicate SameSlot(a: Event, b: Event) {
    IsReplaceable(a.kind) && a.pubkey == b.pubkey && a.kind == b.kind
  }

  // ---------- meaning ----------

  ghost predicate SomePrefixOf(target: string, prefixes: seq<string>) {
    exists i :: 0 <= i < |prefixes| && prefixes[i] <= target
  }

  ghost predicate CarriesTag(e: Event, name: string, value: string) {
    exists i :: 0 <= i < |e.tags| && |e.tags[i]| >= 2 && e.tags[i][0] == name && value <= e.tags[i][1]
  }

  ghost predicate CarriesSome(e: Event, name: string, values: seq<string>) {
    exists j :: 0 <= j < |values| && CarriesTag(e, name, values[j])
  }

  ghost predicate InRange(t: int, since: Option<int>, until: Option<int>) {
    && (since.Some? ==> since.value <= t)
    && (until.Some? ==> t <= until.value)
  }

  ghost predicate Accepts(f: Filter, e: Event) {
    && (Items(f.ids) != [] ==> SomePrefixOf(e.id, Items(f.ids)))
    && (Items(f.authors) != [] ==> SomePrefixOf(e.pubkey, Items(f.authors)))
    && (Items(f.kinds) != [] ==> e.kind in Items(f.kinds))
    && InRange(e.createdAt, f.since, f.until)
    && (forall name :: name in f.tags ==> CarriesSome(e, name, f.tags[name]))
  }

  /** A tag clause asks for some tag of that name one of the values begins the value of. */
  lemma TagClauseMeans(f: Filter, name: string, values: seq<string>, e: Event)
    requires f == Filter(None, None, None, map[name := values], None, None, None, "")
    ensures Accepts(f, e) <==>
            exists i, j :: 0 <= i < |e.tags| && 0 <= j < |values| && |e.tags[i]| >= 2
                           && e.tags[i][0] == name && values[j] <= e.tags[i][1]
  {
    assert name in f.tags && f.tags[name] == values;
    if CarriesSome(e, name, values) {
      var j :| 0 <= j < |values| && CarriesTag(e, name, values[j]);
    }
    if i, j :| 0 <= i < |e.tags| && 0 <= j < |values| && |e.tags[i]| >= 2
               && e.tags[i][0] == name && values[j] <= e.tags[i][1] {
      assert CarriesTag(e, name, values[j]);
    }
  }

  /** Filters are alternatives. */
  ghost predicate AcceptedBySome(filters: seq<Filter>, e: Event) {
    exists i :: 0 <= i < |filters| && Accepts(filters[i], e)
  }

  /** The limit of a request is that of its first filter. */
  function LimitOf(filters: seq<Filter>): Option<int> {
    if filters == [] then None else filters[0].limit
  }

  /** The code slices by the first filter's limit, so a negative one is outside its domain. */
  predicate LimitOk(filters: seq<Filter>) {
    LimitOf(filters).Some? ==> LimitOf(filters).value >= 0
  }

  // ---------- the scans ----------

  method HasTag(e: Event, name: string, value: string) returns (found: bool)
    ensures found <==> CarriesTag(e, name, value)
  {
    for i := 0 to |e.tags|
      invariant forall k :: 0 <= k < i ==> !(|e.tags[k]| >= 2 && e.tags[k][0] == name && value <= e.tags[k][1])
    {
      var tag := e.tags[i];
      if |tag| >= 2 && tag[0] == name {
        if MatchesPrefix(tag[1], value) {
          return true;
        }
      }
    }
    return false;
  }

  method ScanPrefixes(target: string, prefixes: seq<string>) returns (match_: bool)
    ensures match_ <==> SomePrefixOf(target, prefixes)
  {
    match_ := false;
    for i := 0 to |prefixes|
      invariant !match_
      invariant forall k :: 0 <= k < i ==> !(prefixes[k] <= target)
    {
      if MatchesPrefix(target, prefixes[i]) {
        match_ := true;
        break;
      }
    }
  }

  method ScanTagValues(e: Event, name: string, values: seq<string>) returns (found: bool)
    ensures found <==> CarriesSome(e, name, values)
  {
    found := false;
    for j := 0 to |values|
      invariant !found
      invariant forall k :: 0 <= k < j ==> !CarriesTag(e, name, values[k])
    {
      var has := HasTag(e, name, values[j]);
      if has {
        found := true;
        break;
      }
    }
  }

  /** The tag map is visited in any order. */
  method Matches(e: Event, f: Filter) returns (ok: bool)
    ensures ok <==> Accepts(f, e)
  {
    if |Items(f.ids)| > 0 {
      var m := ScanPrefixes(e.id, Items(f.ids));
      if !m { return false; }
    }
    if |Items(f.authors)| > 0 {
      var m := ScanPrefixes(e.pubkey, Items(f.authors));
      if !m { return false; }
    }
    if |Items(f.kinds)| > 0 {
      var kinds := Items(f.kinds);
      var m := false;
      for i := 0 to |kinds|
        invariant !m && e.kind !in kinds[..i]
      {
        if e.kind == kinds[i] {
          m := true;
          break;
        }
      }
      if !m { return false; }
    }
    if f.since.Some? && e.createdAt < f.since.value { return false; }
    if f.until.Some? && e.createdAt > f.until.value { return false; }
    var rest := f.tags.Keys;
    while rest != {}
      invariant rest <= f.tags.Keys
      invariant forall name :: name in f.tags && name !in rest ==> CarriesSome(e, name, f.tags[name])
    {
      var name :| name in rest;
      rest := rest - {name};
      var found := ScanTagValues(e, name, f.tags[name]);
      if !found { return false; }
    }
    return true;
  }

  method MatchesSome(e: Event, filters: seq<Filter>) returns (ok: bool)
    ensures ok <==> AcceptedBySome(filters, e)
  {
    for i := 0 to |filters|
      invariant forall k :: 0 <= k < i ==> !Accepts(filters[k], e)
    {
      var m := Matches(e, filters[i]);
      if m { return true; }
    }
    return false;
  }

  /** Values of the tags called `name`, in order: what GetTagValues returns. */
  ghost function TagValues(tags: seq<seq<string>>, name: string): seq<string> {
    if tags == [] then []
    else
      var rest := TagValues(tags[..|tags| - 1], name);
      var t := tags[|tags| - 1];
      if |t| >= 2 && t[0] == name then rest + [t[1]] else rest
  }

  method GetTagValues(e: Event, tagName: string) returns (values: seq<string>)
    ensures values == TagValues(e.tags, tagName)
    ensures forall v :: v in values <==>
      exists i :: 0 <= i < |e.tags| && |e.tags[i]| >= 2 && e.tags[i][0] == tagName && e.tags[i][1] == v
  {
    values := [];
    for i := 0 to |e.tags|
      invariant values == TagValues(e.tags[..i], tagName)
      invariant forall v :: v in values <==>
        exists k :: 0 <= k < i && |e.tags[k]| >= 2 && e.tags[k][0] == tagName && e.tags[k][1] == v
    {
      assert e.tags[..i + 1][..i] == e.tags[..i];
      var tag := e.tags[i];
      if |tag| >= 2 && tag[0] == tagName {
        values := values + [tag[1]];
      }
    }
    assert e.tags[..|e.tags|] == e.tags;
  }

  predicate FirstNamed(tags: seq<seq<string>>, name: string, i: nat)
    requires i < |tags|
  {
    && |tags[i]| >= 2 && tags[i][0] == name
    && forall k :: 0 <= k < i ==> !(|tags[k]| >= 2 && tags[k][0] == name)
  }

  /** The first value of a tag, the way the channel id and the recipient are read. */
  function FirstTagValue(tags: seq<seq<string>>, name: string): (r: Option<string>)
    ensures r.None? <==> forall i :: 0 <= i < |tags| ==> !(|tags[i]| >= 2 && tags[i][0] == name)
    ensures r.Some? ==> exists i :: 0 <= i < |tags| && FirstNamed(tags, name, i) && tags[i][1] == r.value
  {
    if tags == [] then None
    else if |tags[0]| >= 2 && tags[0][0] == name then Some(tags[0][1])
    else
      var r := FirstTagValue(tags[1..], name);
      assert forall i :: 0 <= i < |tags[1..]| && FirstNamed(tags[1..], name, i) ==> FirstNamed(tags, name, i + 1);
      r
  }

  function ChannelId(e: Event): string {
    var c := FirstTagValue(e.tags, "channel_id");
    if c.Some? then c.value else ""
  }
}
