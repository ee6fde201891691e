/**
  The SQLite store as two tables, with the statements each method issues given
  their relational meaning: DELETE removes the selected rows, INSERT OR REPLACE
  and INSERT OR IGNORE act on the primary key, and ORDER BY yields some sorted
  permutation. Times stamped on tombstones come from the caller's clock.
 */
module SqliteStore {
  import opened Wrappers
  import opened Orders
  import opened Events
  import opened TagCodec
  import opened SqlFilters
  import opened MemoryStore

  datatype Grave = Grave(deleter: string, deletedAt: int)

  datatype Database = Database(events: map<string, Row>, deleted: map<string, Grave>)

  const NO_ROWS := Database(map[], map[])

  ghost predicate Indexed(db: Database) {
    forall id :: id in db.events ==> db.events[id].id == id
  }

  function RowOf(e: Event): Row {
    Row(e.id, e.pubkey, e.createdAt, e.kind, PrintedTags(e.tags), e.content, e.sig)
  }

  /** Scanning a row back: an empty or "[]" column is not handed to the parser. */
  function EventOf(row: Row): Event {
    var tags := if row.tagsJSON != "" && row.tagsJSON != "[]" then ParsedTags(row.tagsJSON) else [];
    Event(row.id, row.pubkey, row.createdAt, row.kind, tags, row.content, row.sig)
  }

  /** Reading back a stored event changes at most its tags, and keeps them exactly on the codec's domain. */
  lemma StoredEventReadsBack(e: Event)
    ensures EventOf(RowOf(e)) == e.(tags := ParsedTags(PrintedTags(e.tags)))
    ensures EventOf(RowOf(e)) == e <==> InDomain(e.tags)
  {
    RoundTripExactly(e.tags);
    assert ParsedTags("[]") == [] by { TrimKeepsEnds("[]"); }
  }

  // ---------- operations ----------

  predicate InSlot(row: Row, e: Event) {
    row.pubkey == e.pubkey && row.kind == e.kind
  }

  /** Some row of the slot is newer: what comparing with SELECT ... ORDER BY created_at DESC LIMIT 1 decides. */
  predicate SlotHasNewer(db: Database, e: Event) {
    exists id :: id in db.events && InSlot(db.events[id], e) && e.createdAt < db.events[id].createdAt
  }

  function SqlSaved(db: Database, e: Event): Database {
    if e.id in db.deleted then db
    else if !IsReplaceable(e.kind) then db.(events := db.events[e.id := RowOf(e)])
    else if SlotHasNewer(db, e) then db
    else db.(events := (map id | id in db.events && !InSlot(db.events[id], e) :: db.events[id])[e.id := RowOf(e)])
  }

  function SqlFetched(db: Database, id: string): Result<Event, StoreError> {
    if id in db.deleted then Err(HasBeenDeleted)
    else if id in db.events then Ok(EventOf(db.events[id]))
    else Err(NotFound)
  }

  function SqlDeleteVerdict(db: Database, id: string, pubkey: string): Result<(), StoreError> {
    if id !in db.events then Err(NotFound)
    else if db.events[id].pubkey != pubkey then Err(Unauthorized)
    else Ok(())
  }

  /** INSERT OR IGNORE: an id already there keeps its grave. */
  function Buried(db: Database, ids: set<string>, pubkey: string, now: int): Database {
    db.(deleted := (map id | id in ids :: Grave(pubkey, now)) + db.deleted)
  }

  function SqlOwnedBy(db: Database, pubkey: string): set<string> {
    set id | id in db.events && db.events[id].pubkey == pubkey
  }

  /** Rows removed by retention, tombstoned or not. */
  function SqlExpiring(db: Database, before: int, exempt: seq<int>): set<string> {
    set id | id in db.events && db.events[id].createdAt < before && db.events[id].kind !in exempt
  }

  function WithoutRows(db: Database, ids: set<string>): Database {
    db.(events := db.events - ids)
  }

  // ---------- query answers ----------

  ghost function Stored(db: Database): set<Event> {
    set id | id in db.events :: EventOf(db.events[id])
  }

  ghost function Selected(db: Database, f: Filter): set<Event> {
    set e | e in Stored(db) && SqlSelects(f, e)
  }

  ghost function SelectedBySome(db: Database, filters: seq<Filter>): set<Event> {
    set e | e in Stored(db) && exists i :: 0 <= i < |filters| && SqlSelects(filters[i], e)
  }

  /** LIMIT: a negative one is no limit at all. */
  function SqlCut<T>(xs: seq<T>, limit: Option<int>): (r: seq<T>)
    ensures r <= xs
  {
    if limit.Some? && limit.value >= 0 then Take(xs, limit.value) else xs
  }

  /** One filter's answer: its newest rows up to the limit, ties in any order. */
  ghost predicate FilterAnswer(db: Database, f: Filter, xs: seq<Event>) {
    exists full: seq<Event> :: Lists(full, Selected(db, f), CreatedAt) && xs == SqlCut(full, f.limit)
  }

  ghost function Union(parts: seq<seq<Event>>): set<Event> {
    set i, j | 0 <= i < |parts| && 0 <= j < |parts[i]| :: parts[i][j]
  }

  ghost predicate FilterAnswers(db: Database, filters: seq<Filter>, parts: seq<seq<Event>>) {
    |parts| == |filters| && forall i :: 0 <= i < |parts| ==> FilterAnswer(db, filters[i], parts[i])
  }

  /** Each filter is cut in SQL, the answers are merged, sorted again, and cut by the first filter's limit. */
  ghost predicate SqlAnswers(db: Database, filters: seq<Filter>, r: seq<Event>)
    requires LimitOk(filters)
  {
    exists parts, all: seq<Event> ::
      FilterAnswers(db, filters, parts) && Lists(all, Union(parts), CreatedAt) && r == Cut(all, LimitOf(filters))
  }

  // ---------- the store ----------

  class Store {
    var events: map<string, Row>
    var deleted: map<string, Grave>

    ghost function State(): Database
      reads this
    {
      Database(events, deleted)
    }

    ghost predicate Valid()
      reads this
    {
      Indexed(State())
    }

    constructor ()
      ensures Valid() && State() == NO_ROWS
    {
      events, deleted := map[], map[];
    }

    /** SELECT created_at ... WHERE pubkey = ? AND kind = ? ORDER BY created_at DESC LIMIT 1 */
    method NewestInSlot(evt: Event) returns (existing: Option<int>)
      ensures existing.None? <==> forall id :: id in events ==> !InSlot(events[id], evt)
      ensures existing.Some? ==>
                exists id :: id in events && InSlot(events[id], evt) && events[id].createdAt == existing.value
      ensures existing.Some? ==>
                forall id :: id in events && InSlot(events[id], evt) ==> events[id].createdAt <= existing.value
    {
      existing := None;
      var rest := events.Keys;
      while rest != {}
        invariant rest <= events.Keys
        invariant existing.None? ==> forall id :: id in events && id !in rest ==> !InSlot(events[id], evt)
        invariant existing.Some? ==>
          exists id :: id in events && InSlot(events[id], evt) && events[id].createdAt == existing.value
        invariant existing.Some? ==>
          forall id :: id in events && id !in rest && InSlot(events[id], evt) ==> events[id].createdAt <= existing.value
      {
        var id :| id in rest;
        rest := rest - {id};
        if InSlot(events[id], evt) && (existing.None? || existing.value < events[id].createdAt) {
          existing := Some(events[id].createdAt);
        }
      }
    }

    method SaveEvent(evt: Event) returns (r: Result<(), StoreError>)
      requires Valid()
      modifies this
      ensures Valid()
      ensures State() == SqlSaved(old(State()), evt)
      ensures r == if evt.id in old(deleted) then Err(HasBeenDeleted) else Ok(())
    {
      if evt.id in deleted {
        return Err(HasBeenDeleted);
      }
      if IsReplaceable(evt.kind) {
        var existing := NewestInSlot(evt);
        if existing.Some? && evt.createdAt < existing.value {
          return Ok(());
        }
        events := map id | id in events && !(InSlot(events[id], evt) && id != evt.id) :: events[id];
      }
      var tagsJSON := TagsToJSON(evt.tags);
      events := events[evt.id := Row(evt.id, evt.pubkey, evt.createdAt, evt.kind, tagsJSON, evt.content, evt.sig)];
      return Ok(());
    }

    method ScanRow(row: Row) returns (evt: Event)
      ensures evt == EventOf(row)
    {
      var tags: seq<Tag> := [];
      if row.tagsJSON != "" && row.tagsJSON != "[]" {
        tags := ParseTagsJSON(row.tagsJSON);
      }
      evt := Event(row.id, row.pubkey, row.createdAt, row.kind, tags, row.content, row.sig);
    }

    method GetEvent(id: string) returns (r: Result<Event, StoreError>)
      ensures r == SqlFetched(State(), id)
    {
      if id in deleted {
        return Err(HasBeenDeleted);
      }
      if id !in events {
        return Err(NotFound);
      }
      var evt := ScanRow(events[id]);
      return Ok(evt);
    }

    /** The rows a query selects, scanned. */
    method SelectRows(f: Filter, where: seq<Condition>, args: seq<Value>) returns (selected: seq<Event>)
      requires Valid() && Compiled(where, args, f)
      ensures NoDuplicates(selected) && forall e :: e in selected <==> e in Selected(State(), f)
    {
      selected := [];
      var rest := events.Keys;
      while rest != {}
        invariant rest <= events.Keys
        invariant NoDuplicates(selected)
        invariant forall e :: e in selected <==> e in Selected(State(), f) && e.id !in rest
      {
        var id :| id in rest;
        OneRowLess(State(), f, rest, id);
        rest := rest - {id};
        if Selects(where, args, events[id]) {
          var evt := ScanRow(events[id]);
          selected := selected + [evt];
        }
      }
    }

    /** Builds the query, lets the engine select, order and limit, and scans the rows. */
    method QueryFilter(f: Filter) returns (xs: seq<Event>)
      requires Valid()
      ensures FilterAnswer(State(), f, xs)
    {
      var q, args := BuildQuery(f);
      var selected := SelectRows(f, q.where, args[..AllSlots(q.where)]);
      xs := SortDescending(selected, CreatedAt);
      PermutationKeeps(selected, xs);
      assert Lists(xs, Selected(State(), f), CreatedAt);
      if q.limited {
        assert args[|args| - 1] == Number(f.limit.value);
        xs := SqlCut(xs, Some(args[|args| - 1].n));
      }
    }

    /** Appends the events whose ids were not seen yet. */
    method MergeNew(results: seq<Event>, seen: set<string>, xs: seq<Event>)
      returns (results': seq<Event>, seen': set<string>)
      requires seen == (set e | e in results :: e.id) && NoDuplicates(results)
      requires IdsIdentify(results + xs)
      ensures seen' == (set e | e in results' :: e.id) && NoDuplicates(results')
      ensures forall e :: e in results' <==> e in results || e in xs
    {
      results', seen' := results, seen;
      for j := 0 to |xs|
        invariant seen' == (set e | e in results' :: e.id) && NoDuplicates(results')
        invariant forall e :: e in results' <==> e in results || e in xs[..j]
      {
        assert forall e :: e in xs[..j + 1] <==> e in xs[..j] || e == xs[j];
        if xs[j].id !in seen' {
          results' := results' + [xs[j]];
          seen' := seen' + {xs[j].id};
        } else {
          var e :| e in results' && e.id == xs[j].id;
          assert e in results + xs && xs[j] in results + xs;
        }
      }
      assert xs[..|xs|] == xs;
    }

    method QueryEvents(filters: seq<Filter>) returns (results: seq<Event>)
      requires Valid() && LimitOk(filters)
      ensures SqlAnswers(State(), filters, results)
    {
      results := [];
      var seen: set<string> := {};
      ghost var parts: seq<seq<Event>> := [];
      for i := 0 to |filters|
        invariant FilterAnswers(State(), filters[..i], parts)
        invariant seen == set e | e in results :: e.id
        invariant NoDuplicates(results)
        invariant forall e :: e in results <==> e in Union(parts)
      {
        var xs := QueryFilter(filters[i]);
        AnswerIsStored(State(), filters[..i], parts);
        FilterAnswerIsStored(State(), filters[i], xs);
        assert IdsIdentify(results + xs);
        results, seen := MergeNew(results, seen, xs);
        parts := parts + [xs];
        assert filters[..i + 1] == filters[..i] + [filters[i]];
        UnionGrows(parts[..i], xs);
      }
      assert filters[..|filters|] == filters;
      var unsorted := results;
      results := SortDescending(unsorted, CreatedAt);
      PermutationKeeps(unsorted, results);
      ghost var all := results;
      assert Lists(all, Union(parts), CreatedAt);
      if |filters| > 0 && filters[0].limit.Some? {
        var limit := filters[0].limit.value;
        if |results| > limit {
          results := results[..limit];
        }
      }
      assert FilterAnswers(State(), filters, parts) && results == Cut(all, LimitOf(filters));
    }

    method DeleteEvent(id: string, deleterPubKey: string, now: int) returns (r: Result<(), StoreError>)
      modifies this
      ensures r == SqlDeleteVerdict(old(State()), id, deleterPubKey)
      ensures State() == if r.Ok? then Buried(old(State()), {id}, deleterPubKey, now) else old(State())
    {
      if id !in events {
        return Err(NotFound);
      }
      if events[id].pubkey != deleterPubKey {
        return Err(Unauthorized);
      }
      if id !in deleted {
        deleted := deleted[id := Grave(deleterPubKey, now)];
      }
      return Ok(());
    }

    method DeleteAllEventsByPubKey(pubkey: string, now: int)
      modifies this
      ensures State() == Buried(old(State()), SqlOwnedBy(old(State()), pubkey), pubkey, now)
    {
      ghost var graves := deleted;
      var eventIDs := SqlOwnedBy(Database(events, deleted), pubkey);
      var rest := eventIDs;
      while rest != {}
        invariant rest <= eventIDs && events == old(events)
        invariant deleted == (map id | id in eventIDs - rest :: Grave(pubkey, now)) + graves
      {
        var id :| id in rest;
        rest := rest - {id};
        if id !in deleted {
          deleted := deleted[id := Grave(pubkey, now)];
        }
      }
    }

    /** Returns the number of rows removed. */
    method DeleteEventsOlderThan(before: int, exemptKinds: seq<int>) returns (count: nat)
      requires Valid()
      modifies this
      ensures Valid()
      ensures State() == WithoutRows(old(State()), SqlExpiring(old(State()), before, exemptKinds))
      ensures count == |old(events)| - |events|
    {
      var doomed := SqlExpiring(Database(events, deleted), before, exemptKinds);
      count := |doomed|;
      assert |events.Keys - doomed| == |events.Keys| - |doomed|;
      events := events - doomed;
      assert events.Keys == old(events).Keys - doomed;
      assert |events.Keys| == |events| && |old(events).Keys| == |old(events)|;
    }
  }

  ghost predicate IdsIdentify(xs: seq<Event>) {
    forall x, y :: x in xs && y in xs && x.id == y.id ==> x == y
  }

  /** Looking at one more row adds its event if the filter selects it. */
  lemma OneRowLess(db: Database, f: Filter, rest: set<string>, id: string)
    requires Indexed(db) && id in rest && rest <= db.events.Keys
    ensures forall e :: e in Selected(db, f) && e.id !in rest - {id} <==>
              (e in Selected(db, f) && e.id !in rest) || (e == EventOf(db.events[id]) && SqlSelects(f, e))
  {
  }

  lemma FilterAnswerIsStored(db: Database, f: Filter, xs: seq<Event>)
    requires FilterAnswer(db, f, xs)
    ensures forall e :: e in xs ==> e in Selected(db, f)
  {
    var full: seq<Event> :| Lists(full, Selected(db, f), CreatedAt) && xs == SqlCut(full, f.limit);
    assert forall e :: e in xs ==> e in full;
  }

  lemma AnswerIsStored(db: Database, filters: seq<Filter>, parts: seq<seq<Event>>)
    requires FilterAnswers(db, filters, parts)
    ensures Union(parts) <= SelectedBySome(db, filters)
  {
    forall i, j | 0 <= i < |parts| && 0 <= j < |parts[i]| ensures parts[i][j] in SelectedBySome(db, filters) {
      FilterAnswerIsStored(db, filters[i], parts[i]);
      assert parts[i][j] in parts[i];
    }
  }

  /** A grave once dug keeps who dug it and when; retention removes old rows, tombstoned or not, and no grave. */
  lemma GravesAreKept(db: Database, ids: set<string>, pubkey: string, now: int, before: int, exempt: seq<int>)
    ensures var d := Buried(db, ids, pubkey, now).deleted;
            && (forall id :: id in d <==> id in db.deleted || id in ids)
            && (forall id :: id in d ==> d[id] == if id in db.deleted then db.deleted[id] else Grave(pubkey, now))
    ensures var n := WithoutRows(db, SqlExpiring(db, before, exempt));
            && n.deleted == db.deleted
            && (forall id :: id in n.events <==>
                  (id in db.events && (db.events[id].createdAt >= before || db.events[id].kind in exempt)))
            && (forall id :: id in n.events ==> n.events[id] == db.events[id])
  {
  }

  /** Tombstones play no part in a query: a deleted row is still answered. */
  lemma QueriesIgnoreTombstones(db: Database, ids: set<string>, pubkey: string, now: int, filters: seq<Filter>, r: seq<Event>)
    requires LimitOk(filters)
    ensures SqlAnswers(Buried(db, ids, pubkey, now), filters, r) <==> SqlAnswers(db, filters, r)
  {
    var after := Buried(db, ids, pubkey, now);
    assert Stored(after) == Stored(db);
    forall i | 0 <= i < |filters| ensures Selected(after, filters[i]) == Selected(db, filters[i]) {}
    forall parts ensures FilterAnswers(after, filters, parts) <==> FilterAnswers(db, filters, parts) {}
  }

  lemma UnionGrows(parts: seq<seq<Event>>, xs: seq<Event>)
    ensures forall e :: e in Union(parts + [xs]) <==> e in Union(parts) || e in xs
  {
    var all := parts + [xs];
    forall e ensures e in Union(all) <==> e in Union(parts) || e in xs {
      if e in Union(parts) {
        var i, j :| 0 <= i < |parts| && 0 <= j < |parts[i]| && parts[i][j] == e;
        assert all[i][j] == e;
      }
      if e in xs {
        var j :| 0 <= j < |xs| && xs[j] == e;
        assert all[|parts|][j] == e;
      }
    }
  }
}
