/**
  The in-memory store: an event map, the tombstoned ids, and events by channel.
  `Memory` is the store as a value; each method of `Store` is proved to take it
  to the value its specification function names. Maps are visited in any order.
 */
module MemoryStore {
  import opened Wrappers
  import opened Orders
  import opened Events

  datatype StoreError = HasBeenDeleted | NotFound | Unauthorized | MissingChannelId

  datatype Memory = Memory(
    events: map<string, Event>, deleted: set<string>, channels: map<string, map<string, Event>>)

  const EMPTY := Memory(map[], {}, map[])

  // ---------- what a store value means ----------

  predicate IsLive(m: Memory, id: string) {
    id in m.events && id !in m.deleted
  }

  ghost function Live(m: Memory): set<Event> {
    set id | id in m.events && id !in m.deleted :: m.events[id]
  }

  ghost function Matching(m: Memory, filters: seq<Filter>): set<Event> {
    set e | e in Live(m) && AcceptedBySome(filters, e)
  }

  /** Kept by every operation: tombstones cover stored ids only, and a replaceable slot has one live event. */
  ghost predicate WellFormed(m: Memory) {
    && (forall id :: id in m.events ==> m.events[id].id == id)
    && m.deleted <= m.events.Keys
    && (forall i, j :: IsLive(m, i) && IsLive(m, j) && SameSlot(m.events[i], m.events[j]) ==> i == j)
  }

  // ---------- operations ----------

  /** Live ids that hold `evt`'s replaceable slot. */
  ghost function Rivals(m: Memory, evt: Event): set<string> {
    set id | id in m.events && IsLiveRival(m, evt, id)
  }

  ghost predicate IsLiveRival(m: Memory, evt: Event, id: string) {
    id in m.events && id !in m.deleted && SameSlot(evt, m.events[id])
  }

  ghost predicate HasNewerRival(m: Memory, evt: Event) {
    exists id :: IsLiveRival(m, evt, id) && evt.createdAt < m.events[id].createdAt
  }

  ghost function Saved(m: Memory, evt: Event): Memory {
    if evt.id in m.deleted || HasNewerRival(m, evt) then m
    else m.(events := m.events[evt.id := evt], deleted := m.deleted + Rivals(m, evt))
  }

  function Fetched(m: Memory, id: string): Result<Event, StoreError> {
    if id in m.deleted then Err(HasBeenDeleted)
    else if id in m.events then Ok(m.events[id])
    else Err(NotFound)
  }

  function Tombstoned(m: Memory, ids: set<string>): Memory {
    m.(deleted := m.deleted + ids)
  }

  predicate Owns(m: Memory, pubkey: string, id: string) {
    id in m.events && m.events[id].pubkey == pubkey
  }

  function DeleteVerdict(m: Memory, id: string, pubkey: string): Result<(), StoreError> {
    if id !in m.events then Err(NotFound)
    else if m.events[id].pubkey != pubkey then Err(Unauthorized)
    else Ok(())
  }

  function OwnedBy(m: Memory, pubkey: string): set<string> {
    set id | id in m.events && m.events[id].pubkey == pubkey
  }

  /** Live ids older than `before` whose kind is not exempt. */
  function Expiring(m: Memory, before: int, exempt: seq<int>): set<string> {
    set id | id in m.events && id !in m.deleted && TooOld(m.events[id], before, exempt)
  }

  predicate TooOld(e: Event, before: int, exempt: seq<int>) {
    e.createdAt < before && e.kind !in exempt
  }

  function ChannelOf(m: Memory, channelId: string): map<string, Event> {
    if channelId in m.channels then m.channels[channelId] else map[]
  }

  ghost predicate ChannelsKeyed(m: Memory) {
    forall c, id :: c in m.channels && id in m.channels[c] ==> m.channels[c][id].id == id
  }

  ghost function ChannelMatching(m: Memory, channelId: string, since: Option<int>, until: Option<int>): set<Event> {
    set id | id in ChannelOf(m, channelId) && InRange(ChannelOf(m, channelId)[id].createdAt, since, until) ::
      ChannelOf(m, channelId)[id]
  }

  function ChannelSaved(m: Memory, evt: Event): Memory {
    if ChannelId(evt) == "" then m
    else m.(channels := m.channels[ChannelId(evt) := ChannelOf(m, ChannelId(evt))[evt.id := evt]])
  }

  function ChannelsDropped(m: Memory, ids: set<string>): Memory {
    m.(channels := m.channels - ids)
  }

  // ---------- query answers ----------

  /** A channel's events within the range, newest first; only a positive limit cuts them. */
  ghost predicate ChannelAnswers(
    m: Memory, channelId: string, since: Option<int>, until: Option<int>, limit: Option<int>, r: seq<Event>)
  {
    exists all: seq<Event> ::
      Lists(all, ChannelMatching(m, channelId, since, until), CreatedAt) && r == Cut(all, PositiveLimit(limit))
  }

  function PositiveLimit(limit: Option<int>): (r: Option<int>)
    ensures r.Some? ==> r == limit && r.value > 0
  {
    if limit.Some? && limit.value > 0 then limit else None
  }

  ghost predicate Answers(m: Memory, filters: seq<Filter>, r: seq<Event>)
    requires LimitOk(filters)
  {
    exists all: seq<Event> :: Lists(all, Matching(m, filters), CreatedAt) && r == Cut(all, LimitOf(filters))
  }

  lemma AnswersAreNewest(m: Memory, filters: seq<Filter>, r: seq<Event>)
    requires LimitOk(filters) && Answers(m, filters, r)
    ensures NoDuplicates(r) && Descending(r, CreatedAt)
    ensures forall e :: e in r ==> e in Live(m) && AcceptedBySome(filters, e)
    ensures filters == [] || filters[0].limit.None? ==> (forall e :: e in r <==> e in Matching(m, filters))
    ensures var n := |Matching(m, filters)|;
            |r| == if filters != [] && filters[0].limit.Some? && filters[0].limit.value < n then filters[0].limit.value else n
    ensures forall e, x :: e in Matching(m, filters) && e !in r && x in r ==> e.createdAt <= x.createdAt
  {
    var all: seq<Event> :| Lists(all, Matching(m, filters), CreatedAt) && r == Cut(all, LimitOf(filters));
    ListingLength(all, Matching(m, filters));
    PrefixKeeps(all, r, CreatedAt);
    RestIsSmaller(all, r, CreatedAt);
  }

  /** Newest first, each once; a positive limit cuts the oldest, any other one nothing. */
  lemma ChannelAnswersAreNewest(m: Memory, channelId: string, since: Option<int>, until: Option<int>, limit: Option<int>,
                                r: seq<Event>)
    requires ChannelAnswers(m, channelId, since, until, limit, r)
    ensures NoDuplicates(r) && Descending(r, CreatedAt)
    ensures forall e :: e in r ==> e in ChannelMatching(m, channelId, since, until)
    ensures var n := |ChannelMatching(m, channelId, since, until)|;
            |r| == if limit.Some? && 0 < limit.value < n then limit.value else n
    ensures forall e, x :: e in ChannelMatching(m, channelId, since, until) && e !in r && x in r ==> e.createdAt <= x.createdAt
  {
    var cut := PositiveLimit(limit);
    var all: seq<Event> :| Lists(all, ChannelMatching(m, channelId, since, until), CreatedAt) && r == Cut(all, cut);
    var c := Cut(all, cut);
    assert c <= all && r == c;
    ListingLength(all, ChannelMatching(m, channelId, since, until));
    PrefixKeeps(all, r, CreatedAt);
    RestIsSmaller(all, r, CreatedAt);
  }

  // ---------- cardinalities ----------

  lemma {:induction false} ImageSize(ids: set<string>, events: map<string, Event>)
    requires ids <= events.Keys
    requires forall id :: id in events ==> events[id].id == id
    ensures |set id | id in ids :: events[id]| == |ids|
  {
    var image := set id | id in ids :: events[id];
    if ids == {} {
    } else {
      var one :| one in ids;
      ImageSize(ids - {one}, events);
      assert image == (set id | id in ids - {one} :: events[id]) + {events[one]};
    }
  }

  lemma LiveSize(m: Memory)
    requires WellFormed(m)
    ensures |Live(m)| == |m.events| - |m.deleted|
  {
    var ids := m.events.Keys - m.deleted;
    ImageSize(ids, m.events);
    assert Live(m) == set id | id in ids :: m.events[id];
    assert m.events.Keys == ids + m.deleted;
    assert |m.events.Keys| == |m.events|;
  }

  lemma OneMoreFilter(filters: seq<Filter>, i: nat)
    requires i < |filters|
    ensures forall e :: AcceptedBySome(filters[..i + 1], e) <==> AcceptedBySome(filters[..i], e) || Accepts(filters[i], e)
  {
  }

  // ---------- the store ----------

  class Store {
    var events: map<string, Event>
    var deleted: set<string>
    var channelEvents: map<string, map<string, Event>>

    ghost function State(): Memory
      reads this
    {
      Memory(events, deleted, channelEvents)
    }

    ghost predicate Valid()
      reads this
    {
      WellFormed(State()) && ChannelsKeyed(State())
    }

    constructor ()
      ensures Valid() && State() == EMPTY
    {
      events, deleted, channelEvents := map[], {}, map[];
    }

    method SaveEvent(evt: Event) returns (r: Result<(), StoreError>)
      requires Valid()
      modifies this
      ensures Valid()
      ensures State() == Saved(old(State()), evt)
      ensures r == if evt.id in old(deleted) then Err(HasBeenDeleted) else Ok(())
    {
      if evt.id in deleted {
        return Err(HasBeenDeleted);
      }
      ghost var m := State();
      if IsReplaceable(evt.kind) {
        var superseded := TombstoneRivals(evt);
        if superseded {
          return Ok(());
        }
      }
      events := events[evt.id := evt];
      SavedIsWellFormed(m, evt);
      return Ok(());
    }

    /** The loop of SaveEvent: a newer live event of the slot stops it, and all others are tombstoned. */
    method TombstoneRivals(evt: Event) returns (superseded: bool)
      requires Valid() && IsReplaceable(evt.kind)
      modifies this`deleted
      ensures superseded <==> HasNewerRival(old(State()), evt)
      ensures deleted == old(deleted) + if superseded then {} else Rivals(old(State()), evt)
    {
      ghost var m := State();
      var rest := events.Keys;
      while rest != {}
        invariant rest <= events.Keys
        invariant deleted == m.deleted + (Rivals(m, evt) - rest)
        invariant forall id :: IsLiveRival(m, evt, id) && id !in rest ==> m.events[id].createdAt <= evt.createdAt
      {
        var id :| id in rest;
        rest := rest - {id};
        var existing := events[id];
        if id !in deleted && existing.pubkey == evt.pubkey && existing.kind == evt.kind {
          assert IsLiveRival(m, evt, id);
          if evt.createdAt >= existing.createdAt {
            deleted := deleted + {id};
          } else {
            assert HasNewerRival(m, evt);
            assert forall other :: IsLiveRival(m, evt, other) ==> SameSlot(m.events[id], m.events[other]);
            return true;
          }
        }
      }
      return false;
    }

    method GetEvent(id: string) returns (r: Result<Event, StoreError>)
      ensures r == Fetched(State(), id)
    {
      if id in deleted {
        return Err(HasBeenDeleted);
      }
      if id !in events {
        return Err(NotFound);
      }
      return Ok(events[id]);
    }

    method QueryEvents(filters: seq<Filter>) returns (results: seq<Event>)
      requires Valid() && LimitOk(filters)
      ensures Answers(State(), filters, results)
    {
      results := [];
      var seen: set<string> := {};
      for i := 0 to |filters|
        invariant seen == set e | e in results :: e.id
        invariant NoDuplicates(results)
        invariant forall e :: e in results <==> e in Matching(State(), filters[..i])
      {
        var rest := events.Keys;
        while rest != {}
          invariant rest <= events.Keys
          invariant seen == set e | e in results :: e.id
          invariant NoDuplicates(results)
          invariant forall e :: e in results <==>
            e in Live(State()) && (AcceptedBySome(filters[..i], e) || (e.id !in rest && Accepts(filters[i], e)))
        {
          var id :| id in rest;
          rest := rest - {id};
          var evt := events[id];
          if evt.id in seen || evt.id in deleted {
            continue;
          }
          var m := Matches(evt, filters[i]);
          if m {
            results := results + [evt];
            seen := seen + {evt.id};
          }
        }
        OneMoreFilter(filters, i);
      }
      assert filters[..|filters|] == filters;
      var unsorted := results;
      results := SortDescending(unsorted, CreatedAt);
      PermutationKeeps(unsorted, results);
      assert Lists(results, Matching(State(), filters), CreatedAt);
      if |filters| > 0 && filters[0].limit.Some? {
        var limit := filters[0].limit.value;
        if |results| > limit {
          results := results[..limit];
        }
      }
    }

    method CountEvents(filters: seq<Filter>) returns (count: nat)
      requires Valid()
      ensures count == |Matching(State(), filters)|
    {
      count := 0;
      var seen: set<string> := {};
      ghost var counted: set<Event> := {};
      for i := 0 to |filters|
        invariant counted == Matching(State(), filters[..i])
        invariant count == |counted| && seen == set e | e in counted :: e.id
      {
        var rest := events.Keys;
        while rest != {}
          invariant rest <= events.Keys
          invariant count == |counted| && seen == set e | e in counted :: e.id
          invariant forall e :: e in counted <==>
            e in Live(State()) && (AcceptedBySome(filters[..i], e) || (e.id !in rest && Accepts(filters[i], e)))
        {
          var id :| id in rest;
          rest := rest - {id};
          var evt := events[id];
          if evt.id in seen || evt.id in deleted {
            continue;
          }
          var m := Matches(evt, filters[i]);
          if m {
            count := count + 1;
            seen := seen + {evt.id};
            counted := counted + {evt};
          }
        }
        OneMoreFilter(filters, i);
      }
      assert filters[..|filters|] == filters;
    }

    method Count() returns (n: int)
      requires Valid()
      ensures n == |Live(State())|
    {
      LiveSize(State());
      n := |events| - |deleted|;
    }

    method DeleteEvent(id: string, deleterPubKey: string) returns (r: Result<(), StoreError>)
      requires Valid()
      modifies this
      ensures Valid()
      ensures r == DeleteVerdict(old(State()), id, deleterPubKey)
      ensures State() == if r.Ok? then Tombstoned(old(State()), {id}) else old(State())
    {
      if id !in events {
        return Err(NotFound);
      }
      if events[id].pubkey != deleterPubKey {
        return Err(Unauthorized);
      }
      deleted := deleted + {id};
      return Ok(());
    }

    method DeleteAllEventsByPubKey(pubkey: string)
      requires Valid()
      modifies this
      ensures Valid()
      ensures State() == Tombstoned(old(State()), OwnedBy(old(State()), pubkey))
    {
      ghost var m := State();
      var rest := events.Keys;
      while rest != {}
        invariant rest <= events.Keys
        invariant State() == Tombstoned(m, OwnedBy(m, pubkey) - rest)
      {
        var id :| id in rest;
        rest := rest - {id};
        if events[id].pubkey == pubkey {
          deleted := deleted + {id};
        }
      }
    }

    /** Returns exactly by how much the number of live events fell. */
    method DeleteEventsOlderThan(before: int, exemptKinds: seq<int>) returns (count: nat)
      requires Valid()
      modifies this
      ensures Valid()
      ensures State() == Tombstoned(old(State()), Expiring(old(State()), before, exemptKinds))
      ensures count == |Live(old(State()))| - |Live(State())|
    {
      ghost var m := State();
      count := TombstoneExpiring(before, exemptKinds);
      TombstonesCount(m, Expiring(m, before, exemptKinds));
    }

    /** The loop of DeleteEventsOlderThan. */
    method TombstoneExpiring(before: int, exemptKinds: seq<int>) returns (count: nat)
      modifies this
      ensures State() == Tombstoned(old(State()), Expiring(old(State()), before, exemptKinds))
      ensures count == |deleted| - |old(deleted)|
    {
      ghost var expiring := Expiring(State(), before, exemptKinds);
      count := 0;
      var rest := events.Keys;
      while rest != {}
        invariant rest <= events.Keys
        invariant events == old(events) && channelEvents == old(channelEvents)
        invariant forall id :: id in deleted <==> id in old(deleted) || (id in expiring && id !in rest)
        invariant count == |deleted| - |old(deleted)|
      {
        var id :| id in rest;
        rest := rest - {id};
        if id in deleted {
          continue;
        }
        if TooOld(events[id], before, exemptKinds) {
          deleted := deleted + {id};
          count := count + 1;
        }
      }
      assert deleted == old(deleted) + expiring;
    }

    method SaveChannelEvent(evt: Event) returns (r: Result<(), StoreError>)
      requires Valid()
      modifies this
      ensures Valid()
      ensures State() == ChannelSaved(old(State()), evt)
      ensures r == if ChannelId(evt) == "" then Err(MissingChannelId) else Ok(())
    {
      var channelId := ChannelId(evt);
      if channelId == "" {
        return Err(MissingChannelId);
      }
      if channelId !in channelEvents {
        channelEvents := channelEvents[channelId := map[]];
      }
      channelEvents := channelEvents[channelId := channelEvents[channelId][evt.id := evt]];
      return Ok(());
    }

    method QueryChannelEvents(channelId: string, since: Option<int>, until: Option<int>, limit: Option<int>)
      returns (results: seq<Event>)
      requires Valid()
      ensures ChannelAnswers(State(), channelId, since, until, limit, results)
    {
      results := [];
      if channelId in channelEvents {
        var channel := channelEvents[channelId];
        assert channel == ChannelOf(State(), channelId);
        var rest := channel.Keys;
        while rest != {}
          invariant rest <= channel.Keys
          invariant NoDuplicates(results)
          invariant forall e :: e in results <==>
            e in ChannelMatching(State(), channelId, since, until) && e.id !in rest
        {
          var id :| id in rest;
          rest := rest - {id};
          var evt := channel[id];
          if since.Some? && evt.createdAt < since.value { continue; }
          if until.Some? && evt.createdAt > until.value { continue; }
          results := results + [evt];
        }
      }
      var unsorted := results;
      results := SortDescending(unsorted, CreatedAt);
      PermutationKeeps(unsorted, results);
      ghost var all := results;
      assert Lists(all, ChannelMatching(State(), channelId, since, until), CreatedAt);
      if limit.Some? && limit.value > 0 && |results| > limit.value {
        results := results[..limit.value];
      }
      assert results == Cut(all, PositiveLimit(limit));
    }

    method DeleteChannelEvents(channelId: string) returns (count: nat)
      requires Valid()
      modifies this
      ensures Valid()
      ensures State() == ChannelsDropped(old(State()), {channelId})
      ensures count == |ChannelOf(old(State()), channelId)|
    {
      if channelId !in channelEvents {
        return 0;
      }
      count := |channelEvents[channelId]|;
      channelEvents := channelEvents - {channelId};
    }
  }

  /** As many events stop being live as ids are newly tombstoned. */
  lemma TombstonesCount(m: Memory, ids: set<string>)
    requires WellFormed(m) && ids <= m.events.Keys
    ensures WellFormed(Tombstoned(m, ids))
    ensures |Live(m)| - |Live(Tombstoned(m, ids))| == |m.deleted + ids| - |m.deleted|
  {
    TombstonedIsWellFormed(m, ids);
    LiveSize(m);
    LiveSize(Tombstoned(m, ids));
  }

  lemma TombstonedIsWellFormed(m: Memory, ids: set<string>)
    requires WellFormed(m) && ids <= m.events.Keys
    ensures WellFormed(Tombstoned(m, ids))
  {
  }

  lemma SavedIsWellFormed(m: Memory, evt: Event)
    requires WellFormed(m)
    ensures WellFormed(Saved(m, evt))
  {
    var n := Saved(m, evt);
    if n != m {
      forall i, j | IsLive(n, i) && IsLive(n, j) && SameSlot(n.events[i], n.events[j]) ensures i == j {
        assert !IsLiveRival(m, evt, i) && !IsLiveRival(m, evt, j);
      }
    }
  }
}
