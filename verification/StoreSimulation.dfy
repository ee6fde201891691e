/**
  The two stores side by side. On runs of saves with fresh ids, deletions, author
  erasures and retention they fetch the same ids exactly as long as no save is older
  than a tombstoned row of its slot, and the same events wherever the tag codec
  round-trips; what the in-memory store converges to, SQLite does too.
 */
module StoreSimulation {
  import opened Wrappers
  import opened Events
  import opened TagCodec
  import opened SqlFilters
  import opened MemoryStore
  import opened MemoryRuns
  import opened SqliteStore

  datatype StoreCall =
    | CallSave(evt: Event)
    | CallDelete(id: string, pubkey: string, now: int)
    | CallDeleteAuthor(pubkey: string, now: int)
    | CallRetain(before: int, exempt: seq<int>)

  ghost function MemoryStep(m: Memory, c: StoreCall): Memory {
    match c
    case CallSave(e) => Saved(m, e)
    case CallDelete(id, pk, _) => if DeleteVerdict(m, id, pk).Ok? then Tombstoned(m, {id}) else m
    case CallDeleteAuthor(pk, _) => Tombstoned(m, OwnedBy(m, pk))
    case CallRetain(before, exempt) => Tombstoned(m, Expiring(m, before, exempt))
  }

  function SqlStep(db: Database, c: StoreCall): Database {
    match c
    case CallSave(e) => SqlSaved(db, e)
    case CallDelete(id, pk, now) => if SqlDeleteVerdict(db, id, pk).Ok? then Buried(db, {id}, pk, now) else db
    case CallDeleteAuthor(pk, now) => Buried(db, SqlOwnedBy(db, pk), pk, now)
    case CallRetain(before, exempt) => WithoutRows(db, SqlExpiring(db, before, exempt))
  }

  ghost function MemoryRun(cs: seq<StoreCall>): Memory {
    if cs == [] then EMPTY else MemoryStep(MemoryRun(cs[..|cs| - 1]), cs[|cs| - 1])
  }

  function SqlRun(cs: seq<StoreCall>): Database {
    if cs == [] then NO_ROWS else SqlStep(SqlRun(cs[..|cs| - 1]), cs[|cs| - 1])
  }

  // ---------- one row a replaceable slot, in every reachable database ----------

  predicate SharesSlot(a: Row, b: Row) {
    IsReplaceable(a.kind) && a.pubkey == b.pubkey && a.kind == b.kind
  }

  ghost predicate OneRowASlot(db: Database) {
    forall i, j :: i in db.events && j in db.events && SharesSlot(db.events[i], db.events[j]) ==> i == j
  }

  lemma {:induction false} SqlRunKeepsSlots(cs: seq<StoreCall>)
    ensures Indexed(SqlRun(cs)) && OneRowASlot(SqlRun(cs))
  {
    if cs == [] {
    } else {
      SqlRunKeepsSlots(cs[..|cs| - 1]);
    }
  }

  // ---------- the simulation ----------

  ghost predicate Mirrors(m: Memory, db: Database) {
    && WellFormed(m)
    && OneRowASlot(db)
    && (forall id :: id in db.events ==> id in m.events && db.events[id] == RowOf(m.events[id]))
    && (forall id :: IsLive(m, id) <==> id in db.events && id !in db.deleted)
    && db.deleted.Keys <= m.deleted
  }

  /** A tombstoned row still holds the slot of `e`, and is newer. */
  predicate Overshadowed(db: Database, e: Event) {
    IsReplaceable(e.kind) &&
    exists id :: id in db.events && id in db.deleted && InSlot(db.events[id], e) && e.createdAt < db.events[id].createdAt
  }

  /** A save uses an id the store does not hold. */
  predicate IsFresh(m: Memory, c: StoreCall) {
    c.CallSave? ==> c.evt.id !in m.events
  }

  predicate IsOvershadowed(db: Database, c: StoreCall) {
    c.CallSave? && Overshadowed(db, c.evt)
  }

  /** Every call keeps the stores in step, unless it saves an event overshadowed by a tombstoned row. */
  lemma MirrorStep(m: Memory, db: Database, c: StoreCall)
    requires Mirrors(m, db) && IsFresh(m, c) && !IsOvershadowed(db, c)
    ensures Mirrors(MemoryStep(m, c), SqlStep(db, c))
  {
    match c
    case CallSave(e) => MirrorSave(m, db, e);
    case CallDelete(id, pk, now) => MirrorDelete(m, db, id, pk, now);
    case CallDeleteAuthor(pk, now) => MirrorErase(m, db, pk, now);
    case CallRetain(before, exempt) => MirrorRetain(m, db, before, exempt);
  }

  /** SQLite may have no row to bury: then the event was not live. */
  lemma MirrorDelete(m: Memory, db: Database, id: string, pk: string, now: int)
    requires Mirrors(m, db)
    ensures Mirrors(MemoryStep(m, CallDelete(id, pk, now)), SqlStep(db, CallDelete(id, pk, now)))
  {
    if DeleteVerdict(m, id, pk).Ok? {
      TombstonedIsWellFormed(m, {id});
    }
  }

  lemma MirrorErase(m: Memory, db: Database, pk: string, now: int)
    requires Mirrors(m, db)
    ensures Mirrors(Tombstoned(m, OwnedBy(m, pk)), Buried(db, SqlOwnedBy(db, pk), pk, now))
  {
    TombstonedIsWellFormed(m, OwnedBy(m, pk));
  }

  lemma MirrorRetain(m: Memory, db: Database, before: int, exempt: seq<int>)
    requires Mirrors(m, db)
    ensures Mirrors(Tombstoned(m, Expiring(m, before, exempt)), WithoutRows(db, SqlExpiring(db, before, exempt)))
  {
    TombstonedIsWellFormed(m, Expiring(m, before, exempt));
  }

  lemma MirrorSave(m: Memory, db: Database, e: Event)
    requires Mirrors(m, db) && e.id !in m.events && !Overshadowed(db, e)
    ensures Mirrors(Saved(m, e), SqlSaved(db, e))
  {
    SavedIsWellFormed(m, e);
    SameVerdict(m, db, e);
    if !HasNewerRival(m, e) {
      SaveKeepsRows(m, db, e);
      SaveKeepsLive(m, db, e);
    }
  }

  /** A live rival in memory is the one row of its slot. */
  lemma RivalIsTheRow(m: Memory, db: Database, e: Event, id: string)
    requires Mirrors(m, db) && IsLiveRival(m, e, id)
    ensures id in db.events && InSlot(db.events[id], e) && IsReplaceable(e.kind)
    ensures forall x :: x in db.events && InSlot(db.events[x], e) ==> x == id
  {
    assert IsLive(m, id);
    forall x | x in db.events && InSlot(db.events[x], e) ensures x == id {
      assert SharesSlot(db.events[x], db.events[id]);
    }
  }

  /** Then both stores drop the event, or both keep it. */
  lemma SameVerdict(m: Memory, db: Database, e: Event)
    requires Mirrors(m, db) && !Overshadowed(db, e)
    ensures IsReplaceable(e.kind) && SlotHasNewer(db, e) <==> HasNewerRival(m, e)
  {
    if HasNewerRival(m, e) {
      var id :| IsLiveRival(m, e, id) && e.createdAt < m.events[id].createdAt;
      RivalIsTheRow(m, db, e, id);
    }
    if IsReplaceable(e.kind) && SlotHasNewer(db, e) {
      var id :| id in db.events && InSlot(db.events[id], e) && e.createdAt < db.events[id].createdAt;
      assert IsLive(m, id) && IsLiveRival(m, e, id);
    }
  }

  /** What SQLite keeps beside the event: the rows of other slots, and of non-replaceable kinds. */
  lemma SaveKeepsRows(m: Memory, db: Database, e: Event)
    requires Mirrors(m, db) && e.id !in m.events && !(IsReplaceable(e.kind) && SlotHasNewer(db, e))
    ensures var d := SqlSaved(db, e);
            && d.deleted == db.deleted && OneRowASlot(d)
            && (forall id :: id in d.events <==> id == e.id || (id in db.events && !SharesSlot(db.events[id], RowOf(e))))
            && (forall id :: id in d.events ==> d.events[id] == if id == e.id then RowOf(e) else db.events[id])
  {
  }

  lemma SaveKeepsLive(m: Memory, db: Database, e: Event)
    requires Mirrors(m, db) && e.id !in m.events && !HasNewerRival(m, e)
    ensures var n := Saved(m, e);
            && m.deleted <= n.deleted && e.id !in n.deleted
            && (forall id :: IsLive(n, id) <==> id == e.id || (IsLive(m, id) && !SharesSlot(RowOf(m.events[id]), RowOf(e))))
  {
    forall id | IsLive(m, id) ensures IsLiveRival(m, e, id) <==> SharesSlot(RowOf(m.events[id]), RowOf(e)) {}
  }

  /** The in-memory store serves an overshadowed event, and SQLite does not know it. */
  lemma OvershadowedSaveDiverges(m: Memory, db: Database, e: Event)
    requires Mirrors(m, db) && e.id !in m.events && Overshadowed(db, e)
    ensures Fetched(Saved(m, e), e.id) == Ok(e) && SqlFetched(SqlSaved(db, e), e.id) == Err(NotFound)
  {
    var row :| row in db.events && row in db.deleted && InSlot(db.events[row], e) && e.createdAt < db.events[row].createdAt;
    if HasNewerRival(m, e) {
      var id :| IsLiveRival(m, e, id);
      RivalIsTheRow(m, db, e, id);
      assert false;
    }
  }

  // ---------- whole runs ----------

  /** No id is saved twice. */
  ghost predicate FreshRun(cs: seq<StoreCall>) {
    forall i, j :: 0 <= i < j < |cs| && cs[i].CallSave? && cs[j].CallSave? ==> cs[i].evt.id != cs[j].evt.id
  }

  ghost predicate SavedIn(cs: seq<StoreCall>, id: string) {
    exists i :: 0 <= i < |cs| && cs[i].CallSave? && cs[i].evt.id == id
  }

  lemma {:induction false} HeldIsSaved(cs: seq<StoreCall>)
    ensures forall id :: id in MemoryRun(cs).events ==> SavedIn(cs, id)
  {
    if cs == [] {
    } else {
      var n := |cs| - 1;
      HeldIsSaved(cs[..n]);
      forall id | id in MemoryRun(cs).events ensures SavedIn(cs, id) {
        if id in MemoryRun(cs[..n]).events {
          var i :| 0 <= i < n && cs[..n][i].CallSave? && cs[..n][i].evt.id == id;
          assert cs[i].CallSave? && cs[i].evt.id == id;
        } else {
          assert cs[n].CallSave? && cs[n].evt.id == id;
        }
      }
    }
  }

  lemma NextIsFresh(cs: seq<StoreCall>, n: nat)
    requires FreshRun(cs) && n < |cs|
    ensures IsFresh(MemoryRun(cs[..n]), cs[n])
    ensures MemoryRun(cs[..n + 1]) == MemoryStep(MemoryRun(cs[..n]), cs[n])
    ensures SqlRun(cs[..n + 1]) == SqlStep(SqlRun(cs[..n]), cs[n])
  {
    HeldIsSaved(cs[..n]);
    assert cs[..n + 1][..n] == cs[..n];
  }

  /** Both stores fetch the same ids. */
  ghost predicate FetchAlike(m: Memory, db: Database) {
    forall id :: Fetched(m, id).Ok? <==> SqlFetched(db, id).Ok?
  }

  ghost predicate AlikeAfter(cs: seq<StoreCall>, n: nat)
    requires n <= |cs|
  {
    FetchAlike(MemoryRun(cs[..n]), SqlRun(cs[..n]))
  }

  ghost predicate OvershadowedAt(cs: seq<StoreCall>, i: nat)
    requires i < |cs|
  {
    IsOvershadowed(SqlRun(cs[..i]), cs[i])
  }

  lemma MirroredFetchAlike(m: Memory, db: Database)
    requires Mirrors(m, db)
    ensures FetchAlike(m, db)
  {
    forall id ensures Fetched(m, id).Ok? <==> SqlFetched(db, id).Ok? {
      assert Fetched(m, id).Ok? <==> IsLive(m, id);
    }
  }

  /** Up to the first overshadowed save the stores are in step. */
  lemma {:induction false} RunsMirror(cs: seq<StoreCall>, n: nat)
    requires FreshRun(cs) && n <= |cs| && NoneOvershadowed(cs, n)
    ensures Mirrors(MemoryRun(cs[..n]), SqlRun(cs[..n]))
  {
    if n == 0 {
      assert cs[..0] == [];
    } else {
      RunsMirror(cs, n - 1);
      NextIsFresh(cs, n - 1);
      assert !OvershadowedAt(cs, n - 1);
      MirrorStep(MemoryRun(cs[..n - 1]), SqlRun(cs[..n - 1]), cs[n - 1]);
    }
  }

  ghost predicate AlikeUpTo(cs: seq<StoreCall>, n: nat)
    requires n <= |cs|
  {
    forall k: nat :: k <= n ==> AlikeAfter(cs, k)
  }

  ghost predicate NoneOvershadowed(cs: seq<StoreCall>, n: nat)
    requires n <= |cs|
  {
    forall i: nat :: i < n ==> !OvershadowedAt(cs, i)
  }

  lemma OvershadowedMeansApart(cs: seq<StoreCall>, i: nat)
    requires FreshRun(cs) && i < |cs| && Mirrors(MemoryRun(cs[..i]), SqlRun(cs[..i])) && OvershadowedAt(cs, i)
    ensures !AlikeAfter(cs, i + 1)
  {
    NextIsFresh(cs, i);
    OvershadowedSaveDiverges(MemoryRun(cs[..i]), SqlRun(cs[..i]), cs[i].evt);
  }

  lemma {:induction false} AlikeMeansNoneOvershadowed(cs: seq<StoreCall>, n: nat)
    requires FreshRun(cs) && n <= |cs| && AlikeUpTo(cs, n)
    ensures NoneOvershadowed(cs, n)
  {
    if n == 0 {
    } else {
      AlikeMeansNoneOvershadowed(cs, n - 1);
      RunsMirror(cs, n - 1);
      if OvershadowedAt(cs, n - 1) {
        OvershadowedMeansApart(cs, n - 1);
      }
    }
  }

  /** The stores fetch the same ids all through a run if and only if no save of it is overshadowed. */
  lemma StoresAgree(cs: seq<StoreCall>)
    requires FreshRun(cs)
    ensures AlikeUpTo(cs, |cs|) <==> NoneOvershadowed(cs, |cs|)
  {
    if AlikeUpTo(cs, |cs|) {
      AlikeMeansNoneOvershadowed(cs, |cs|);
    }
    if NoneOvershadowed(cs, |cs|) {
      forall n: nat | n <= |cs| ensures AlikeAfter(cs, n) {
        assert NoneOvershadowed(cs, n);
        RunsMirror(cs, n);
        MirroredFetchAlike(MemoryRun(cs[..n]), SqlRun(cs[..n]));
      }
    }
  }

  /** What they then fetch differs at most in the tags, and not at all exactly on the codec's domain. */
  lemma FetchedAlike(cs: seq<StoreCall>, id: string)
    requires FreshRun(cs) && NoneOvershadowed(cs, |cs|)
    ensures var mem, sql := Fetched(MemoryRun(cs), id), SqlFetched(SqlRun(cs), id);
            && (mem.Ok? <==> sql.Ok?)
            && (mem.Ok? ==> (sql == mem <==> InDomain(mem.value.tags)))
            && (mem.Ok? ==> sql.value == mem.value.(tags := ParsedTags(PrintedTags(mem.value.tags))))
  {
    RunsMirror(cs, |cs|);
    assert cs[..|cs|] == cs;
    var m := MemoryRun(cs);
    assert Fetched(m, id).Ok? <==> IsLive(m, id);
    if IsLive(m, id) {
      StoredEventReadsBack(m.events[id]);
    }
  }

  /** Deleting a replaceable event and saving an older one of its slot is the shortest way apart. */
  lemma DeletingReplaceableDiverges(newer: Event, older: Event, now: int)
    requires SameSlot(newer, older) && newer.id != older.id && older.createdAt < newer.createdAt
    ensures var cs := [CallSave(newer), CallDelete(newer.id, newer.pubkey, now), CallSave(older)];
            Fetched(MemoryRun(cs), older.id) == Ok(older) && SqlFetched(SqlRun(cs), older.id) == Err(NotFound)
  {
    var m := Memory(map[newer.id := newer], {newer.id}, map[]);
    var db := Database(map[newer.id := RowOf(newer)], map[newer.id := Grave(newer.pubkey, now)]);
    AfterDeletionRun(newer, older, now);
    OvershadowedSaveDiverges(m, db, older);
  }

  lemma AfterDeletionRun(newer: Event, older: Event, now: int)
    requires IsReplaceable(newer.kind)
    ensures var cs := [CallSave(newer), CallDelete(newer.id, newer.pubkey, now), CallSave(older)];
            && MemoryRun(cs) == Saved(Memory(map[newer.id := newer], {newer.id}, map[]), older)
            && SqlRun(cs) ==
               SqlSaved(Database(map[newer.id := RowOf(newer)], map[newer.id := Grave(newer.pubkey, now)]), older)
  {
    var one, two := [CallSave(newer)], [CallSave(newer), CallDelete(newer.id, newer.pubkey, now)];
    var cs := two + [CallSave(older)];
    assert cs == [CallSave(newer), CallDelete(newer.id, newer.pubkey, now), CallSave(older)];
    assert one[..0] == [] && two[..1] == one && cs[..2] == two;
    MemoryRunUnfolds(one);
    MemoryRunUnfolds(two);
    SqlRunUnfolds(one);
    SqlRunUnfolds(two);
    assert MemoryRun(one) == Memory(map[newer.id := newer], {}, map[]);
    assert SqlRun(one).events == map[newer.id := RowOf(newer)];
    assert SqlRun(two).deleted == map[newer.id := Grave(newer.pubkey, now)];
    MemoryRunUnfolds(cs);
    SqlRunUnfolds(cs);
  }

  lemma MemoryRunUnfolds(cs: seq<StoreCall>)
    requires cs != []
    ensures MemoryRun(cs) == MemoryStep(MemoryRun(cs[..|cs| - 1]), cs[|cs| - 1])
  {
  }

  lemma SqlRunUnfolds(cs: seq<StoreCall>)
    requires cs != []
    ensures SqlRun(cs) == SqlStep(SqlRun(cs[..|cs| - 1]), cs[|cs| - 1])
  {
  }

  // ---------- SQLite converges too ----------

  function Saves(es: seq<Event>): seq<StoreCall> {
    seq(|es|, i requires 0 <= i < |es| => CallSave(es[i]))
  }

  lemma {:induction false} SavesAreSaveAll(es: seq<Event>)
    ensures MemoryRun(Saves(es)) == SaveAll(EMPTY, es)
  {
    if es == [] {
    } else {
      SavesAreSaveAll(es[..|es| - 1]);
      assert Saves(es)[..|es| - 1] == Saves(es[..|es| - 1]);
    }
  }

  /** After saves with distinct ids, SQLite serves exactly the events that survive their slot. */
  lemma SqlSavesConverge(es: seq<Event>, i: nat)
    requires DistinctIds(es) && i < |es|
    ensures SqlFetched(SqlRun(Saves(es)), es[i].id).Ok? <==> Survives(es, i)
  {
    SqlServesSaved(es, es[i].id);
    SavesConverge(es);
    SurvivorIndex(es, i);
    var m := SaveAll(EMPTY, es);
    if IsLive(m, es[i].id) {
      var x := m.events[es[i].id];
      assert x in Live(m);
      var k :| 0 <= k < |es| && Survives(es, k) && es[k] == x;
      assert k == i;
    }
  }

  /** With distinct ids and timestamps, any arrival order leaves SQLite serving the same ids. */
  lemma SqlArrivalOrderIsIrrelevant(es: seq<Event>, fs: seq<Event>, id: string)
    requires multiset(es) == multiset(fs)
    requires DistinctIds(es) && DistinctTimes(es)
    ensures SqlFetched(SqlRun(Saves(es)), id) == SqlFetched(SqlRun(Saves(fs)), id)
            || (SqlFetched(SqlRun(Saves(es)), id).Err? && SqlFetched(SqlRun(Saves(fs)), id).Err?)
  {
    ArrivalOrderIsIrrelevant(es, fs);
    PermutedIdsDiffer(es, fs);
    SqlServesSaved(es, id);
    SqlServesSaved(fs, id);
    SavesConverge(es);
    SavesConverge(fs);
    SameLiveFetch(SaveAll(EMPTY, es), SaveAll(EMPTY, fs), id);
    SameLiveFetch(SaveAll(EMPTY, fs), SaveAll(EMPTY, es), id);
  }

  lemma SqlServesSaved(es: seq<Event>, id: string)
    requires DistinctIds(es)
    ensures var mem, sql := Fetched(SaveAll(EMPTY, es), id), SqlFetched(SqlRun(Saves(es)), id);
            && (mem.Ok? <==> sql.Ok?)
            && (mem.Ok? ==> sql.value == mem.value.(tags := ParsedTags(PrintedTags(mem.value.tags))))
  {
    SavesAreSaveAll(es);
    forall i: nat | i < |es| ensures !OvershadowedAt(Saves(es), i) {
      assert Saves(es)[..i] == Saves(es[..i]);
      SavesBuryNothing(es[..i]);
    }
    FetchedAlike(Saves(es), id);
  }

  lemma {:induction false} SavesBuryNothing(es: seq<Event>)
    ensures SqlRun(Saves(es)).deleted == map[]
  {
    if es == [] {
    } else {
      SavesBuryNothing(es[..|es| - 1]);
      assert Saves(es)[..|es| - 1] == Saves(es[..|es| - 1]);
    }
  }

  lemma SameLiveFetch(m: Memory, n: Memory, id: string)
    requires WellFormed(m) && WellFormed(n) && Live(m) == Live(n)
    ensures Fetched(m, id).Ok? ==> Fetched(n, id) == Fetched(m, id)
  {
    if IsLive(m, id) {
      assert m.events[id] in Live(n);
    }
  }
}
