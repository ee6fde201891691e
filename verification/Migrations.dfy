/**
  Schema migrations that may be interrupted. Each statement, and the recording of
  a version, takes effect as a whole or not at all; a run stops after any number
  of them. The contents of rows are not looked into.
 */
module Migrations {
  import opened Wrappers

  const VERSION_TABLE := "schema_migrations"

  datatype Action =
    | CreateTable(name: string)
    | CreateIndex(name: string, table: string)
    | Record(version: int)

  datatype Migration = Migration(version: int, statements: seq<Action>)

  datatype Schema = Schema(tables: map<string, seq<string>>, indexes: set<string>, versions: set<int>)

  const MIGRATIONS: seq<Migration> := [
    Migration(1, [
      CreateTable("events"),
      CreateIndex("idx_events_pubkey", "events"),
      CreateIndex("idx_events_kind", "events"),
      CreateIndex("idx_events_created_at", "events"),
      CreateIndex("idx_events_kind_created_at", "events")]),
    Migration(2, [CreateTable("deleted_events")]),
    Migration(3, [
      CreateTable("channel_events"),
      CreateIndex("idx_channel_events_channel_id", "channel_events"),
      CreateIndex("idx_channel_events_kind", "channel_events"),
      CreateIndex("idx_channel_events_created_at", "channel_events"),
      CreateIndex("idx_channel_events_channel_created", "channel_events")])]

  // ---------- one action, one list of actions, one run ----------

  /** Objects are created IF NOT EXISTS; an index needs its table, a version row its table and a fresh key. */
  function Applied(db: Schema, a: Action): Option<Schema> {
    match a
    case CreateTable(name) =>
      if name in db.tables then Some(db) else Some(db.(tables := db.tables[name := []]))
    case CreateIndex(name, table) =>
      if name in db.indexes then Some(db)
      else if table in db.tables then Some(db.(indexes := db.indexes + {name}))
      else None
    case Record(version) =>
      if VERSION_TABLE in db.tables && version !in db.versions then Some(db.(versions := db.versions + {version}))
      else None
  }

  datatype Progress = Running(db: Schema, budget: nat) | Interrupted(db: Schema) | Failed(db: Schema)

  /** Carries out actions until they are done, fail, or `budget` of them have been carried out. */
  function Executed(db: Schema, actions: seq<Action>, budget: nat): Progress
    decreases |actions|
  {
    if actions == [] then Running(db, budget)
    else if budget == 0 then Interrupted(db)
    else
      var next := Applied(db, actions[0]);
      if next.None? then Failed(db) else Executed(next.value, actions[1..], budget - 1)
  }

  function Actions(m: Migration): seq<Action> {
    m.statements + [Record(m.version)]
  }

  function Migrated(db: Schema, ms: seq<Migration>, budget: nat): Progress
    decreases |ms|
  {
    if ms == [] then Running(db, budget)
    else if ms[0].version in db.versions then Migrated(db, ms[1..], budget)
    else
      var p := Executed(db, Actions(ms[0]), budget);
      if p.Running? then Migrated(p.db, ms[1..], p.budget) else p
  }

  /** initSchema: the version table, then the migrations not recorded yet. */
  function Initialised(db: Schema, ms: seq<Migration>, budget: nat): Progress {
    var p := Executed(db, [CreateTable(VERSION_TABLE)], budget);
    if p.Running? then Migrated(p.db, ms, p.budget) else p
  }

  class Database {
    var tables: map<string, seq<string>>
    var indexes: set<string>
    var versions: set<int>

    ghost function State(): Schema
      reads this
    {
      Schema(tables, indexes, versions)
    }

    /** One statement; false is the engine's error. */
    method Exec(a: Action) returns (ok: bool)
      modifies this
      ensures ok <==> Applied(old(State()), a).Some?
      ensures State() == if ok then Applied(old(State()), a).value else old(State())
    {
      match a
      case CreateTable(name) =>
        if name !in tables { tables := tables[name := []]; }
        ok := true;
      case CreateIndex(name, table) =>
        ok := name in indexes || table in tables;
        if ok { indexes := indexes + {name}; }
      case Record(version) =>
        ok := VERSION_TABLE in tables && version !in versions;
        if ok { versions := versions + {version}; }
    }

    method ExecAll(actions: seq<Action>, budget: nat) returns (p: Progress)
      modifies this
      ensures p == Executed(old(State()), actions, budget) && p.db == State()
    {
      var left := budget;
      assert actions[0..] == actions;
      for i := 0 to |actions|
        invariant Executed(old(State()), actions, budget) == Executed(State(), actions[i..], left)
      {
        assert actions[i..][1..] == actions[i + 1..];
        if left == 0 {
          return Interrupted(Schema(tables, indexes, versions));
        }
        var ok := Exec(actions[i]);
        if !ok {
          return Failed(Schema(tables, indexes, versions));
        }
        left := left - 1;
      }
      return Running(Schema(tables, indexes, versions), left);
    }

    method RunMigrations(ms: seq<Migration>, budget: nat) returns (p: Progress)
      modifies this
      ensures p == Migrated(old(State()), ms, budget) && p.db == State()
    {
      p := Running(Schema(tables, indexes, versions), budget);
      assert ms[0..] == ms;
      for i := 0 to |ms|
        invariant p.Running? && p.db == State()
        invariant Migrated(old(State()), ms, budget) == Migrated(State(), ms[i..], p.budget)
      {
        assert ms[i..][1..] == ms[i + 1..];
        if ms[i].version in versions {
          continue;
        }
        p := ExecAll(Actions(ms[i]), p.budget);
        if !p.Running? {
          return;
        }
      }
    }

    method InitSchema(ms: seq<Migration>, budget: nat) returns (p: Progress)
      modifies this
      ensures p == Initialised(old(State()), ms, budget) && p.db == State()
    {
      p := ExecAll([CreateTable(VERSION_TABLE)], budget);
      if p.Running? {
        p := RunMigrations(ms, p.budget);
      }
    }
  }

  // ---------- recovery ----------

  predicate Present(db: Schema, a: Action) {
    match a
    case CreateTable(name) => name in db.tables
    case CreateIndex(name, _) => name in db.indexes
    case Record(version) => version in db.versions
  }

  /** A recorded version is a completed one, and there is a table to record it in. */
  ghost predicate Coherent(db: Schema, ms: seq<Migration>) {
    && (forall i, a :: 0 <= i < |ms| && ms[i].version in db.versions && a in ms[i].statements ==> Present(db, a))
    && (db.versions != {} ==> VERSION_TABLE in db.tables)
  }

  /** Versions differ, statements only create, and an index follows its table. */
  predicate WellFormedPlan(ms: seq<Migration>) {
    && (forall i, j :: 0 <= i < j < |ms| ==> ms[i].version != ms[j].version)
    && (forall i :: 0 <= i < |ms| ==> TablesFirst(ms[i].statements))
  }

  predicate TablesFirst(actions: seq<Action>) {
    forall k :: 0 <= k < |actions| ==>
      !actions[k].Record?
      && (actions[k].CreateIndex? ==> exists j :: 0 <= j < k && actions[j] == CreateTable(actions[k].table))
  }

  /** `after` has what `before` had, its rows untouched, and beyond that only objects of `actions`. */
  ghost predicate Extends(before: Schema, after: Schema, actions: set<Action>) {
    && (forall t :: t in before.tables ==> t in after.tables && after.tables[t] == before.tables[t])
    && (forall t :: t in after.tables && t !in before.tables ==> CreateTable(t) in actions)
    && before.indexes <= after.indexes
    && (forall x :: x in after.indexes && x !in before.indexes ==> CreatesIndex(actions, x))
    && before.versions <= after.versions
    && (forall v :: v in after.versions && v !in before.versions ==> Record(v) in actions)
  }

  ghost predicate CreatesIndex(actions: set<Action>, name: string) {
    exists a :: a in actions && a.CreateIndex? && a.name == name
  }

  lemma ExtendsTransitively(a: Schema, b: Schema, c: Schema, actions: set<Action>)
    requires Extends(a, b, actions) && Extends(b, c, actions)
    ensures Extends(a, c, actions)
  {
  }

  lemma {:induction false} ExecutedExtends(db: Schema, actions: seq<Action>, budget: nat, all: set<Action>)
    requires forall a :: a in actions ==> a in all
    ensures Extends(db, Executed(db, actions, budget).db, all)
    ensures Executed(db, actions, budget).Running? ==>
              forall a :: a in actions ==> Present(Executed(db, actions, budget).db, a)
    decreases |actions|
  {
    if actions != [] && budget > 0 && Applied(db, actions[0]).Some? {
      var next := Applied(db, actions[0]).value;
      assert actions[0] in all;
      ExecutedExtends(next, actions[1..], budget - 1, all);
      var last := Executed(db, actions, budget).db;
      assert Extends(db, next, all);
      ExtendsTransitively(db, next, last, all);
      forall a | a in actions && Executed(db, actions, budget).Running? ensures Present(last, a) {
        if a == actions[0] { assert Present(next, a); } else { assert a in actions[1..]; }
      }
    }
  }

  /** A migration not recorded yet does not fail, and is recorded only after all its statements. */
  lemma {:induction false} MigrationRuns(db: Schema, m: Migration, done: nat, budget: nat)
    requires TablesFirst(m.statements) && done <= |m.statements|
    requires VERSION_TABLE in db.tables && m.version !in db.versions
    requires forall k :: 0 <= k < done ==> Present(db, m.statements[k])
    ensures RunsOn(Executed(db, Actions(m)[done..], budget), db, m, |m.statements| + 1 - done, budget)
    decreases |m.statements| - done
  {
    var actions := Actions(m)[done..];
    assert actions[1..] == Actions(m)[done + 1..];
    if done < |m.statements| {
      assert actions[0] == m.statements[done];
      NextStatement(db, m, done);
      if budget > 0 {
        MigrationRuns(Applied(db, actions[0]).value, m, done + 1, budget - 1);
      }
    } else {
      assert actions == [Record(m.version)];
      RecordRuns(db, m, budget);
    }
  }

  /** Not failed, complete if the budget allows for the actions left, and recorded only with all statements carried out. */
  ghost predicate RunsOn(p: Progress, db: Schema, m: Migration, left: nat, budget: nat) {
    && !p.Failed?
    && (budget >= left ==> p == Running(p.db, budget - left))
    && (m.version in p.db.versions ==> forall a :: a in m.statements ==> Present(p.db, a))
    && p.db.versions <= db.versions + {m.version}
  }

  lemma RecordRuns(db: Schema, m: Migration, budget: nat)
    requires VERSION_TABLE in db.tables && m.version !in db.versions
    requires TablesFirst(m.statements) && forall k :: 0 <= k < |m.statements| ==> Present(db, m.statements[k])
    ensures RunsOn(Executed(db, [Record(m.version)], budget), db, m, 1, budget)
  {
    OneAction(db, Record(m.version), budget);
  }

  /** With the statements before it carried out, the next one succeeds and leaves the versions alone. */
  lemma NextStatement(db: Schema, m: Migration, done: nat)
    requires TablesFirst(m.statements) && done < |m.statements|
    requires forall k :: 0 <= k < done ==> Present(db, m.statements[k])
    ensures var next := Applied(db, m.statements[done]);
            && next.Some? && next.value.versions == db.versions && db.tables.Keys <= next.value.tables.Keys
            && forall k :: 0 <= k <= done ==> Present(next.value, m.statements[k])
  {
  }

  ghost function AllActions(ms: seq<Migration>): set<Action> {
    set i, a | 0 <= i < |ms| && a in Actions(ms[i]) :: a
  }

  function TotalActions(ms: seq<Migration>): nat {
    if ms == [] then 0 else |ms[0].statements| + 1 + TotalActions(ms[1..])
  }

  lemma StillCoherent(db: Schema, after: Schema, ms: seq<Migration>, m: Migration, all: set<Action>)
    requires Coherent(db, ms) && Extends(db, after, all) && VERSION_TABLE in db.tables
    requires after.versions <= db.versions + {m.version}
    requires m.version in after.versions ==> forall a :: a in m.statements ==> Present(after, a)
    requires WellFormedPlan(ms) && m in ms
    ensures Coherent(after, ms)
  {
    forall i, a | 0 <= i < |ms| && ms[i].version in after.versions && a in ms[i].statements ensures Present(after, a) {
      if ms[i].version in db.versions {
        assert Present(db, a);
        assert !a.Record?;
      } else {
        var j :| 0 <= j < |ms| && ms[j] == m;
        assert i == j;
      }
    }
  }

  /** From a coherent schema the remaining migrations never fail, and however far they get leave a coherent one. */
  lemma {:induction false} MigratedKeeps(db: Schema, ms: seq<Migration>, from: nat, budget: nat)
    requires WellFormedPlan(ms) && from <= |ms| && Coherent(db, ms) && VERSION_TABLE in db.tables
    ensures var p := Migrated(db, ms[from..], budget);
            && !p.Failed? && Coherent(p.db, ms) && Extends(db, p.db, Target(ms))
            && (budget >= TotalActions(ms[from..]) ==> p.Running?)
            && (p.Running? ==> forall i :: from <= i < |ms| ==> ms[i].version in p.db.versions)
    decreases |ms| - from
  {
    if from < |ms| {
      var m, all := ms[from], Target(ms);
      assert ms[from..][0] == m && ms[from..][1..] == ms[from + 1..];
      if m.version in db.versions {
        MigratedKeeps(db, ms, from + 1, budget);
        assert m.version in Migrated(db, ms[from..], budget).db.versions;
      } else {
        assert Actions(m)[0..] == Actions(m);
        MigrationRuns(db, m, 0, budget);
        ExecutedExtends(db, Actions(m), budget, all);
        var p := Executed(db, Actions(m), budget);
        StillCoherent(db, p.db, ms, m, all);
        if p.Running? {
          assert Record(m.version) in Actions(m);
          MigratedKeeps(p.db, ms, from + 1, p.budget);
          ExtendsTransitively(db, p.db, Migrated(p.db, ms[from + 1..], p.budget).db, all);
        }
      }
    }
  }

  ghost function Target(ms: seq<Migration>): set<Action> {
    AllActions(ms) + {CreateTable(VERSION_TABLE)}
  }

  lemma OneAction(db: Schema, a: Action, budget: nat)
    requires Applied(db, a).Some?
    ensures Executed(db, [a], budget) == if budget == 0 then Interrupted(db) else Running(Applied(db, a).value, budget - 1)
  {
    assert [a][1..] == [];
    if budget > 0 {
      assert Executed(db, [a], budget) == Executed(Applied(db, a).value, [], budget - 1);
    }
  }

  function WithVersionTable(db: Schema): Schema {
    Applied(db, CreateTable(VERSION_TABLE)).value
  }

  lemma VersionTableKeeps(db: Schema, ms: seq<Migration>)
    requires WellFormedPlan(ms) && Coherent(db, ms)
    ensures var next := WithVersionTable(db);
            Coherent(next, ms) && VERSION_TABLE in next.tables && Extends(db, next, Target(ms))
  {
    var next := WithVersionTable(db);
    forall i, a | 0 <= i < |ms| && ms[i].version in next.versions && a in ms[i].statements ensures Present(next, a) {
      assert Present(db, a);
    }
  }

  lemma AllPresent(after: Schema, ms: seq<Migration>)
    requires Coherent(after, ms) && VERSION_TABLE in after.tables
    requires forall i :: 0 <= i < |ms| ==> ms[i].version in after.versions
    ensures forall a :: a in Target(ms) ==> Present(after, a)
  {
    forall a | a in AllActions(ms) ensures Present(after, a) {
      var i :| 0 <= i < |ms| && a in Actions(ms[i]);
      if a in ms[i].statements {
        assert ms[i].version in after.versions;
      } else {
        assert a == Record(ms[i].version);
      }
    }
  }

  lemma InitialisedUnfolds(db: Schema, ms: seq<Migration>, budget: nat)
    ensures Initialised(db, ms, budget) ==
            if budget == 0 then Interrupted(db) else Migrated(WithVersionTable(db), ms, budget - 1)
  {
    OneAction(db, CreateTable(VERSION_TABLE), budget);
  }

  /** A run never fails, keeps the schema coherent and only adds; a complete one adds everything. */
  lemma InitialisedKeeps(db: Schema, ms: seq<Migration>, budget: nat)
    requires WellFormedPlan(ms) && Coherent(db, ms)
    ensures var p := Initialised(db, ms, budget);
            && !p.Failed? && Coherent(p.db, ms) && Extends(db, p.db, Target(ms))
            && (budget >= TotalActions(ms) + 1 ==> p.Running?)
            && (p.Running? ==> forall a :: a in Target(ms) ==> Present(p.db, a))
  {
    InitialisedUnfolds(db, ms, budget);
    if budget > 0 {
      VersionTableKeeps(db, ms);
      CompleteRun(WithVersionTable(db), ms, budget - 1);
      ExtendsTransitively(db, WithVersionTable(db), Initialised(db, ms, budget).db, Target(ms));
    }
  }

  lemma CompleteRun(db: Schema, ms: seq<Migration>, budget: nat)
    requires WellFormedPlan(ms) && Coherent(db, ms) && VERSION_TABLE in db.tables
    ensures var p := Migrated(db, ms, budget);
            && !p.Failed? && Coherent(p.db, ms) && Extends(db, p.db, Target(ms))
            && (budget >= TotalActions(ms) ==> p.Running?)
            && (p.Running? ==> forall a :: a in Target(ms) ==> Present(p.db, a))
  {
    assert ms[0..] == ms;
    MigratedKeeps(db, ms, 0, budget);
    if Migrated(db, ms, budget).Running? {
      AllPresent(Migrated(db, ms, budget).db, ms);
    }
  }

  /** Successive runs, each interrupted after the given number of actions. */
  function AfterRuns(db: Schema, ms: seq<Migration>, budgets: seq<nat>): Schema {
    if budgets == [] then db
    else Initialised(AfterRuns(db, ms, budgets[..|budgets| - 1]), ms, budgets[|budgets| - 1]).db
  }

  lemma {:induction false} RunsKeep(db: Schema, ms: seq<Migration>, budgets: seq<nat>)
    requires WellFormedPlan(ms) && Coherent(db, ms)
    ensures Coherent(AfterRuns(db, ms, budgets), ms) && Extends(db, AfterRuns(db, ms, budgets), Target(ms))
  {
    if budgets == [] {
    } else {
      var before := budgets[..|budgets| - 1];
      RunsKeep(db, ms, before);
      InitialisedKeeps(AfterRuns(db, ms, before), ms, budgets[|budgets| - 1]);
      ExtendsTransitively(db, AfterRuns(db, ms, before), AfterRuns(db, ms, budgets), Target(ms));
    }
  }

  /**
    After any number of interrupted runs, one run that is not interrupted reaches
    the schema and versions of a single clean run, and no row of before has changed.
   */
  lemma RecoveryReachesCleanSchema(db: Schema, ms: seq<Migration>, budgets: seq<nat>, enough: nat)
    requires WellFormedPlan(ms) && Coherent(db, ms) && enough >= TotalActions(ms) + 1
    ensures var clean, late := Initialised(db, ms, enough), Initialised(AfterRuns(db, ms, budgets), ms, enough);
            && clean.Running? && late.Running?
            && late.db.tables.Keys == clean.db.tables.Keys
            && late.db.indexes == clean.db.indexes && late.db.versions == clean.db.versions
            && forall t :: t in db.tables ==> t in late.db.tables && late.db.tables[t] == db.tables[t]
  {
    var mid := AfterRuns(db, ms, budgets);
    RunsKeep(db, ms, budgets);
    InitialisedKeeps(db, ms, enough);
    InitialisedKeeps(mid, ms, enough);
    var clean, late := Initialised(db, ms, enough).db, Initialised(mid, ms, enough).db;
    ExtendsTransitively(db, mid, late, Target(ms));
    SameObjects(db, clean, late, Target(ms));
    SameObjects(db, late, clean, Target(ms));
  }

  /** Nothing beyond the base and the target, and all of the target: the objects are determined. */
  lemma SameObjects(db: Schema, a: Schema, b: Schema, all: set<Action>)
    requires Extends(db, a, all) && Extends(db, b, all)
    requires forall x :: x in all ==> Present(b, x)
    ensures a.tables.Keys <= b.tables.Keys && a.indexes <= b.indexes && a.versions <= b.versions
  {
    forall t | t in a.tables ensures t in b.tables {
      if t !in db.tables { assert Present(b, CreateTable(t)); }
    }
    forall x | x in a.indexes ensures x in b.indexes {
      if x !in db.indexes {
        assert CreatesIndex(all, x);
        var a :| a in all && a.CreateIndex? && a.name == x;
        assert Present(b, a);
      }
    }
    forall v | v in a.versions ensures v in b.versions {
      if v !in db.versions { assert Present(b, Record(v)); }
    }
  }

  /** The relay's own migrations fit, and an empty or a pre-migration database is coherent. */
  lemma RelayMigrationsAreWellFormed(tables: map<string, seq<string>>, indexes: set<string>)
    ensures WellFormedPlan(MIGRATIONS)
    ensures Coherent(Schema(tables, indexes, {}), MIGRATIONS)
  {
    forall i | 0 <= i < |MIGRATIONS| ensures TablesFirst(MIGRATIONS[i].statements) {
      assert MIGRATIONS[i].statements[0].CreateTable?;
      assert MIGRATIONS[i].statements[0] == CreateTable(MIGRATIONS[i].statements[0].name);
    }
  }

  lemma RelayTarget(a: Action)
    ensures a in Target(MIGRATIONS) <==>
            || a in MIGRATIONS[0].statements || a in MIGRATIONS[1].statements || a in MIGRATIONS[2].statements
            || a in {Record(1), Record(2), Record(3), CreateTable("schema_migrations")}
  {
    forall i | 0 <= i < 3 ensures a in Actions(MIGRATIONS[i]) <==> a in MIGRATIONS[i].statements || a == Record(i + 1) {}
    if a in AllActions(MIGRATIONS) {
      var i :| 0 <= i < |MIGRATIONS| && a in Actions(MIGRATIONS[i]);
    }
    if i :| 0 <= i < 3 && a in Actions(MIGRATIONS[i]) {
      assert a in AllActions(MIGRATIONS);
    }
  }

  lemma RelayTotal()
    ensures TotalActions(MIGRATIONS) == 14
  {
    assert MIGRATIONS[1..][0] == MIGRATIONS[1] && MIGRATIONS[1..][1..] == [MIGRATIONS[2]];
  }

  /** What a complete run makes of an empty database. */
  lemma CleanSchema(enough: nat)
    requires enough >= 15
    ensures var p := Initialised(Schema(map[], {}, {}), MIGRATIONS, enough);
            && p.Running?
            && (forall t :: t in p.db.tables <==> IsRelayTable(t))
            && (forall x :: x in p.db.indexes <==> x in INDEXES)
            && (forall v :: v in p.db.versions <==> 1 <= v <= 3)
  {
    RelayMigrationsAreWellFormed(map[], {});
    RelayTotal();
    InitialisedKeeps(Schema(map[], {}, {}), MIGRATIONS, enough);
    var n := Initialised(Schema(map[], {}, {}), MIGRATIONS, enough).db;
    forall a ensures a in Target(MIGRATIONS) ==> Present(n, a) {}
    CleanTables(n);
    CleanVersions(n);
    CleanIndexes(n);
  }

  ghost predicate IsClean(n: Schema) {
    Extends(Schema(map[], {}, {}), n, Target(MIGRATIONS)) && forall a :: a in Target(MIGRATIONS) ==> Present(n, a)
  }

  lemma RelayTables(t: string)
    ensures CreateTable(t) in Target(MIGRATIONS) <==> IsRelayTable(t)
  {
    RelayTarget(CreateTable(t));
    assert MIGRATIONS[0].statements[0] == CreateTable("events");
    assert MIGRATIONS[1].statements[0] == CreateTable("deleted_events");
    assert MIGRATIONS[2].statements[0] == CreateTable("channel_events");
  }

  lemma CleanTables(n: Schema)
    requires IsClean(n)
    ensures forall t :: t in n.tables <==> IsRelayTable(t)
  {
    forall t ensures t in n.tables <==> IsRelayTable(t) {
      RelayTables(t);
      CreatedIffTarget(n, t);
    }
  }

  predicate IsRelayTable(t: string) {
    t in {"schema_migrations", "events", "deleted_events", "channel_events"}
  }

  lemma CreatedIffTarget(n: Schema, t: string)
    requires IsClean(n)
    ensures t in n.tables <==> CreateTable(t) in Target(MIGRATIONS)
  {
    if CreateTable(t) in Target(MIGRATIONS) { assert Present(n, CreateTable(t)); }
  }

  lemma CleanVersions(n: Schema)
    requires IsClean(n)
    ensures forall v :: v in n.versions <==> 1 <= v <= 3
  {
    forall v ensures v in n.versions <==> 1 <= v <= 3 {
      RelayVersions(v);
      if Record(v) in Target(MIGRATIONS) { assert Present(n, Record(v)); }
    }
  }

  lemma RelayVersions(v: int)
    ensures Record(v) in Target(MIGRATIONS) <==> 1 <= v <= 3
  {
    RelayTarget(Record(v));
  }

  const INDEXES := {
    "idx_events_pubkey", "idx_events_kind", "idx_events_created_at", "idx_events_kind_created_at",
    "idx_channel_events_channel_id", "idx_channel_events_kind", "idx_channel_events_created_at",
    "idx_channel_events_channel_created"}

  lemma IndexIn(m: Migration, x: string, k: nat)
    requires k < |m.statements| && m.statements[k].CreateIndex? && m.statements[k].name == x
    requires m in MIGRATIONS
    ensures CreatesIndex(Target(MIGRATIONS), x)
  {
    var i :| 0 <= i < |MIGRATIONS| && MIGRATIONS[i] == m;
    assert Actions(m)[k] == m.statements[k];
    assert m.statements[k] in Actions(MIGRATIONS[i]);
    assert m.statements[k] in AllActions(MIGRATIONS);
  }

  lemma RelayIndexes(x: string)
    ensures CreatesIndex(Target(MIGRATIONS), x) <==> x in INDEXES
  {
    if CreatesIndex(Target(MIGRATIONS), x) {
      var a :| a in Target(MIGRATIONS) && a.CreateIndex? && a.name == x;
      RelayTarget(a);
    }
    if x in INDEXES {
      var i := if x in {"idx_events_pubkey", "idx_events_kind", "idx_events_created_at", "idx_events_kind_created_at"}
        then 0 else 2;
      var k := if x in {"idx_events_pubkey", "idx_channel_events_channel_id"} then 1
        else if x in {"idx_events_kind", "idx_channel_events_kind"} then 2
        else if x in {"idx_events_created_at", "idx_channel_events_created_at"} then 3 else 4;
      IndexIn(MIGRATIONS[i], x, k);
    }
  }

  lemma CleanIndexes(n: Schema)
    requires IsClean(n)
    ensures forall x :: x in n.indexes <==> x in INDEXES
  {
    forall x ensures x in n.indexes <==> x in INDEXES {
      RelayIndexes(x);
      if CreatesIndex(Target(MIGRATIONS), x) {
        var a :| a in Target(MIGRATIONS) && a.CreateIndex? && a.name == x;
        assert Present(n, a);
      }
    }
  }
}
