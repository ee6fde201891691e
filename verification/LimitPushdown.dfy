/**
  Pushing each filter's LIMIT into SQL before merging keeps the answer's timestamps
  as long as no filter is cut shorter than the request itself.
 */
module LimitPushdown {
  import opened Wrappers
  import opened Orders
  import opened Events
  import opened SqlFilters
  import opened SqliteStore

  function Limits(filters: seq<Filter>): seq<Option<int>> {
    seq(|filters|, i requires 0 <= i < |filters| => filters[i].limit)
  }

  /** Fewer than k rows are let through; a negative limit lets all of them through. */
  predicate IsTighter(limit: Option<int>, k: int) {
    limit.Some? && 0 <= limit.value < k
  }

  /** Every filter is unlimited or asks for at least k rows. */
  predicate LimitsReach(limits: seq<Option<int>>, k: int) {
    forall i :: 0 <= i < |limits| ==> !IsTighter(limits[i], k)
  }

  /**
    The answer has the timestamps of the k newest rows of the unlimited union, in
    order, whichever way the engine and the sort break ties.
   */
  lemma LimitPushdownKeepsTimes(db: Database, filters: seq<Filter>, k: nat, r: seq<Event>, everything: seq<Event>)
    requires LimitOf(filters) == Some(k) && LimitsReach(Limits(filters), k)
    requires LimitOk(filters) && SqlAnswers(db, filters, r)
    requires Lists(everything, SelectedBySome(db, filters), CreatedAt)
    ensures Keys(r, CreatedAt) == Keys(Take(everything, k), CreatedAt)
    ensures NoDuplicates(r) && forall e :: e in r ==> e in SelectedBySome(db, filters)
  {
    var parts, all: seq<Event> :|
      FilterAnswers(db, filters, parts) && Lists(all, Union(parts), CreatedAt) && r == Cut(all, LimitOf(filters));
    AnswerIsStored(db, filters, parts);
    PartsCoverTop(db, filters, k, parts);
    SameFirstKeys(all, Union(parts), everything, SelectedBySome(db, filters), k, CreatedAt);
    assert forall e :: e in r ==> e in all;
  }

  lemma PartsCoverTop(db: Database, filters: seq<Filter>, k: nat, parts: seq<seq<Event>>)
    requires LimitsReach(Limits(filters), k) && FilterAnswers(db, filters, parts)
    ensures CoversTop(Union(parts), SelectedBySome(db, filters), k, CreatedAt)
  {
    forall t | |KeyAtLeast(Union(parts), t, CreatedAt)| < k
      ensures KeyAtLeast(SelectedBySome(db, filters), t, CreatedAt) <= KeyAtLeast(Union(parts), t, CreatedAt)
    {
      forall e | e in SelectedBySome(db, filters) && e.createdAt >= t ensures e in Union(parts) {
        NewEnoughIsKept(db, filters, k, parts, t, e);
      }
    }
  }

  lemma NewEnoughIsKept(db: Database, filters: seq<Filter>, k: nat, parts: seq<seq<Event>>, t: int, e: Event)
    requires LimitsReach(Limits(filters), k) && FilterAnswers(db, filters, parts)
    requires |KeyAtLeast(Union(parts), t, CreatedAt)| < k && e in SelectedBySome(db, filters) && e.createdAt >= t
    ensures e in Union(parts)
  {
    var i :| 0 <= i < |filters| && SqlSelects(filters[i], e);
    assert Limits(filters)[i] == filters[i].limit;
    NothingNewerIsCut(db, filters[i], parts[i], e, k);
    if e !in parts[i] {
      FullPart(parts, i, t);
    } else {
      var j :| 0 <= j < |parts[i]| && parts[i][j] == e;
    }
  }

  /** A selected event is cut from its filter's part only when k events at least as new are kept. */
  lemma NothingNewerIsCut(db: Database, f: Filter, xs: seq<Event>, e: Event, k: nat)
    requires !IsTighter(f.limit, k)
    requires FilterAnswer(db, f, xs) && e in Selected(db, f)
    ensures NoDuplicates(xs)
    ensures e in xs || (|xs| >= k && forall j :: 0 <= j < |xs| ==> xs[j].createdAt >= e.createdAt)
  {
    var full: seq<Event> :| Lists(full, Selected(db, f), CreatedAt) && xs == SqlCut(full, f.limit);
    var i :| 0 <= i < |full| && full[i] == e;
    if i < |xs| {
      assert xs[i] == e;
    } else {
      forall j | 0 <= j < |xs| ensures xs[j].createdAt >= e.createdAt {
        assert CreatedAt(full[j]) >= CreatedAt(full[i]);
      }
    }
  }

  lemma FullPart(parts: seq<seq<Event>>, i: nat, t: int)
    requires i < |parts| && NoDuplicates(parts[i])
    requires forall j :: 0 <= j < |parts[i]| ==> parts[i][j].createdAt >= t
    ensures |KeyAtLeast(Union(parts), t, CreatedAt)| >= |parts[i]|
  {
    var xs := parts[i];
    var held := set e | e in xs;
    ListingLength(xs, held);
    forall e | e in held ensures e in KeyAtLeast(Union(parts), t, CreatedAt) {
      var j :| 0 <= j < |xs| && xs[j] == e;
      assert parts[i][j] in Union(parts);
    }
    SubsetSize(held, KeyAtLeast(Union(parts), t, CreatedAt));
  }

  // ---------- and only then ----------

  /** Whatever the engine answers, its timestamps are those of the k newest rows of the unlimited union. */
  ghost predicate KeepsTimes(db: Database, filters: seq<Filter>, k: nat)
    requires LimitOk(filters)
  {
    forall r, everything: seq<Event> ::
      SqlAnswers(db, filters, r) && Lists(everything, SelectedBySome(db, filters), CreatedAt) ==>
        Keys(r, CreatedAt) == Keys(Take(everything, k), CreatedAt)
  }

  /** Requests with these limits, the first being k, are answered right on every database exactly if none is below k. */
  lemma PushdownIsSafeIffLimitsReach(limits: seq<Option<int>>, k: nat)
    requires limits != [] && limits[0] == Some(k)
    ensures (forall db, filters :: Limits(filters) == limits && LimitOk(filters) ==> KeepsTimes(db, filters, k))
            <==> LimitsReach(limits, k)
  {
    if LimitsReach(limits, k) {
      forall db, filters | Limits(filters) == limits && LimitOk(filters) ensures KeepsTimes(db, filters, k) {
        assert LimitOf(filters) == Limits(filters)[0];
        forall r, everything: seq<Event> |
          SqlAnswers(db, filters, r) && Lists(everything, SelectedBySome(db, filters), CreatedAt)
          ensures Keys(r, CreatedAt) == Keys(Take(everything, k), CreatedAt)
        {
          LimitPushdownKeepsTimes(db, filters, k, r, everything);
        }
      }
    } else {
      var i :| 0 <= i < |limits| && IsTighter(limits[i], k);
      var filters := OneSelects(limits, i);
      TighterLimitLosesARow(limits, k, i);
      assert Limits(filters) == limits && LimitOk(filters);
    }
  }

  /** Notes of kind 1, all of the same time. */
  function Note(id: string): Event {
    Event(id, "", 0, 1, [], "", "")
  }

  function Unary(j: nat): (id: string)
    ensures |id| == j
  {
    seq(j, _ => 'x')
  }

  function Notes(n: nat): seq<Event> {
    seq(n, j requires 0 <= j < n => Note(Unary(j)))
  }

  function NotesStored(n: nat): Database {
    var ids := set j | 0 <= j < n :: Unary(j);
    Database(map id | id in ids :: RowOf(Note(id)), map[])
  }

  /** Filters with the given limits, of which only the i-th selects notes. */
  function OneSelects(limits: seq<Option<int>>, i: nat): seq<Filter> {
    seq(|limits|, j requires 0 <= j < |limits| =>
      NO_FILTER.(kinds := Some([if j == i then 1 else 2]), limit := limits[j]))
  }

  /** One note more than the tight limit lets through, though the request asks for it. */
  lemma TighterLimitLosesARow(limits: seq<Option<int>>, k: nat, i: nat)
    requires limits != [] && limits[0] == Some(k) && i < |limits| && IsTighter(limits[i], k)
    ensures var filters := OneSelects(limits, i);
            LimitOk(filters) && !KeepsTimes(NotesStored(limits[i].value + 1), filters, k)
  {
    var filters, cut := OneSelects(limits, i), limits[i].value;
    var db, notes := NotesStored(cut + 1), Notes(cut + 1);
    StoredNotes(cut + 1);
    NotesAreListed(limits, i, cut + 1);
    var parts := seq(|limits|, j requires 0 <= j < |limits| => if j == i then notes[..cut] else []);
    forall j | 0 <= j < |parts| ensures FilterAnswer(db, filters[j], parts[j]) {
      PartOfNotes(limits, i, j, cut + 1);
    }
    OnePartUnion(parts, i);
    assert parts[i] == notes[..cut];
    assert FilterAnswers(db, filters, parts) && Lists(notes[..cut], Union(parts), CreatedAt);
    assert notes[..cut] == Cut(notes[..cut], LimitOf(filters));
    assert SqlAnswers(db, filters, notes[..cut]);
    assert |Keys(notes[..cut], CreatedAt)| != |Keys(Take(notes, k), CreatedAt)|;
  }

  lemma OnePartUnion(parts: seq<seq<Event>>, i: nat)
    requires i < |parts| && forall j :: 0 <= j < |parts| && j != i ==> parts[j] == []
    ensures forall e :: e in Union(parts) <==> e in parts[i]
  {
    forall e | e in parts[i] ensures e in Union(parts) {
      var j :| 0 <= j < |parts[i]| && parts[i][j] == e;
    }
  }

  lemma StoredNotes(n: nat)
    ensures forall e :: e in Stored(NotesStored(n)) <==> e in Notes(n)
    ensures NoDuplicates(Notes(n))
  {
    var db := NotesStored(n);
    forall id | id in db.events ensures EventOf(db.events[id]) == Note(id) {
      StoredEventReadsBack(Note(id));
    }
    forall e | e in Notes(n) ensures e in Stored(db) {
      var j: nat :| j < n && Notes(n)[j] == e;
      assert Unary(j) in db.events;
    }
    forall e | e in Stored(db) ensures e in Notes(n) {
      var j: nat :| j < n && Note(Unary(j)) == e;
      assert Notes(n)[j] == e;
    }
    forall i, j | 0 <= i < j < n ensures Notes(n)[i] != Notes(n)[j] {
      assert |Notes(n)[i].id| != |Notes(n)[j].id|;
    }
  }

  lemma NotesAreListed(limits: seq<Option<int>>, i: nat, n: nat)
    requires i < |limits|
    ensures Lists(Notes(n), SelectedBySome(NotesStored(n), OneSelects(limits, i)), CreatedAt)
  {
    StoredNotes(n);
    var f := OneSelects(limits, i)[i];
    assert forall e :: e in Notes(n) ==> SqlSelects(f, e);
  }

  lemma PartOfNotes(limits: seq<Option<int>>, i: nat, j: nat, n: nat)
    requires i < |limits| && j < |limits| && limits[i] == Some(n - 1) && n > 0
    ensures var f := OneSelects(limits, i)[j];
            FilterAnswer(NotesStored(n), f, if j == i then Notes(n)[..n - 1] else [])
  {
    var f, db := OneSelects(limits, i)[j], NotesStored(n);
    StoredNotes(n);
    if j == i {
      assert Lists(Notes(n), Selected(db, f), CreatedAt);
      assert SqlCut(Notes(n), f.limit) == Notes(n)[..n - 1];
    } else {
      var none: seq<Event> := [];
      assert Lists(none, Selected(db, f), CreatedAt) by {
        assert forall e :: e in Notes(n) ==> !SqlSelects(f, e);
      }
      assert SqlCut(none, f.limit) == none;
    }
  }
}
