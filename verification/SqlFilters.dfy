/**
  Compiling a filter to SQL. A query is a list of WHERE conditions whose "?" slots
  are bound by position from one argument list, then ORDER BY created_at DESC and
  an optional LIMIT slot bound last.
 */
module SqlFilters {
  import opened Wrappers
  import opened Events

  datatype Row = Row(
    id: string, pubkey: string, createdAt: int, kind: int, tagsJSON: string, content: string, sig: string)

  datatype Column = IdColumn | PubKeyColumn | KindColumn | CreatedAtColumn

  datatype Value = Text(s: string) | Number(n: int)

  datatype Condition =
    | In(column: Column, slots: nat)
    | AtLeast(column: Column)
    | AtMost(column: Column)

  datatype Query = Query(where: seq<Condition>, limited: bool)

  // ---------- what a query means ----------

  function Cell(row: Row, column: Column): Value {
    match column
    case IdColumn => Text(row.id)
    case PubKeyColumn => Text(row.pubkey)
    case KindColumn => Number(row.kind)
    case CreatedAtColumn => Number(row.createdAt)
  }

  function Slots(c: Condition): nat {
    if c.In? then c.slots else 1
  }

  function AllSlots(where: seq<Condition>): nat {
    if where == [] then 0 else Slots(where[0]) + AllSlots(where[1..])
  }

  predicate NumbersOrdered(a: Value, b: Value) {
    a.Number? && b.Number? && a.n <= b.n
  }

  predicate Holds(c: Condition, args: seq<Value>, row: Row)
    requires |args| == Slots(c)
  {
    match c
    case In(column, _) => Cell(row, column) in args
    case AtLeast(column) => NumbersOrdered(args[0], Cell(row, column))
    case AtMost(column) => NumbersOrdered(Cell(row, column), args[0])
  }

  /** Each condition takes its arguments from the front of the list. */
  predicate Selects(where: seq<Condition>, args: seq<Value>, row: Row)
    requires |args| == AllSlots(where)
  {
    where == [] ||
    var k := Slots(where[0]);
    Holds(where[0], args[..k], row) && Selects(where[1..], args[k..], row)
  }

  // ---------- what a filter asks of a row ----------

  /** The filter as SQL reads it: whole values, empty lists match nothing, tags are not looked at. */
  predicate SqlAccepts(f: Filter, id: string, pubkey: string, createdAt: int, kind: int) {
    && (f.ids.Some? ==> id in f.ids.value)
    && (f.authors.Some? ==> pubkey in f.authors.value)
    && (f.kinds.Some? ==> kind in f.kinds.value)
    && (f.since.Some? ==> f.since.value <= createdAt)
    && (f.until.Some? ==> createdAt <= f.until.value)
  }

  function Texts(xs: seq<string>): seq<Value> {
    seq(|xs|, i requires 0 <= i < |xs| => Text(xs[i]))
  }

  function Numbers(xs: seq<int>): seq<Value> {
    seq(|xs|, i requires 0 <= i < |xs| => Number(xs[i]))
  }

  function AsList(x: Option<int>): seq<Value> {
    if x.Some? then [Number(x.value)] else []
  }

  // ---------- the compiler ----------

  /** One "column IN (?,...,?)" with a slot and an argument for each value. */
  method AddList(where: seq<Condition>, args: seq<Value>, column: Column, values: seq<Value>)
    returns (where': seq<Condition>, args': seq<Value>)
    requires |args| == AllSlots(where)
    ensures args' == args + values && |args'| == AllSlots(where')
    ensures forall row :: Selects(where', args', row) <==> Selects(where, args, row) && Cell(row, column) in values
  {
    var placeholders := 0;
    args' := args;
    for i := 0 to |values|
      invariant placeholders == i && args' == args + values[..i]
    {
      placeholders := placeholders + 1;
      args' := args' + [values[i]];
    }
    assert args' == args + values;
    AddCondition(where, args, In(column, placeholders), values);
    where' := where + [In(column, placeholders)];
  }

  /** One "created_at >= ?" or "created_at <= ?". */
  method AddBound(where: seq<Condition>, args: seq<Value>, c: Condition, bound: int)
    returns (where': seq<Condition>, args': seq<Value>)
    requires |args| == AllSlots(where) && !c.In?
    ensures args' == args + [Number(bound)] && |args'| == AllSlots(where')
    ensures forall row :: Selects(where', args', row) <==>
              Selects(where, args, row) && Holds(c, [Number(bound)], row)
  {
    AddCondition(where, args, c, [Number(bound)]);
    where' := where + [c];
    args' := args + [Number(bound)];
  }

  /** The id list, if there is one. */
  method AddIds(f: Filter) returns (where: seq<Condition>, args: seq<Value>)
    ensures args == Texts(Items(f.ids)) && Compiled(where, args, NO_FILTER.(ids := f.ids))
  {
    where, args := [], [];
    if f.ids.Some? {
      TextMembers(f.ids.value);
      where, args := AddList(where, args, IdColumn, Texts(f.ids.value));
    }
  }

  method AddAuthors(f: Filter, where: seq<Condition>, args: seq<Value>)
    returns (where': seq<Condition>, args': seq<Value>)
    requires Compiled(where, args, NO_FILTER.(ids := f.ids))
    ensures args' == args + Texts(Items(f.authors))
    ensures Compiled(where', args', NO_FILTER.(ids := f.ids, authors := f.authors))
  {
    where', args' := where, args;
    if f.authors.Some? {
      TextMembers(f.authors.value);
      where', args' := AddList(where, args, PubKeyColumn, Texts(f.authors.value));
    }
  }

  method AddKinds(f: Filter, where: seq<Condition>, args: seq<Value>)
    returns (where': seq<Condition>, args': seq<Value>)
    requires Compiled(where, args, NO_FILTER.(ids := f.ids, authors := f.authors))
    ensures args' == args + Numbers(Items(f.kinds))
    ensures Compiled(where', args', NO_FILTER.(ids := f.ids, authors := f.authors, kinds := f.kinds))
  {
    where', args' := where, args;
    if f.kinds.Some? {
      NumberMembers(f.kinds.value);
      where', args' := AddList(where, args, KindColumn, Numbers(f.kinds.value));
    }
  }

  method AddBounds(f: Filter, where: seq<Condition>, args: seq<Value>)
    returns (where': seq<Condition>, args': seq<Value>)
    requires Compiled(where, args, NO_FILTER.(ids := f.ids, authors := f.authors, kinds := f.kinds))
    ensures args' == args + AsList(f.since) + AsList(f.until)
    ensures Compiled(where', args', f)
  {
    where', args' := where, args;
    if f.since.Some? {
      where', args' := AddBound(where', args', AtLeast(CreatedAtColumn), f.since.value);
    }
    assert Compiled(where', args', NO_FILTER.(ids := f.ids, authors := f.authors, kinds := f.kinds, since := f.since));
    if f.until.Some? {
      where', args' := AddBound(where', args', AtMost(CreatedAtColumn), f.until.value);
    }
  }

  /** Grows conditions and arguments side by side; every slot is bound to the value meant for it. */
  method BuildQuery(f: Filter) returns (q: Query, args: seq<Value>)
    ensures q.limited <==> f.limit.Some?
    ensures args == Texts(Items(f.ids)) + Texts(Items(f.authors)) + Numbers(Items(f.kinds))
                    + AsList(f.since) + AsList(f.until) + AsList(f.limit)
    ensures |args| == AllSlots(q.where) + if q.limited then 1 else 0
    ensures Compiled(q.where, args[..AllSlots(q.where)], f)
  {
    var where;
    where, args := AddIds(f);
    where, args := AddAuthors(f, where, args);
    where, args := AddKinds(f, where, args);
    where, args := AddBounds(f, where, args);
    q := Query(where, f.limit.Some?);
    ghost var bound := args;
    if f.limit.Some? {
      args := args + [Number(f.limit.value)];
    }
    assert args[..AllSlots(where)] == bound;
  }

  const NO_FILTER := Filter(None, None, None, map[], None, None, None, "")

  lemma TextMembers(xs: seq<string>)
    ensures forall s :: Text(s) in Texts(xs) <==> s in xs
  {
    forall s ensures Text(s) in Texts(xs) <==> s in xs {
      if s in xs {
        var i :| 0 <= i < |xs| && xs[i] == s;
        assert Texts(xs)[i] == Text(s);
      }
    }
  }

  lemma NumberMembers(xs: seq<int>)
    ensures forall n :: Number(n) in Numbers(xs) <==> n in xs
  {
    forall n ensures Number(n) in Numbers(xs) <==> n in xs {
      if n in xs {
        var i :| 0 <= i < |xs| && xs[i] == n;
        assert Numbers(xs)[i] == Number(n);
      }
    }
  }

  ghost predicate Compiled(where: seq<Condition>, args: seq<Value>, f: Filter) {
    && |args| == AllSlots(where)
    && forall row :: Selects(where, args, row) <==> SqlAccepts(f, row.id, row.pubkey, row.createdAt, row.kind)
  }

  lemma {:induction false} AddCondition(where: seq<Condition>, args: seq<Value>, c: Condition, more: seq<Value>)
    requires |args| == AllSlots(where) && |more| == Slots(c)
    ensures AllSlots(where + [c]) == AllSlots(where) + Slots(c)
    ensures forall row :: Selects(where + [c], args + more, row) <==> Selects(where, args, row) && Holds(c, more, row)
  {
    if where == [] {
      assert where + [c] == [c] && args + more == more;
      assert more[..Slots(c)] == more && [c][1..] == [];
    } else {
      var k := Slots(where[0]);
      AddCondition(where[1..], args[k..], c, more);
      assert (where + [c])[1..] == where[1..] + [c];
      assert (args + more)[..k] == args[..k] && (args + more)[k..] == args[k..] + more;
    }
  }

  // ---------- agreement with the filter's meaning ----------

  /** Ids and public keys are 32 bytes in hexadecimal. */
  const KEY_LENGTH := 64

  ghost predicate FullLength(xs: seq<string>) {
    forall i :: 0 <= i < |xs| ==> |xs[i]| == KEY_LENGTH
  }

  /** Lists are nil or hold whole keys, and are not empty. */
  ghost predicate WholeKeys(f: Filter) {
    && (f.ids.Some? ==> f.ids.value != [] && FullLength(f.ids.value))
    && (f.authors.Some? ==> f.authors.value != [] && FullLength(f.authors.value))
    && (f.kinds.Some? ==> f.kinds.value != [])
  }

  ghost predicate SqlSelects(f: Filter, e: Event) {
    SqlAccepts(f, e.id, e.pubkey, e.createdAt, e.kind)
  }

  ghost predicate Keyed(e: Event) {
    |e.id| == KEY_LENGTH && |e.pubkey| == KEY_LENGTH
  }

  lemma WholeKeyIsPrefix(key: string, keys: seq<string>)
    requires |key| == KEY_LENGTH && FullLength(keys)
    ensures SomePrefixOf(key, keys) <==> key in keys
  {
    if key in keys {
      var i :| 0 <= i < |keys| && keys[i] == key;
      assert keys[i] <= key;
    }
    assert forall i :: 0 <= i < |keys| && keys[i] <= key ==> keys[i] == key;
  }

  /** SQL selects at least what the filter accepts, and only the tag clauses can tell them apart. */
  lemma CompiledFilterIsAccepts(f: Filter, e: Event)
    requires WholeKeys(f) && Keyed(e)
    ensures Accepts(f, e) <==> SqlSelects(f, e) && forall name :: name in f.tags ==> CarriesSome(e, name, f.tags[name])
  {
    WholeKeyIsPrefix(e.id, Items(f.ids));
    WholeKeyIsPrefix(e.pubkey, Items(f.authors));
  }

  /** For a filter some event satisfies in SQL, the two agree on all events exactly when there is no tag clause. */
  lemma AgreesIffNoTagClause(f: Filter, witness_: Event)
    requires WholeKeys(f) && Keyed(witness_) && SqlSelects(f, witness_)
    ensures (forall e :: Keyed(e) ==> (SqlSelects(f, e) <==> Accepts(f, e))) <==> f.tags == map[]
  {
    forall e | Keyed(e) ensures f.tags == map[] ==> (SqlSelects(f, e) <==> Accepts(f, e)) {
      CompiledFilterIsAccepts(f, e);
    }
    if f.tags != map[] {
      var untagged := witness_.(tags := []);
      var name :| name in f.tags;
      assert !CarriesSome(untagged, name, f.tags[name]);
      assert SqlSelects(f, untagged) && !Accepts(f, untagged);
    }
  }

  /** An id or key is listed whole wherever the filter lists any. */
  ghost predicate ListsWhole(f: Filter, e: Event) {
    (f.ids.Some? ==> e.id in f.ids.value) && (f.authors.Some? ==> e.pubkey in f.authors.value)
  }

  /** Whatever the lists hold, SQL loses exactly the accepted events of which only proper prefixes are listed. */
  lemma PrefixesAreLost(f: Filter, e: Event)
    requires f.ids != Some([]) && f.authors != Some([]) && f.kinds != Some([])
    ensures Accepts(f, e) && ListsWhole(f, e) <==>
            SqlSelects(f, e) && forall name :: name in f.tags ==> CarriesSome(e, name, f.tags[name])
  {
    if ListsWhole(f, e) {
      ListedIsPrefix(e.id, Items(f.ids));
      ListedIsPrefix(e.pubkey, Items(f.authors));
    }
  }

  lemma ListedIsPrefix(key: string, keys: seq<string>)
    ensures key in keys ==> SomePrefixOf(key, keys)
  {
    if key in keys {
      var i :| 0 <= i < |keys| && keys[i] == key;
      assert keys[i] <= key;
    }
  }
}
