/**
  Properties of whole runs over the in-memory store: what every run keeps, that
  tombstones are for ever, and which event holds a replaceable slot in the end.
 */
module MemoryRuns {
  import opened Wrappers
  import opened Orders
  import opened Events
  import opened MemoryStore

  datatype Op =
    | Save(evt: Event)
    | Delete(id: string, pubkey: string)
    | DeleteAuthor(pubkey: string)
    | Retain(before: int, exempt: seq<int>)
    | SaveChannel(evt: Event)
    | DropChannel(channelId: string)

  ghost function Step(m: Memory, op: Op): Memory {
    match op
    case Save(e) => Saved(m, e)
    case Delete(id, pk) => if DeleteVerdict(m, id, pk).Ok? then Tombstoned(m, {id}) else m
    case DeleteAuthor(pk) => Tombstoned(m, OwnedBy(m, pk))
    case Retain(before, exempt) => Tombstoned(m, Expiring(m, before, exempt))
    case SaveChannel(e) => ChannelSaved(m, e)
    case DropChannel(c) => ChannelsDropped(m, {c})
  }

  ghost function Run(m: Memory, ops: seq<Op>): Memory
    decreases |ops|
  {
    if ops == [] then m else Run(Step(m, ops[0]), ops[1..])
  }

  /** Every reachable store: one live event a slot, and `len(events) - len(deleted)` counts the live ones. */
  lemma {:induction false} RunKeepsWellFormed(m: Memory, ops: seq<Op>)
    requires WellFormed(m)
    ensures WellFormed(Run(m, ops))
    ensures var n := Run(m, ops); |Live(n)| == |n.events| - |n.deleted|
    decreases |ops|
  {
    if ops != [] {
      StepKeepsWellFormed(m, ops[0]);
      RunKeepsWellFormed(Step(m, ops[0]), ops[1..]);
    } else {
      LiveSize(m);
    }
  }

  lemma StepKeepsWellFormed(m: Memory, op: Op)
    requires WellFormed(m)
    ensures WellFormed(Step(m, op)) && m.deleted <= Step(m, op).deleted
  {
    match op
    case Save(e) => SavedIsWellFormed(m, e);
    case Delete(id, pk) => if id in m.events { TombstonedIsWellFormed(m, {id}); }
    case DeleteAuthor(pk) => TombstonedIsWellFormed(m, OwnedBy(m, pk));
    case Retain(before, exempt) => TombstonedIsWellFormed(m, Expiring(m, before, exempt));
    case SaveChannel(e) =>
    case DropChannel(c) =>
  }

  /** GetEvent finds exactly the live events. */
  lemma FetchedIsLive(m: Memory, id: string, e: Event)
    requires WellFormed(m)
    ensures Fetched(m, id) == Ok(e) <==> e in Live(m) && e.id == id
  {
  }

  /** Neither GetEvent nor CountEvents nor any answer of QueryEvents shows `id`. */
  ghost predicate Hidden(m: Memory, id: string) {
    && Fetched(m, id) == Err(HasBeenDeleted)
    && (forall filters, e: Event :: e in Matching(m, filters) ==> e.id != id)
    && (forall filters, r, e: Event :: LimitOk(filters) && Answers(m, filters, r) && e in r ==> e.id != id)
  }

  /** A tombstoned id is never fetched, listed or counted again, whatever is done to the store. */
  lemma {:induction false} DeletedStaysDeleted(m: Memory, ops: seq<Op>, id: string)
    requires WellFormed(m) && id in m.deleted
    ensures id in Run(m, ops).deleted && Hidden(Run(m, ops), id)
    decreases |ops|
  {
    if ops == [] {
      TombstonesAreHidden(m, id);
    } else {
      StepKeepsWellFormed(m, ops[0]);
      DeletedStaysDeleted(Step(m, ops[0]), ops[1..], id);
    }
  }

  lemma TombstonesAreHidden(m: Memory, id: string)
    requires WellFormed(m) && id in m.deleted
    ensures Hidden(m, id)
  {
    forall filters, r, e: Event | LimitOk(filters) && Answers(m, filters, r) && e in r ensures e.id != id {
      AnswersAreNewest(m, filters, r);
    }
  }

  // ---------- channels ----------

  /** A filed event is listed from then on beside the earlier ones of its channel, in place of one of the same id. */
  lemma FiledIsListed(m: Memory, evt: Event, c: string, since: Option<int>, until: Option<int>,
                      before: seq<Event>, after: seq<Event>)
    requires ChannelsKeyed(m) && FirstTagValue(evt.tags, "channel_id") == Some(c) && c != ""
    requires ChannelAnswers(m, c, since, until, None, before)
    requires ChannelAnswers(ChannelSaved(m, evt), c, since, until, None, after)
    ensures forall e :: e in after <==>
              (e == evt && InRange(evt.createdAt, since, until)) || (e in before && e.id != evt.id)
  {
    var n := ChannelSaved(m, evt);
    assert ChannelOf(n, c) == ChannelOf(m, c)[evt.id := evt];
    forall e ensures e in ChannelMatching(n, c, since, until) <==>
      (e == evt && InRange(evt.createdAt, since, until)) || (e in ChannelMatching(m, c, since, until) && e.id != evt.id)
    {
      if e in ChannelMatching(m, c, since, until) && e.id != evt.id {
        assert ChannelOf(n, c)[e.id] == e;
      }
      if e == evt && InRange(evt.createdAt, since, until) {
        assert ChannelOf(n, c)[evt.id] == evt;
      }
    }
  }

  /** Other channels, and an event that names none, change nothing. */
  lemma FilingTouchesOneChannel(m: Memory, evt: Event, d: string)
    requires FirstTagValue(evt.tags, "channel_id") != Some(d) || d == ""
    ensures ChannelOf(ChannelSaved(m, evt), d) == ChannelOf(m, d)
    ensures ChannelSaved(m, evt).events == m.events && ChannelSaved(m, evt).deleted == m.deleted
  {
  }

  /** A dropped channel lists nothing, and the others list what they did. */
  lemma DroppedListsNothing(m: Memory, c: string, d: string, since: Option<int>, until: Option<int>,
                            limit: Option<int>, r: seq<Event>)
    ensures ChannelAnswers(ChannelsDropped(m, {c}), c, since, until, limit, r) ==> r == []
    ensures d != c ==> ChannelOf(ChannelsDropped(m, {c}), d) == ChannelOf(m, d)
  {
    var n := ChannelsDropped(m, {c});
    assert ChannelMatching(n, c, since, until) == {};
    if ChannelAnswers(n, c, since, until, limit, r) {
      var all: seq<Event> :| Lists(all, ChannelMatching(n, c, since, until), CreatedAt) && r == Cut(all, PositiveLimit(limit));
      ListingLength(all, {});
    }
  }

  // ---------- which event holds a slot ----------

  ghost function SaveAll(m: Memory, es: seq<Event>): Memory {
    if es == [] then m else Saved(SaveAll(m, es[..|es| - 1]), es[|es| - 1])
  }

  ghost predicate DistinctIds(es: seq<Event>) {
    forall i, j :: 0 <= i < j < |es| ==> es[i].id != es[j].id
  }

  /** `a` is displaced by a later timestamp, or by an equal one that arrived later. */
  predicate Beats(es: seq<Event>, j: nat, i: nat)
    requires i < |es| && j < |es|
  {
    && (es[i].kind == 0 || es[i].kind == 3 || 10000 <= es[i].kind <= 19999)
    && es[i].pubkey == es[j].pubkey && es[i].kind == es[j].kind
    && (es[i].createdAt < es[j].createdAt || (es[i].createdAt == es[j].createdAt && i < j))
  }

  ghost predicate Survives(es: seq<Event>, i: nat)
    requires i < |es|
  {
    forall j :: 0 <= j < |es| ==> !Beats(es, j, i)
  }

  ghost function Survivors(es: seq<Event>): set<Event> {
    set i | 0 <= i < |es| && Survives(es, i) :: es[i]
  }

  /** After any run of saves with distinct ids the live events are exactly the unbeaten ones. */
  lemma {:induction false} SavesConverge(es: seq<Event>)
    requires DistinctIds(es)
    ensures Live(SaveAll(EMPTY, es)) == Survivors(es)
    ensures WellFormed(SaveAll(EMPTY, es))
    ensures forall id :: id in SaveAll(EMPTY, es).events ==> HasId(es, id)
  {
    if es == [] {
    } else {
      var before, e := es[..|es| - 1], es[|es| - 1];
      SavesConverge(before);
      assert es == before + [e];
      LastSave(SaveAll(EMPTY, before), before, e);
      SavedIsWellFormed(SaveAll(EMPTY, before), e);
      forall id | HasId(before, id) || id == e.id ensures HasId(es, id) {
        if id == e.id { assert es[|before|].id == id; }
      }
    }
  }

  ghost predicate HasId(es: seq<Event>, id: string) {
    exists i :: 0 <= i < |es| && es[i].id == id
  }

  lemma LastSave(m: Memory, before: seq<Event>, e: Event)
    requires WellFormed(m) && Live(m) == Survivors(before)
    requires forall id :: id in m.events ==> HasId(before, id)
    requires DistinctIds(before + [e])
    ensures Live(Saved(m, e)) == Survivors(before + [e])
  {
    var es, n := before + [e], |before|;
    assert forall k :: 0 <= k < n ==> before[k] == es[k] && before[k].id != es[n].id;
    assert DistinctIds(before);
    NewerRivalIffBeaten(m, before, e);
    LiveAfterSave(m, e);
    forall i: nat | i <= n ensures es[i] in Live(Saved(m, e)) <==> Survives(es, i) {
      if i < n { EarlierAfterSave(m, before, e, i); }
    }
    forall x | x in Live(Saved(m, e)) ensures exists i :: 0 <= i <= n && es[i] == x {
      LiveIsListed(m, before, e, x);
    }
  }

  lemma LiveIsListed(m: Memory, before: seq<Event>, e: Event, x: Event)
    requires WellFormed(m) && Live(m) == Survivors(before) && e.id !in m.events && x in Live(Saved(m, e))
    ensures exists i :: 0 <= i <= |before| && (before + [e])[i] == x
  {
    LiveAfterSave(m, e);
    if x in Survivors(before) {
      var i :| 0 <= i < |before| && before[i] == x;
      assert (before + [e])[i] == x;
    } else {
      assert (before + [e])[|before|] == x;
    }
  }

  /** An earlier event lives on after the save of `e` exactly if it is still unbeaten. */
  lemma EarlierAfterSave(m: Memory, before: seq<Event>, e: Event, i: nat)
    requires WellFormed(m) && Live(m) == Survivors(before) && DistinctIds(before) && i < |before|
    requires before[i].id != e.id && e.id !in m.events
    ensures before[i] in Live(Saved(m, e)) <==> Survives(before + [e], i)
  {
    LiveAfterSave(m, e);
    SurvivorIndex(before, i);
    OneMore(before, e, i);
    if HasNewerRival(m, e) && Survives(before, i) {
      RivalIsUnique(m, e, before[i]);
    }
  }

  /** A later save takes the slot of `before[i]` exactly if it is at least as new. */
  lemma OneMore(before: seq<Event>, e: Event, i: nat)
    requires i < |before|
    ensures Survives(before + [e], i) <==>
            Survives(before, i) && !(SameSlot(before[i], e) && before[i].createdAt <= e.createdAt)
  {
    var es, n := before + [e], |before|;
    assert forall j :: 0 <= j < n ==> Beats(es, j, i) == Beats(before, j, i);
    assert Beats(es, n, i) <==> SameSlot(before[i], e) && before[i].createdAt <= e.createdAt;
  }

  lemma RivalIsUnique(m: Memory, e: Event, x: Event)
    requires WellFormed(m) && HasNewerRival(m, e) && x in Live(m)
    ensures SameSlot(x, e) ==> x.createdAt > e.createdAt
  {
    var id :| IsLiveRival(m, e, id) && e.createdAt < m.events[id].createdAt;
    if SameSlot(x, e) {
      assert IsLive(m, x.id) && m.events[x.id] == x && SameSlot(x, m.events[id]);
    }
  }

  /** With distinct ids an event survives exactly at its own index. */
  lemma SurvivorIndex(es: seq<Event>, i: nat)
    requires i < |es| && DistinctIds(es)
    ensures es[i] in Survivors(es) <==> Survives(es, i)
  {
  }

  lemma LiveAfterSave(m: Memory, e: Event)
    requires WellFormed(m) && e.id !in m.events
    ensures Live(Saved(m, e)) ==
            if HasNewerRival(m, e) then Live(m) else (set x | x in Live(m) && !SameSlot(e, x)) + {e}
  {
    var n := Saved(m, e);
    if !HasNewerRival(m, e) {
      forall x ensures x in Live(n) <==> (x in Live(m) && !SameSlot(e, x)) || x == e {
        if x in Live(n) && x != e {
          assert IsLive(m, x.id) && !IsLiveRival(m, e, x.id);
        }
        if x in Live(m) && !SameSlot(e, x) {
          assert !IsLiveRival(m, e, x.id) && n.events[x.id] == x && x.id !in n.deleted;
        }
        if x == e {
          assert n.events[e.id] == e && e.id !in n.deleted;
        }
      }
    }
  }

  lemma NewerRivalIffBeaten(m: Memory, before: seq<Event>, e: Event)
    requires Live(m) == Survivors(before)
    requires WellFormed(m)
    ensures HasNewerRival(m, e) <==> !Survives(before + [e], |before|)
  {
    var es, n := before + [e], |before|;
    if HasNewerRival(m, e) {
      var id :| IsLiveRival(m, e, id) && e.createdAt < m.events[id].createdAt;
      assert m.events[id] in Survivors(before);
      var k :| 0 <= k < n && Survives(before, k) && before[k] == m.events[id];
      assert Beats(es, k, n);
    }
    if !Survives(es, n) {
      var j :| 0 <= j < |es| && Beats(es, j, n);
      assert j < n;
      var k := BestFrom(before, j);
      assert before[k] in Live(m);
      assert IsLiveRival(m, e, before[k].id);
    }
  }

  ghost function Above(es: seq<Event>, j: nat): set<nat>
    requires j < |es|
  {
    set i: nat | i < |es| && Beats(es, i, j)
  }

  /** Someone unbeaten holds the slot of `es[j]`, at least as new. */
  lemma {:induction false} BestFrom(es: seq<Event>, j: nat) returns (k: nat)
    requires j < |es|
    ensures k < |es| && Survives(es, k) && es[k].createdAt >= es[j].createdAt
    ensures k == j || SameSlot(es[j], es[k])
    decreases Above(es, j)
  {
    if Survives(es, j) {
      k := j;
    } else {
      var i :| 0 <= i < |es| && Beats(es, i, j);
      assert i in Above(es, j) && i !in Above(es, i);
      k := BestFrom(es, i);
    }
  }

  // ---------- arrival order does not matter ----------

  ghost predicate DistinctTimes(es: seq<Event>) {
    forall i, j :: 0 <= i < j < |es| && SameSlot(es[i], es[j]) ==> es[i].createdAt != es[j].createdAt
  }

  /** With distinct timestamps a slot is won by its newest event, which is independent of the order. */
  lemma SurvivorsAreNewest(es: seq<Event>)
    requires DistinctTimes(es) && NoDuplicates(es)
    ensures forall e :: e in Survivors(es) <==>
              e in es && forall x :: x in es && SameSlot(e, x) ==> x.createdAt <= e.createdAt
  {
    forall i | 0 <= i < |es|
      ensures Survives(es, i) <==> forall x :: x in es && SameSlot(es[i], x) ==> x.createdAt <= es[i].createdAt
    {
      forall j | 0 <= j < |es| ensures Beats(es, j, i) <==> SameSlot(es[i], es[j]) && es[j].createdAt > es[i].createdAt {
        assert es[j] in es;
      }
      if !Survives(es, i) {
        var j :| 0 <= j < |es| && Beats(es, j, i);
        assert es[j] in es;
      }
    }
  }

  lemma PermutedIdsDiffer(es: seq<Event>, fs: seq<Event>)
    requires multiset(es) == multiset(fs) && DistinctIds(es)
    ensures DistinctIds(fs)
  {
    PermutationKeeps(es, fs);
    forall i, j | 0 <= i < j < |fs| ensures fs[i].id != fs[j].id {
      assert fs[i] in es && fs[j] in es && fs[i] != fs[j];
    }
  }

  /** Any permutation of saves with distinct ids and timestamps ends in the same live set. */
  lemma ArrivalOrderIsIrrelevant(es: seq<Event>, fs: seq<Event>)
    requires multiset(es) == multiset(fs)
    requires DistinctIds(es) && DistinctTimes(es)
    ensures Live(SaveAll(EMPTY, es)) == Live(SaveAll(EMPTY, fs))
  {
    PermutationKeeps(es, fs);
    PermutedIdsDiffer(es, fs);
    assert DistinctTimes(fs) by {
      forall i, j | 0 <= i < j < |fs| && SameSlot(fs[i], fs[j]) ensures fs[i].createdAt != fs[j].createdAt {
        assert fs[i] in es && fs[j] in es && fs[i] != fs[j];
      }
    }
    SavesConverge(es);
    SavesConverge(fs);
    SurvivorsAreNewest(es);
    SurvivorsAreNewest(fs);
    assert forall e :: e in Survivors(es) <==> e in Survivors(fs);
  }

  /** Saving a live event again, signed anew or not, ends its life if and only if its kind is replaceable. */
  lemma ResavingTombstones(m: Memory, e: Event)
    requires WellFormed(m) && IsLive(m, e.id) && m.events[e.id].(sig := "") == e.(sig := "")
    ensures IsLive(Saved(m, e), e.id) <==> !IsReplaceable(e.kind)
  {
    var x := m.events[e.id];
    assert x.(sig := "").kind == e.(sig := "").kind && x.(sig := "").pubkey == e.(sig := "").pubkey
        && x.(sig := "").createdAt == e.(sig := "").createdAt;
    if IsReplaceable(e.kind) {
      assert IsLiveRival(m, e, e.id);
      assert forall id :: IsLiveRival(m, e, id) ==> SameSlot(m.events[id], x);
    }
  }
}
