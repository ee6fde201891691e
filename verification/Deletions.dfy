/**
  Event deletion (NIP-09) and requests to vanish (NIP-62): loops over store
  operations, with the exact set of ids and channels each one takes away.
 */
module Deletions {
  import opened Wrappers
  import opened Events
  import opened TagCodec
  import opened MemoryStore

  const DELETION := 5
  const CHANNEL_CREATE := 40
  const CHANNEL_METADATA := 41
  const REQUEST_TO_VANISH := 62

  // ---------- NIP-09 ----------

  predicate Names(tags: seq<seq<string>>, name: string, value: string) {
    exists i :: 0 <= i < |tags| && |tags[i]| >= 2 && tags[i][0] == name && tags[i][1] == value
  }

  /** Stored ids of the deleter that the event names, live or not. */
  ghost function NamedIds(m: Memory, evt: Event): set<string> {
    set id | id in m.events && Names(evt.tags, "e", id) && Owns(m, evt.pubkey, id)
  }

  /** Channels of the named events that are live and create or describe a channel, whoever wrote them. */
  ghost function NamedChannels(m: Memory, evt: Event): set<string> {
    set id | id in m.events && Names(evt.tags, "e", id) && DescribesChannel(m, id) :: ChannelId(m.events[id])
  }

  predicate DescribesChannel(m: Memory, id: string) {
    && IsLive(m, id)
    && (m.events[id].kind == CHANNEL_CREATE || m.events[id].kind == CHANNEL_METADATA)
    && ChannelId(m.events[id]) != ""
  }

  ghost function AfterDeletion(m: Memory, evt: Event): Memory {
    if evt.kind != DELETION then m
    else ChannelsDropped(Tombstoned(m, NamedIds(m, evt)), NamedChannels(m, evt))
  }

  /** One e tag: drop the channel a live channel event describes, then tombstone the id if it is the deleter's. */
  ghost function AfterTag(m: Memory, id: string, pubkey: string): Memory {
    var n := if DescribesChannel(m, id) then ChannelsDropped(m, {ChannelId(m.events[id])}) else m;
    if Owns(m, pubkey, id) then Tombstoned(n, {id}) else n
  }

  method HandleTag(store: Store, eventID: string, pubkey: string)
    requires store.Valid()
    modifies store
    ensures store.Valid()
    ensures store.State() == AfterTag(old(store.State()), eventID, pubkey)
  {
    // before deleting: GetEvent does not find a deleted event
    var found := store.GetEvent(eventID);
    if found.Ok? {
      var e := found.value;
      if e.kind == CHANNEL_CREATE || e.kind == CHANNEL_METADATA {
        var channelID := ChannelId(e);
        if channelID != "" {
          var _ := store.DeleteChannelEvents(channelID);
        }
      }
    }
    var _ := store.DeleteEvent(eventID, pubkey);
  }

  method HandleDeletion(store: Store, evt: Event)
    requires store.Valid()
    modifies store
    ensures store.Valid()
    ensures store.State() == AfterDeletion(old(store.State()), evt)
  {
    if evt.kind != DELETION {
      return;
    }
    ghost var m := store.State();
    NothingNamed(m, evt.(tags := evt.tags[..0]));
    for i := 0 to |evt.tags|
      invariant store.Valid()
      invariant store.State() == AfterDeletion(m, evt.(tags := evt.tags[..i]))
    {
      var tag := evt.tags[i];
      assert evt.tags[..i + 1] == evt.tags[..i] + [tag];
      NextTag(m, evt.(tags := evt.tags[..i]), evt.(tags := evt.tags[..i + 1]), tag);
      if |tag| >= 2 && tag[0] == "e" {
        HandleTag(store, tag[1], evt.pubkey);
      }
    }
    assert evt.tags[..|evt.tags|] == evt.tags;
  }

  lemma NothingNamed(m: Memory, evt: Event)
    requires evt.tags == [] && evt.kind == DELETION
    ensures AfterDeletion(m, evt) == m
  {
    assert NamedIds(m, evt) == {} && NamedChannels(m, evt) == {};
  }

  lemma NamesOneMore(tags: seq<seq<string>>, tag: seq<string>, id: string)
    ensures Names(tags + [tag], "e", id) <==> Names(tags, "e", id) || (|tag| >= 2 && tag[0] == "e" && tag[1] == id)
  {
    var more := tags + [tag];
    if Names(tags, "e", id) {
      var i :| 0 <= i < |tags| && |tags[i]| >= 2 && tags[i][0] == "e" && tags[i][1] == id;
      assert more[i] == tags[i];
    }
    assert more[|tags|] == tag;
  }

  /** What one more tag adds to the effect. */
  lemma NextTag(m: Memory, before: Event, after: Event, tag: seq<string>)
    requires after == before.(tags := before.tags + [tag]) && before.kind == DELETION
    ensures AfterDeletion(m, after) ==
            if |tag| >= 2 && tag[0] == "e" then AfterTag(AfterDeletion(m, before), tag[1], before.pubkey)
            else AfterDeletion(m, before)
  {
    forall id ensures Names(after.tags, "e", id) <==>
                      Names(before.tags, "e", id) || (|tag| >= 2 && tag[0] == "e" && tag[1] == id)
    {
      NamesOneMore(before.tags, tag, id);
    }
    if |tag| >= 2 && tag[0] == "e" {
      TagAdds(m, before, after, tag[1]);
    } else {
      assert NamedIds(m, after) == NamedIds(m, before);
      assert NamedChannels(m, after) == NamedChannels(m, before);
    }
  }

  ghost predicate OneNameMore(before: Event, after: Event, id: string) {
    && before.kind == after.kind == DELETION && before.pubkey == after.pubkey
    && forall x :: Names(after.tags, "e", x) <==> Names(before.tags, "e", x) || x == id
  }

  lemma TagAddsChannel(m: Memory, before: Event, after: Event, id: string)
    requires OneNameMore(before, after, id)
    ensures NamedChannels(m, after) ==
            NamedChannels(m, before) + if DescribesChannel(m, id) then {ChannelId(m.events[id])} else {}
  {
    forall x | x in m.events && Names(after.tags, "e", x) && DescribesChannel(m, x)
      ensures x == id || ChannelId(m.events[x]) in NamedChannels(m, before) {}
    forall x | x in m.events && Names(before.tags, "e", x) && DescribesChannel(m, x)
      ensures ChannelId(m.events[x]) in NamedChannels(m, after) {}
  }

  lemma TagAdds(m: Memory, before: Event, after: Event, id: string)
    requires OneNameMore(before, after, id)
    ensures AfterDeletion(m, after) == AfterTag(AfterDeletion(m, before), id, before.pubkey)
  {
    assert AfterDeletion(m, after).channels == AfterTag(AfterDeletion(m, before), id, before.pubkey).channels by {
      TagDropsChannels(m, before, after, id);
    }
    assert AfterDeletion(m, after).deleted == AfterTag(AfterDeletion(m, before), id, before.pubkey).deleted by {
      assert NamedIds(m, after) == NamedIds(m, before) + if Owns(m, before.pubkey, id) then {id} else {};
    }
  }

  lemma TagDropsChannels(m: Memory, before: Event, after: Event, id: string)
    requires OneNameMore(before, after, id)
    ensures AfterDeletion(m, after).channels == AfterTag(AfterDeletion(m, before), id, before.pubkey).channels
  {
    var c := NamedChannels(m, before);
    TagAddsChannel(m, before, after, id);
    ChannelAlreadyDropped(m, before, id);
    assert AfterDeletion(m, before).channels == m.channels - c;
    if DescribesChannel(m, id) {
      var k := ChannelId(m.events[id]);
      DropOneMore(m.channels, c, k);
    }
  }

  lemma DropOneMore(channels: map<string, map<string, Event>>, dropped: set<string>, k: string)
    ensures channels - (dropped + {k}) == channels - dropped - {k}
    ensures k in dropped ==> dropped + {k} == dropped
  {
  }

  /** A channel event tombstoned by an earlier tag had its channel dropped by that tag. */
  lemma ChannelAlreadyDropped(m: Memory, before: Event, id: string)
    requires before.kind == DELETION
    ensures DescribesChannel(m, id) ==>
              DescribesChannel(AfterDeletion(m, before), id) || ChannelId(m.events[id]) in NamedChannels(m, before)
    ensures DescribesChannel(AfterDeletion(m, before), id) ==> DescribesChannel(m, id)
  {
  }

  /** Order and repetition of the tags do not matter, and only stored ids of the deleter become tombstones. */
  lemma DeletionIsExact(m: Memory, evt: Event, other: Event)
    requires evt.kind == other.kind == DELETION && evt.pubkey == other.pubkey
    requires forall id :: Names(evt.tags, "e", id) <==> Names(other.tags, "e", id)
    ensures AfterDeletion(m, evt) == AfterDeletion(m, other)
    ensures forall id :: id in AfterDeletion(m, evt).deleted - m.deleted ==>
                         Names(evt.tags, "e", id) && Owns(m, evt.pubkey, id)
    ensures forall id :: Names(evt.tags, "e", id) && Owns(m, evt.pubkey, id) ==> id in AfterDeletion(m, evt).deleted
    ensures AfterDeletion(m, evt).events == m.events
  {
    assert NamedIds(m, evt) == NamedIds(m, other);
    assert NamedChannels(m, evt) == NamedChannels(m, other);
  }

  /** Some e tag of the event names a live event of kind 40 or 41 whose first channel_id is c. */
  ghost predicate DropsChannel(m: Memory, evt: Event, c: string) {
    exists i, id :: 0 <= i < |evt.tags| && |evt.tags[i]| >= 2 && evt.tags[i][0] == "e" && evt.tags[i][1] == id
      && id in m.events && id !in m.deleted && (m.events[id].kind == 40 || m.events[id].kind == 41)
      && FirstTagValue(m.events[id].tags, "channel_id") == Some(c)
  }

  /** Some e tag of the event names a stored event of its author. */
  ghost predicate TombstonesOwn(m: Memory, evt: Event, id: string) {
    id in m.events && m.events[id].pubkey == evt.pubkey &&
    exists i :: 0 <= i < |evt.tags| && |evt.tags[i]| >= 2 && evt.tags[i][0] == "e" && evt.tags[i][1] == id
  }

  /** What a kind 5 event does to tombstones and channels, whoever wrote the channel events it names. */
  lemma DeletionMeans(m: Memory, evt: Event)
    requires evt.kind == 5
    ensures var n := AfterDeletion(m, evt);
            && n.events == m.events
            && (forall id :: id in n.deleted <==> id in m.deleted || TombstonesOwn(m, evt, id))
            && (forall c :: c in n.channels <==> c in m.channels && !(c != "" && DropsChannel(m, evt, c)))
            && (forall c :: c in n.channels ==> n.channels[c] == m.channels[c])
  {
    forall c { NamedChannelsMean(m, evt, c); }
    forall id ensures id in NamedIds(m, evt) <==> TombstonesOwn(m, evt, id) {}
  }

  lemma NamedChannelsMean(m: Memory, evt: Event, c: string)
    ensures c in NamedChannels(m, evt) <==> c != "" && DropsChannel(m, evt, c)
  {
    if c in NamedChannels(m, evt) {
      var id :| id in m.events && Names(evt.tags, "e", id) && DescribesChannel(m, id) && ChannelId(m.events[id]) == c;
      var i :| 0 <= i < |evt.tags| && |evt.tags[i]| >= 2 && evt.tags[i][0] == "e" && evt.tags[i][1] == id;
      assert DropsChannel(m, evt, c);
    }
    if c != "" && DropsChannel(m, evt, c) {
      var i, id :| 0 <= i < |evt.tags| && |evt.tags[i]| >= 2 && evt.tags[i][0] == "e" && evt.tags[i][1] == id
        && id in m.events && id !in m.deleted && (m.events[id].kind == 40 || m.events[id].kind == 41)
        && FirstTagValue(m.events[id].tags, "channel_id") == Some(c);
      assert Names(evt.tags, "e", id) && DescribesChannel(m, id) && ChannelId(m.events[id]) == c;
    }
  }

  // ---------- NIP-62 ----------

  predicate IsRelayTag(tag: seq<string>) {
    |tag| >= 2 && tag[0] == "relay"
  }

  /** There is a relay tag, and the first one is not blank. */
  ghost predicate ValidRequest(evt: Event) {
    evt.kind == REQUEST_TO_VANISH ==>
      exists i: nat :: i < |evt.tags| && FirstNamed(evt.tags, "relay", i) && TrimSpace(evt.tags[i][1]) != ""
  }

  /** Some relay tag is the wildcard or this relay's URL up to letter case. */
  ghost predicate AddressedHere(evt: Event, relayURL: string, equalFold: (string, string) -> bool) {
    exists i :: 0 <= i < |evt.tags| && IsRelayTag(evt.tags[i])
      && (TrimSpace(evt.tags[i][1]) == "ALL_RELAYS" || equalFold(TrimSpace(evt.tags[i][1]), relayURL))
  }

  ghost predicate Applicable(evt: Event, relayURL: string, equalFold: (string, string) -> bool) {
    evt.kind == REQUEST_TO_VANISH && ValidRequest(evt) && AddressedHere(evt, relayURL, equalFold)
  }

  ghost function AfterVanish(m: Memory, evt: Event, relayURL: string, equalFold: (string, string) -> bool): Memory {
    if Applicable(evt, relayURL, equalFold) then Tombstoned(m, OwnedBy(m, evt.pubkey)) else m
  }

  method ValidateRequestToVanish(evt: Event) returns (valid: bool)
    ensures valid <==> ValidRequest(evt)
  {
    if evt.kind != REQUEST_TO_VANISH {
      return true;
    }
    var hasRelayTag := false;
    for i := 0 to |evt.tags|
      invariant !hasRelayTag
      invariant forall k :: 0 <= k < i ==> !IsRelayTag(evt.tags[k])
    {
      if IsRelayTag(evt.tags[i]) {
        hasRelayTag := true;
        assert FirstNamed(evt.tags, "relay", i);
        if TrimSpace(evt.tags[i][1]) == "" {
          return false;
        }
        break;
      }
    }
    return hasRelayTag;
  }

  /** `failed` is the error return. */
  method HandleRequestToVanish(store: Store, evt: Event, relayURL: string, equalFold: (string, string) -> bool)
    returns (failed: bool)
    requires store.Valid()
    modifies store
    ensures store.Valid()
    ensures failed <==> !ValidRequest(evt)
    ensures store.State() == AfterVanish(old(store.State()), evt, relayURL, equalFold)
  {
    if evt.kind != REQUEST_TO_VANISH {
      return false;
    }
    var valid := ValidateRequestToVanish(evt);
    if !valid {
      return true;
    }
    var isForThisRelay := false;
    for i := 0 to |evt.tags|
      invariant !isForThisRelay
      invariant forall k :: 0 <= k < i && IsRelayTag(evt.tags[k]) ==>
        TrimSpace(evt.tags[k][1]) != "ALL_RELAYS" && !equalFold(TrimSpace(evt.tags[k][1]), relayURL)
    {
      if IsRelayTag(evt.tags[i]) {
        var relayTag := TrimSpace(evt.tags[i][1]);
        if relayTag == "ALL_RELAYS" || equalFold(relayTag, relayURL) {
          isForThisRelay := true;
          break;
        }
      }
    }
    if !isForThisRelay {
      return false;
    }
    store.DeleteAllEventsByPubKey(evt.pubkey);
    return false;
  }

  /** An applicable request hides everything the author had stored, and nothing else. */
  lemma VanishIsExact(m: Memory, evt: Event, relayURL: string, equalFold: (string, string) -> bool)
    requires WellFormed(m)
    ensures var n := AfterVanish(m, evt, relayURL, equalFold);
            && WellFormed(n) && n.events == m.events
            && (Applicable(evt, relayURL, equalFold) ==>
                  forall id :: id in m.events && m.events[id].pubkey == evt.pubkey ==> !IsLive(n, id))
            && (forall id :: id in m.events && m.events[id].pubkey != evt.pubkey ==> (IsLive(n, id) <==> IsLive(m, id)))
            && (!Applicable(evt, relayURL, equalFold) ==> n == m)
  {
    TombstonedIsWellFormed(m, OwnedBy(m, evt.pubkey));
  }
}
