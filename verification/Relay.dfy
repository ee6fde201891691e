/**
  The relay over the in-memory store: what an EVENT, a REQ, a COUNT and a CLOSE do
  to the store and to the client, and the delivery of a broadcast to one client.
  A broadcast leaves one delivery in flight for each connected client.
 */
module Relay {
  import opened Wrappers
  import opened Orders
  import opened Events
  import opened TagCodec
  import opened MemoryStore
  import opened Deletions
  import opened Search
  import opened Protocol
  import RL = RateLimiter

  const GIFT_WRAP := 1059
  const DIRECT_MESSAGE := 4

  datatype Config = Config(
    requireAuth: bool, closeAfterEOSE: bool, maxEventsPerREQ: int, retentionDays: int, relayURL: string)

  /** Checks the model does not look into: the id hash and signature, content policy, validators by kind, expiry. */
  datatype Rules = Rules(
    valid: Event -> bool, signed: Event -> bool, policyAllows: Event -> bool, kindValid: Event -> bool,
    expired: (Event, int) -> bool, folding: Folding)

  predicate IsEphemeral(kind: int) { 20000 <= kind < 30000 }

  predicate IsChannelKind(kind: int) { 40 <= kind <= 44 }

  // ---------- EVENT ----------

  datatype Handling = Handling(store: Memory, session: Session, broadcast: bool, failed: bool)

  ghost function Handled(cfg: Config, rules: Rules, now: int, m: Memory, s: Session, e: Event): Handling {
    if e.kind == AUTH_KIND then HandledAuth(rules, m, s, e)
    else if cfg.requireAuth && !s.authenticated then Handling(m, Say(s, OkReply(e.id, false, AuthRequired)), false, false)
    else if !rules.policyAllows(e) then Handling(m, Say(s, OkReply(e.id, false, PolicyRejected)), false, false)
    else if !rules.kindValid(e) || !ValidRequest(e) then Handling(m, Say(s, OkReply(e.id, false, InvalidKind)), false, true)
    else Processed(cfg, rules, now, m, s, e)
  }

  /** An event that passed its checks, by kind. */
  ghost function Processed(cfg: Config, rules: Rules, now: int, m: Memory, s: Session, e: Event): Handling {
    if IsEphemeral(e.kind) then Handling(m, Say(s, OkReply(e.id, true, NoReason)), true, false)
    else if rules.expired(e, now) then Handling(m, Say(s, OkReply(e.id, false, HasExpired)), false, true)
    else if e.kind == DELETION then Handling(AfterDeletion(m, e), s, false, false)
    else if e.kind == REQUEST_TO_VANISH then
      Handling(AfterVanish(m, e, cfg.relayURL, rules.folding.equalFold),
               Say(s, OkReply(e.id, true, VanishProcessed)), false, false)
    else if e.kind == GIFT_WRAP then
      if e.id in m.deleted then Handling(m, Say(s, OkReply(e.id, false, SaveFailed)), false, true)
      else Handling(Saved(m, e), Say(s, OkReply(e.id, true, NoReason)), true, false)
    else
      match Fetched(m, e.id)
      case Ok(_) => Handling(m, Say(s, OkReply(e.id, true, Duplicate)), false, false)
      case Err(NotFound) =>
        var saved := Saved(m, e);
        Handling(if IsChannelKind(e.kind) then ChannelSaved(saved, e) else saved,
                 Say(s, OkReply(e.id, true, NoReason)), true, false)
      case Err(_) => Handling(m, s, false, true)
  }

  /** The content of an AUTH event must be the connection's challenge. */
  ghost predicate Authenticates(rules: Rules, s: Session, e: Event) {
    && e.kind == AUTH_KIND && TrimSpace(e.content) != "" && rules.signed(e)
    && (s.authChallenge != "" ==> e.content == s.authChallenge)
  }

  ghost function HandledAuth(rules: Rules, m: Memory, s: Session, e: Event): Handling {
    if TrimSpace(e.content) == "" || !rules.signed(e) then
      Handling(m, Say(s, OkReply(e.id, false, InvalidAuth)), false, true)
    else if s.authChallenge != "" && e.content != s.authChallenge then
      Handling(m, Say(s, OkReply(e.id, false, ChallengeMismatch)), false, true)
    else
      Handling(m, Say(s.(authenticated := true, authPubKey := e.pubkey), OkReply(e.id, true, Authenticated)), false, false)
  }

  // ---------- REQ ----------

  function Unexpired(events: seq<Event>, rules: Rules, now: int): seq<Event> {
    Kept(events, e => !rules.expired(e, now))
  }

  function EventReplies(subId: string, events: seq<Event>): seq<Reply> {
    seq(|events|, i requires 0 <= i < |events| => EventReply(subId, events[i]))
  }

  function Cap(cfg: Config): nat {
    if cfg.maxEventsPerREQ < 0 then 0 else cfg.maxEventsPerREQ
  }

  /** The first unexpired events of the result, then the end mark. */
  function AnswerStream(cfg: Config, rules: Rules, now: int, subId: string, result: seq<Event>): seq<Reply> {
    EventReplies(subId, Take(Unexpired(result, rules, now), Cap(cfg))) + [EoseReply(subId)]
  }

  function Answered(cfg: Config, rules: Rules, now: int, s: Session, subId: string, result: seq<Event>): Session {
    s.(sent := s.sent + AnswerStream(cfg, rules, now, subId, result),
       subscriptions := if cfg.closeAfterEOSE then s.subscriptions - {subId} else s.subscriptions)
  }

  function NamedChannel(f: Filter): string {
    if "channel_id" in f.tags && |f.tags["channel_id"]| > 0 then f.tags["channel_id"][0] else ""
  }

  /** The first filter naming a channel turns the request into a channel query. */
  function QueriedChannel(filters: seq<Filter>): string {
    if filters == [] then ""
    else if NamedChannel(filters[0]) != "" then NamedChannel(filters[0])
    else QueriedChannel(filters[1..])
  }

  /** The bound of the last filter that has one. */
  function LastBound(filters: seq<Filter>, bound: Filter -> Option<int>): Option<int> {
    if filters == [] then None
    else
      var last := bound(filters[|filters| - 1]);
      if last.Some? then last else LastBound(filters[..|filters| - 1], bound)
  }

  function LastSince(filters: seq<Filter>): Option<int> { LastBound(filters, (f: Filter) => f.since) }

  function LastUntil(filters: seq<Filter>): Option<int> { LastBound(filters, (f: Filter) => f.until) }

  function LastLimit(filters: seq<Filter>): Option<int> { LastBound(filters, (f: Filter) => f.limit) }

  function FirstKinds(filters: seq<Filter>): seq<int> {
    if filters == [] then [] else Items(filters[0].kinds)
  }

  /** Of the k-th answer the events of the k-th kind, one answer after another. */
  function ByKind(answers: seq<seq<Event>>, kinds: seq<int>): seq<Event>
    requires |answers| == |kinds|
  {
    if kinds == [] then []
    else
      var n := |kinds| - 1;
      ByKind(answers[..n], kinds[..n]) + Kept(answers[n], (e: Event) => e.kind == kinds[n])
  }

  ghost predicate AnswersChannel(m: Memory, channelId: string, filters: seq<Filter>, r: seq<Event>) {
    ChannelAnswers(m, channelId, LastSince(filters), LastUntil(filters), LastLimit(filters), r)
  }

  /** Without kinds one answer of the channel; with kinds one for each, cut before its kind is looked at. */
  ghost predicate ChannelResult(m: Memory, channelId: string, filters: seq<Filter>, result: seq<Event>) {
    var kinds := FirstKinds(filters);
    if kinds == [] then AnswersChannel(m, channelId, filters, result)
    else exists answers: seq<seq<Event>> ::
      |answers| == |kinds| && result == ByKind(answers, kinds)
      && forall k :: 0 <= k < |answers| ==> AnswersChannel(m, channelId, filters, answers[k])
  }

  predicate HasSearch(filters: seq<Filter>) {
    exists i :: 0 <= i < |filters| && filters[i].search != ""
  }

  /** What a request may be answered from: a channel, a search, or the plain query. */
  ghost predicate QueryResult(m: Memory, rules: Rules, filters: seq<Filter>, result: seq<Event>)
    requires LimitOk(filters)
  {
    if QueriedChannel(filters) != "" then ChannelResult(m, QueriedChannel(filters), filters, result)
    else if HasSearch(filters) then SearchAnswers(m, filters, rules.folding, result)
    else Answers(m, filters, result)
  }

  predicate NamesAChannel(f: Filter) {
    "channel_id" in f.tags && f.tags["channel_id"] != [] && f.tags["channel_id"][0] != ""
  }

  /** The channel queried is that of the first filter with a channel_id whose first value is not empty. */
  lemma {:induction false} ChannelIsNamedFirst(filters: seq<Filter>, i: nat)
    requires i < |filters| && NamesAChannel(filters[i]) && forall k :: 0 <= k < i ==> !NamesAChannel(filters[k])
    ensures QueriedChannel(filters) == filters[i].tags["channel_id"][0]
  {
    if i == 0 {
    } else {
      assert !NamesAChannel(filters[0]);
      ChannelIsNamedFirst(filters[1..], i - 1);
    }
  }

  lemma {:induction false} NoChannelNamed(filters: seq<Filter>)
    requires forall k :: 0 <= k < |filters| ==> !NamesAChannel(filters[k])
    ensures QueriedChannel(filters) == ""
  {
    if filters == [] {
    } else {
      assert !NamesAChannel(filters[0]);
      NoChannelNamed(filters[1..]);
    }
  }

  /** Of several filters the last one that has a bound gives it. */
  lemma {:induction false} LastBoundIsLast(filters: seq<Filter>, bound: Filter -> Option<int>)
    ensures LastBound(filters, bound).None? <==> forall i :: 0 <= i < |filters| ==> bound(filters[i]).None?
    ensures LastBound(filters, bound).Some? ==>
              exists i :: 0 <= i < |filters| && bound(filters[i]) == LastBound(filters, bound)
                          && forall k :: i < k < |filters| ==> bound(filters[k]).None?
  {
    if filters == [] {
    } else {
      var n := |filters| - 1;
      LastBoundIsLast(filters[..n], bound);
      if bound(filters[n]).None? && LastBound(filters[..n], bound).Some? {
        var i :| 0 <= i < n && bound(filters[..n][i]) == LastBound(filters[..n], bound)
          && forall k :: i < k < n ==> bound(filters[..n][k]).None?;
        assert bound(filters[i]) == LastBound(filters, bound);
        assert forall k :: i < k < n ==> filters[..n][k] == filters[k];
      }
    }
  }

  /** A channel is answered as if nothing had been tombstoned. */
  lemma ChannelIgnoresTombstones(m: Memory, ids: set<string>, channelId: string, filters: seq<Filter>, r: seq<Event>)
    ensures ChannelResult(Tombstoned(m, ids), channelId, filters, r) <==> ChannelResult(m, channelId, filters, r)
  {
    var n := Tombstoned(m, ids);
    assert ChannelOf(n, channelId) == ChannelOf(m, channelId);
    assert ChannelRange(n, channelId, filters) == ChannelRange(m, channelId, filters);
    forall a ensures AnswersChannel(n, channelId, filters, a) <==> AnswersChannel(m, channelId, filters, a) {}
  }

  /** It holds the channel's events in range and of the kinds asked for, all of them if there is no positive limit. */
  lemma ChannelMembers(m: Memory, channelId: string, filters: seq<Filter>, r: seq<Event>)
    requires ChannelResult(m, channelId, filters, r)
    ensures forall e :: e in r ==> ChannelWants(m, channelId, filters, e)
    ensures PositiveLimit(LastLimit(filters)).None? ==> forall e :: ChannelWants(m, channelId, filters, e) ==> e in r
  {
    var kinds := FirstKinds(filters);
    if kinds == [] {
      ChannelAnswerMembers(m, channelId, filters, r);
    } else {
      var answers: seq<seq<Event>> :| |answers| == |kinds| && r == ByKind(answers, kinds)
        && forall k :: 0 <= k < |answers| ==> AnswersChannel(m, channelId, filters, answers[k]);
      ByKindMembers(answers, kinds);
      forall k | 0 <= k < |kinds|
        ensures forall e :: e in answers[k] ==> e in ChannelRange(m, channelId, filters)
        ensures PositiveLimit(LastLimit(filters)).None? ==>
                  forall e :: e in ChannelRange(m, channelId, filters) ==> e in answers[k]
      {
        ChannelAnswerMembers(m, channelId, filters, answers[k]);
      }
    }
  }

  ghost function ChannelRange(m: Memory, channelId: string, filters: seq<Filter>): set<Event> {
    ChannelMatching(m, channelId, LastSince(filters), LastUntil(filters))
  }

  predicate IsLastSince(filters: seq<Filter>, i: nat)
    requires i < |filters|
  {
    filters[i].since.Some? && forall k :: i < k < |filters| ==> filters[k].since.None?
  }

  predicate IsLastUntil(filters: seq<Filter>, i: nat)
    requires i < |filters|
  {
    filters[i].until.Some? && forall k :: i < k < |filters| ==> filters[k].until.None?
  }

  /** In range are the channel's events not before the last since and not after the last until, if any. */
  lemma ChannelRangeMeans(m: Memory, channelId: string, filters: seq<Filter>, e: Event)
    ensures e in ChannelRange(m, channelId, filters) <==>
            && e in ChannelOf(m, channelId).Values
            && (forall i: nat :: i < |filters| && IsLastSince(filters, i) ==> filters[i].since.value <= e.createdAt)
            && (forall i: nat :: i < |filters| && IsLastUntil(filters, i) ==> e.createdAt <= filters[i].until.value)
  {
    LastSinceMeans(filters);
    LastUntilMeans(filters);
    if e in ChannelOf(m, channelId).Values {
      var id :| id in ChannelOf(m, channelId) && ChannelOf(m, channelId)[id] == e;
    }
  }

  lemma LastSinceMeans(filters: seq<Filter>)
    ensures LastSince(filters).Some? ==> exists i: nat :: i < |filters| && IsLastSince(filters, i)
    ensures forall i: nat :: i < |filters| && IsLastSince(filters, i) ==> LastSince(filters) == filters[i].since
  {
    LastBoundIsLast(filters, (f: Filter) => f.since);
    if LastSince(filters).Some? {
      var i: nat :| i < |filters| && filters[i].since == LastSince(filters) && forall k :: i < k < |filters| ==> filters[k].since.None?;
      assert IsLastSince(filters, i);
      assert forall k: nat :: k < |filters| && IsLastSince(filters, k) ==> k == i;
    }
  }

  lemma LastUntilMeans(filters: seq<Filter>)
    ensures LastUntil(filters).Some? ==> exists i: nat :: i < |filters| && IsLastUntil(filters, i)
    ensures forall i: nat :: i < |filters| && IsLastUntil(filters, i) ==> LastUntil(filters) == filters[i].until
  {
    LastBoundIsLast(filters, (f: Filter) => f.until);
    if LastUntil(filters).Some? {
      var i: nat :| i < |filters| && filters[i].until == LastUntil(filters) && forall k :: i < k < |filters| ==> filters[k].until.None?;
      assert IsLastUntil(filters, i);
      assert forall k: nat :: k < |filters| && IsLastUntil(filters, k) ==> k == i;
    }
  }

  ghost predicate ChannelWants(m: Memory, channelId: string, filters: seq<Filter>, e: Event) {
    e in ChannelRange(m, channelId, filters) && (FirstKinds(filters) != [] ==> e.kind in FirstKinds(filters))
  }

  lemma ChannelAnswerMembers(m: Memory, channelId: string, filters: seq<Filter>, r: seq<Event>)
    requires AnswersChannel(m, channelId, filters, r)
    ensures forall e :: e in r ==> e in ChannelRange(m, channelId, filters)
    ensures PositiveLimit(LastLimit(filters)).None? ==> forall e :: e in ChannelRange(m, channelId, filters) ==> e in r
  {
    var limit := PositiveLimit(LastLimit(filters));
    var all: seq<Event> :| Lists(all, ChannelRange(m, channelId, filters), CreatedAt) && r == Cut(all, limit);
    var cut := Cut(all, limit);
    assert cut <= all;
    assert r == cut;
    assert forall e :: e in r ==> e in all;
  }

  lemma {:induction false} ByKindMembers(answers: seq<seq<Event>>, kinds: seq<int>)
    requires |answers| == |kinds|
    ensures forall e :: e in ByKind(answers, kinds) <==> exists k :: 0 <= k < |kinds| && e in answers[k] && e.kind == kinds[k]
  {
    if kinds == [] {
    } else {
      var n := |kinds| - 1;
      ByKindMembers(answers[..n], kinds[..n]);
      KeptMembers(answers[n], (e: Event) => e.kind == kinds[n]);
      forall e ensures e in ByKind(answers, kinds) <==> exists k :: 0 <= k <= n && e in answers[k] && e.kind == kinds[k] {
        if e in ByKind(answers[..n], kinds[..n]) {
          var k :| 0 <= k < n && e in answers[..n][k] && e.kind == kinds[..n][k];
          assert e in answers[k] && e.kind == kinds[k];
        }
        if k :| 0 <= k < n && e in answers[k] && e.kind == kinds[k] {
          assert e in answers[..n][k] && e.kind == kinds[..n][k];
        }
      }
    }
  }

  // ---------- everything a message does, short of subscribing ----------

  ghost function Reacted(cfg: Config, rules: Rules, now: int, m: Memory, s: Session, a: Action): Handling
    requires !a.Subscribe?
  {
    match a
    case Answer(reply) => Handling(m, Say(s, reply), false, false)
    case Handle(e) =>
      var h := Handled(cfg, rules, now, m, s, e);
      h.(session := Say(h.session, if h.failed then OkReply(e.id, false, HandlerFailed) else OkReply(e.id, true, NoReason)))
    case Unsubscribe(subId) => Handling(m, s.(subscriptions := s.subscriptions - {subId}), false, false)
    case Count(id, filters) =>
      if filters == [] then Handling(m, Say(Say(s, ClosedReply(id, NoFilters)), NoticeReply(HandlerFailed)), false, true)
      else Handling(m, Say(s, CountReply(id, |Matching(m, filters)|)), false, false)
  }

  // ---------- delivery of a broadcast ----------

  ghost predicate RecipientTestPasses(subs: Subscriptions, e: Event) {
    e.kind == DIRECT_MESSAGE ==>
      FirstTagValue(e.tags, "p").Some? && WatchesPubKey(subs, FirstTagValue(e.tags, "p").value)
  }

  ghost predicate MatchedBy(subs: Subscriptions, subId: string, e: Event) {
    subId in subs && AcceptedBySome(subs[subId], e)
  }

  ghost predicate ShouldReceive(rules: Rules, now: int, subs: Subscriptions, e: Event) {
    !rules.expired(e, now) && RecipientTestPasses(subs, e) && exists subId :: MatchedBy(subs, subId, e)
  }

  /** One copy, under some matching subscription, or nothing. */
  ghost predicate Delivered(rules: Rules, now: int, s: Session, e: Event, s': Session) {
    if ShouldReceive(rules, now, s.subscriptions, e) then
      exists subId :: MatchedBy(s.subscriptions, subId, e) && s' == Say(s, EventReply(subId, e))
    else s' == s
  }

  // ---------- retention ----------

  /** Profiles, contact lists, relay lists and direct message relay lists. */
  const RETENTION_EXEMPT := [0, 3, 10002, 10050]

  function Cutoff(cfg: Config, now: int): int {
    now - cfg.retentionDays * 86400
  }

  function AfterRetention(cfg: Config, now: int, m: Memory): Memory {
    if cfg.retentionDays <= 0 then m else Tombstoned(m, Expiring(m, Cutoff(cfg, now), RETENTION_EXEMPT))
  }

  /** Running it again and again removes no more than its latest run would have alone. */
  lemma RetentionAbsorbsEarlierRuns(cfg: Config, early: int, late: int, m: Memory)
    requires early <= late
    ensures AfterRetention(cfg, late, AfterRetention(cfg, early, m)) == AfterRetention(cfg, late, m)
    ensures forall id :: IsLive(AfterRetention(cfg, late, m), id) <==>
              IsLive(m, id) && (cfg.retentionDays <= 0 || m.events[id].kind in {0, 3, 10002, 10050}
                                || m.events[id].createdAt >= late - cfg.retentionDays * 86400)
  {
    if cfg.retentionDays > 0 {
      var n := AfterRetention(cfg, early, m);
      var first, second := Expiring(m, Cutoff(cfg, early), RETENTION_EXEMPT), Expiring(n, Cutoff(cfg, late), RETENTION_EXEMPT);
      var once := Expiring(m, Cutoff(cfg, late), RETENTION_EXEMPT);
      assert first <= once && second <= once && once <= first + second;
      assert m.deleted + first + second == m.deleted + once;
    }
  }

  /** A copy of an event on its way to a peer. */
  datatype Flight<P(==)> = Flight(peer: P, evt: Event)

  /** One flight for each peer. */
  function Launched<P(==)>(peers: set<P>, evt: Event): multiset<Flight<P>> {
    multiset(set p | p in peers :: Flight(p, evt))
  }

  class Relay {
    const store: Store
    const config: Config
    const rules: Rules
    var clients: set<Client>
    var inFlight: multiset<Flight<Client>>

    constructor (store: Store, config: Config, rules: Rules)
      ensures this.store == store && this.config == config && this.rules == rules
      ensures clients == {} && inFlight == multiset{}
    {
      this.store, this.config, this.rules := store, config, rules;
      clients, inFlight := {}, multiset{};
    }

    /** One goroutine is started for each client, in any order. */
    method BroadcastEvent(evt: Event)
      modifies this`inFlight
      ensures inFlight == old(inFlight) + Launched(clients, evt)
    {
      var rest := clients;
      ghost var started: set<Client> := {};
      while rest != {}
        invariant rest <= clients && started == clients - rest
        invariant inFlight == old(inFlight) + Launched(started, evt)
      {
        var c :| c in rest;
        rest := rest - {c};
        assert (set x | x in started + {c} :: Flight(x, evt)) ==
               (set x | x in started :: Flight(x, evt)) + {Flight(c, evt)};
        started := started + {c};
        inFlight := inFlight + multiset{Flight(c, evt)};
      }
      assert started == clients;
    }

    /** The goroutine a broadcast starts for client `c`; subscriptions are visited in any order. */
    method Deliver(c: Client, evt: Event, now: int)
      modifies c`sent
      ensures Delivered(rules, now, old(c.State()), evt, c.State())
    {
      if rules.expired(evt, now) {
        return;
      }
      if evt.kind == DIRECT_MESSAGE {
        var recipient := FirstTagValue(evt.tags, "p");
        if recipient.None? {
          return;
        }
        var watches := c.HasSubscriptionToPubKey(recipient.value);
        if !watches {
          return;
        }
      }
      var subs := c.GetSubscriptions();
      var rest := subs.Keys;
      while rest != {}
        invariant rest <= subs.Keys && c.sent == old(c.sent)
        invariant forall k :: k in subs && k !in rest ==> !MatchedBy(subs, k, evt)
      {
        var subId :| subId in rest;
        rest := rest - {subId};
        var matches := MatchesSome(evt, subs[subId]);
        if matches {
          assert MatchedBy(subs, subId, evt);
          c.Send(EventReply(subId, evt));
          return;
        }
      }
    }

    method HandleAuth(c: Client, evt: Event) returns (failed: bool)
      requires evt.kind == AUTH_KIND
      modifies c
      ensures var h := HandledAuth(rules, old(store.State()), old(c.State()), evt);
              failed == h.failed && c.State() == h.session
    {
      if TrimSpace(evt.content) == "" || !rules.signed(evt) {
        c.Send(OkReply(evt.id, false, InvalidAuth));
        return true;
      }
      if c.authChallenge != "" && evt.content != c.authChallenge {
        c.Send(OkReply(evt.id, false, ChallengeMismatch));
        return true;
      }
      c.Authenticate(evt.pubkey);
      c.Send(OkReply(evt.id, true, Authenticated));
      return false;
    }

    method StoreAndBroadcast(c: Client, evt: Event) returns (failed: bool)
      requires store.Valid() && evt.kind != GIFT_WRAP
      modifies this`inFlight, store, c`sent
      ensures store.Valid()
      ensures match Fetched(old(store.State()), evt.id)
              case Ok(_) => !failed && store.State() == old(store.State())
                            && c.State() == Say(old(c.State()), OkReply(evt.id, true, Duplicate)) && inFlight == old(inFlight)
              case Err(NotFound) =>
                var saved := Saved(old(store.State()), evt);
                !failed && store.State() == (if IsChannelKind(evt.kind) then ChannelSaved(saved, evt) else saved)
                && c.State() == Say(old(c.State()), OkReply(evt.id, true, NoReason))
                && inFlight == old(inFlight) + Launched(clients, evt)
              case Err(_) =>
                failed && store.State() == old(store.State()) && c.State() == old(c.State()) && inFlight == old(inFlight)
    {
      var existing := store.GetEvent(evt.id);
      if existing.Err? && existing.error != NotFound {
        return true;
      }
      if existing.Ok? {
        c.Send(OkReply(evt.id, true, Duplicate));
        return false;
      }
      var saved := store.SaveEvent(evt);
      if saved.Err? {
        assert false; // SaveEvent refuses tombstoned ids only, and GetEvent has just ruled that out
      }
      if IsChannelKind(evt.kind) {
        var _ := store.SaveChannelEvent(evt);
      }
      c.Send(OkReply(evt.id, true, NoReason));
      BroadcastEvent(evt);
      return false;
    }

    /** `failed` is the error return; the caller answers with an OK of its own in either case. */
    method HandleEvent(c: Client, evt: Event, now: int) returns (failed: bool)
      requires store.Valid()
      modifies this`inFlight, store, c
      ensures store.Valid()
      ensures var h := Handled(config, rules, now, old(store.State()), old(c.State()), evt);
              && store.State() == h.store && c.State() == h.session && failed == h.failed
              && inFlight == old(inFlight) + if h.broadcast then Launched(clients, evt) else multiset{}
    {
      if evt.kind == AUTH_KIND {
        failed := HandleAuth(c, evt);
        return;
      }
      if config.requireAuth && !c.authenticated {
        c.Send(OkReply(evt.id, false, AuthRequired));
        return false;
      }
      if !rules.policyAllows(evt) {
        c.Send(OkReply(evt.id, false, PolicyRejected));
        return false;
      }
      var validRequest := ValidateRequestToVanish(evt);
      if !rules.kindValid(evt) || !validRequest {
        c.Send(OkReply(evt.id, false, InvalidKind));
        return true;
      }
      if IsEphemeral(evt.kind) {
        BroadcastEvent(evt);
        c.Send(OkReply(evt.id, true, NoReason));
        return false;
      }
      if rules.expired(evt, now) {
        c.Send(OkReply(evt.id, false, HasExpired));
        return true;
      }
      if evt.kind == DELETION {
        HandleDeletion(store, evt);
        return false;
      }
      if evt.kind == REQUEST_TO_VANISH {
        var vanishFailed := HandleRequestToVanish(store, evt, config.relayURL, rules.folding.equalFold);
        if vanishFailed {
          assert false; // the request was validated above
        }
        c.Send(OkReply(evt.id, true, VanishProcessed));
        return false;
      }
      if evt.kind == GIFT_WRAP {
        var saved := store.SaveEvent(evt);
        if saved.Err? {
          c.Send(OkReply(evt.id, false, SaveFailed));
          return true;
        }
        c.Send(OkReply(evt.id, true, NoReason));
        BroadcastEvent(evt);
        return false;
      }
      failed := StoreAndBroadcast(c, evt);
    }

    method QueryChannel(channelId: string, filters: seq<Filter>) returns (result: seq<Event>)
      requires store.Valid()
      ensures ChannelResult(store.State(), channelId, filters, result)
    {
      var since, until, limit := None, None, None;
      for i := 0 to |filters|
        invariant since == LastSince(filters[..i]) && until == LastUntil(filters[..i]) && limit == LastLimit(filters[..i])
      {
        assert filters[..i + 1][..i] == filters[..i];
        if filters[i].since.Some? { since := filters[i].since; }
        if filters[i].until.Some? { until := filters[i].until; }
        if filters[i].limit.Some? { limit := filters[i].limit; }
      }
      assert filters[..|filters|] == filters;
      if |filters| > 0 && |Items(filters[0].kinds)| > 0 {
        var kinds := Items(filters[0].kinds);
        result := [];
        ghost var answers: seq<seq<Event>> := [];
        for k := 0 to |kinds|
          invariant |answers| == k && result == ByKind(answers, kinds[..k])
          invariant forall j :: 0 <= j < k ==> AnswersChannel(store.State(), channelId, filters, answers[j])
        {
          var events := store.QueryChannelEvents(channelId, since, until, limit);
          var ofKind := KeepKind(events, kinds[k]);
          result := result + ofKind;
          assert kinds[..k + 1][..k] == kinds[..k] && (answers + [events])[..k] == answers;
          answers := answers + [events];
        }
        assert kinds[..|kinds|] == kinds;
      } else {
        result := store.QueryChannelEvents(channelId, since, until, limit);
      }
    }

    method KeepKind(events: seq<Event>, kind: int) returns (kept: seq<Event>)
      ensures kept == Kept(events, (e: Event) => e.kind == kind)
    {
      kept := [];
      for j := 0 to |events|
        invariant kept == Kept(events[..j], (e: Event) => e.kind == kind)
      {
        assert events[..j + 1][..j] == events[..j];
        if events[j].kind == kind {
          kept := kept + [events[j]];
        }
      }
      assert events[..|events|] == events;
    }

    method SendStored(c: Client, subId: string, events: seq<Event>, now: int)
      modifies c`sent
      ensures c.sent == old(c.sent) + EventReplies(subId, Take(Unexpired(events, rules, now), Cap(config)))
    {
      var sent := 0;
      ghost var replies: seq<Event> := [];
      for i := 0 to |events|
        invariant sent == |replies| <= Cap(config)
        invariant replies == Unexpired(events[..i], rules, now)
        invariant c.sent == old(c.sent) + EventReplies(subId, replies)
      {
        assert events[..i + 1][..i] == events[..i];
        if rules.expired(events[i], now) {
          continue;
        }
        if sent >= config.maxEventsPerREQ {
          KeptGrows(events, i, e => !rules.expired(e, now));
          return;
        }
        c.Send(EventReply(subId, events[i]));
        sent := sent + 1;
        replies := replies + [events[i]];
      }
      assert events[..|events|] == events;
    }

    /** The channel, the search or the plain query. */
    method QueryFor(filters: seq<Filter>) returns (events: seq<Event>)
      requires store.Valid() && LimitOk(filters)
      ensures QueryResult(store.State(), rules, filters, events)
    {
      var channelId := QueriedChannel(filters);
      if channelId != "" {
        events := QueryChannel(channelId, filters);
      } else if HasSearch(filters) {
        events := SearchEvents(store, filters, rules.folding);
      } else {
        events := store.QueryEvents(filters);
      }
    }

    method HandleReq(c: Client, subId: string, filters: seq<Filter>, now: int)
      requires store.Valid() && LimitOk(filters)
      modifies c
      ensures exists result ::
                QueryResult(store.State(), rules, filters, result)
                && c.State() == Answered(config, rules, now, old(c.State()), subId, result)
    {
      var events := QueryFor(filters);
      SendStored(c, subId, events, now);
      c.Send(EoseReply(subId));
      if config.closeAfterEOSE {
        c.RemoveSubscription(subId);
      }
      assert c.State() == Answered(config, rules, now, old(c.State()), subId, events);
    }

    /** Carries out what the gate decided, for every message but a REQ. */
    method React(c: Client, a: Action, now: int)
      requires store.Valid() && !a.Subscribe?
      modifies this`inFlight, store, c
      ensures store.Valid()
      ensures var h := Reacted(config, rules, now, old(store.State()), old(c.State()), a);
              && store.State() == h.store && c.State() == h.session
              && (!h.broadcast ==> inFlight == old(inFlight))
              && (h.broadcast ==> a.Handle? && inFlight == old(inFlight) + Launched(clients, a.evt))
    {
      match a
      case Answer(reply) =>
        c.Send(reply);
      case Handle(evt) =>
        var failed := HandleEvent(c, evt, now);
        c.Send(if failed then OkReply(evt.id, false, HandlerFailed) else OkReply(evt.id, true, NoReason));
      case Unsubscribe(subId) =>
        c.RemoveSubscription(subId);
      case Count(id, filters) =>
        if |filters| == 0 {
          c.Send(ClosedReply(id, NoFilters));
          c.Send(NoticeReply(HandlerFailed));
        } else {
          var count := store.CountEvents(filters);
          c.Send(CountReply(id, count));
        }
    }

    method RunRetention(now: int)
      requires store.Valid()
      modifies store
      ensures store.Valid()
      ensures store.State() == AfterRetention(config, now, old(store.State()))
    {
      if config.retentionDays <= 0 {
        return;
      }
      var _ := store.DeleteEventsOlderThan(now - config.retentionDays * 86400, RETENTION_EXEMPT);
    }

    /** One message read from the connection; `rate` is what the rate limiter answers if it is asked. */
    method HandleMessage(c: Client, f: Frame, rate: RL.Verdict, now: int)
      requires store.Valid()
      requires var a := Admitted(rules.valid, c.State(), f, rate); a.Subscribe? ==> LimitOk(a.filters)
      modifies this`inFlight, store, c
      ensures store.Valid()
      ensures var a := Admitted(rules.valid, old(c.State()), f, rate);
              a.Subscribe? ==>
                && store.State() == old(store.State()) && inFlight == old(inFlight)
                && exists result ::
                     QueryResult(store.State(), rules, a.filters, result)
                     && c.State() == Answered(config, rules, now, Subscribed(old(c.State()), a.subId, a.filters), a.subId, result)
      ensures var a := Admitted(rules.valid, old(c.State()), f, rate);
              !a.Subscribe? ==>
                var h := Reacted(config, rules, now, old(store.State()), old(c.State()), a);
                && store.State() == h.store && c.State() == h.session
                && (!h.broadcast ==> inFlight == old(inFlight))
                && (h.broadcast ==> a.Handle? && inFlight == old(inFlight) + Launched(clients, a.evt))
    {
      var session := Session(c.requireAuth, c.authenticated, c.authChallenge, c.authPubKey, c.subscriptions, c.sent);
      var a := Admitted(rules.valid, session, f, rate);
      if a.Subscribe? {
        c.StoreSubscription(a.subId, a.filters);
        HandleReq(c, a.subId, a.filters, now);
      } else {
        React(c, a, now);
      }
    }
  }
}
