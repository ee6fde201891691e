/**
  From a valid event to the store: what handling each kind of event changes, and what
  a request to vanish has hidden stays hidden over whole runs.
 */
module HandlingRuns {
  import opened Events
  import opened TagCodec
  import opened MemoryStore
  import opened MemoryRuns
  import opened Deletions
  import opened Protocol
  import opened Relay
  import opened RelayRuns
  import DeliveryRuns

  /** The step takes up event e, which the gate lets through. */
  ghost predicate TakesUp(cfg: Config, rules: Rules, w: World, st: Move, w': World, e: Event) {
    st.Receive? && Next(cfg, rules, w, st, w')
    && Admitted(rules.valid, w.peers[st.p].session, st.frame, st.rate) == Handle(e)
  }

  /** No AUTH event, the sender authenticated if need be, and nothing wrong with content or kind. */
  predicate Acceptable(cfg: Config, rules: Rules, s: Session, e: Event) {
    e.kind != 22242 && (cfg.requireAuth ==> s.authenticated) && rules.policyAllows(e) && rules.kindValid(e)
  }

  ghost predicate FirstRelayNotBlank(e: Event) {
    exists i :: 0 <= i < |e.tags| && FirstNamed(e.tags, "relay", i) && TrimSpace(e.tags[i][1]) != ""
  }

  /** Some relay tag is the wildcard or the relay's own address. */
  ghost predicate NamesThisRelay(e: Event, url: string, equalFold: (string, string) -> bool) {
    exists i :: 0 <= i < |e.tags| && |e.tags[i]| >= 2 && e.tags[i][0] == "relay"
      && (TrimSpace(e.tags[i][1]) == "ALL_RELAYS" || equalFold(TrimSpace(e.tags[i][1]), url))
  }

  predicate IsKept(kind: int) {
    !(20000 <= kind <= 29999) && kind != 5 && kind != 62
  }

  /** The reader ends idle, having queued these replies. */
  predicate Ends(w: World, p: nat, w': World, replies: seq<Reply>)
    requires p in w.peers
  {
    p in w'.peers && w'.peers[p] == Peer(w.peers[p].session.(sent := w.peers[p].session.sent + replies), Idle)
  }

  function Yes(e: Event): Reply { OkReply(e.id, true, NoReason) }

  // ---------- refusals ----------

  /** A refused, an invalid and an expired event change neither the store nor the flights. */
  lemma RefusedChangesNothing(cfg: Config, rules: Rules, w: World, st: Move, w': World, e: Event)
    requires TakesUp(cfg, rules, w, st, w', e) && e.kind != 22242
    requires !Acceptable(cfg, rules, w.peers[st.p].session, e) || (e.kind == 62 && !FirstRelayNotBlank(e))
             || (!(20000 <= e.kind <= 29999) && rules.expired(e, st.now))
    ensures w'.store == w.store && w'.inFlight == w.inFlight && st.p in w'.peers && w'.peers[st.p].phase.Idle?
    ensures var sent, sent' := w.peers[st.p].session.sent, w'.peers[st.p].session.sent;
            exists r: Reply :: r.OkReply? && !r.accepted && r.id == e.id
                               && |sent'| == |sent| + 2 && sent' == sent + [r, sent'[|sent| + 1]]
  {
    ValidRequestMeans(e);
    var s := w.peers[st.p].session;
    var h := Handled(cfg, rules, st.now, w.store, s, e);
    assert h.session.sent == s.sent + [h.session.sent[|s.sent|]];
    var r := h.session.sent[|s.sent|];
    assert r.OkReply? && !r.accepted && r.id == e.id;
    var sent' := w'.peers[st.p].session.sent;
    assert sent' == s.sent + [r, sent'[|s.sent| + 1]];
  }

  lemma ValidRequestMeans(e: Event)
    ensures ValidRequest(e) <==> (e.kind == 62 ==> FirstRelayNotBlank(e))
  {
    if e.kind == 62 && FirstRelayNotBlank(e) {
      var i :| 0 <= i < |e.tags| && FirstNamed(e.tags, "relay", i) && TrimSpace(e.tags[i][1]) != "";
      var n: nat := i;
      assert FirstNamed(e.tags, "relay", n);
    }
  }

  // ---------- requests to vanish ----------

  /** A request that names this relay tombstones the author's stored ids, any other one nothing; both are answered alike. */
  lemma VanishHandled(cfg: Config, rules: Rules, w: World, st: Move, w': World, e: Event)
    requires TakesUp(cfg, rules, w, st, w', e) && Acceptable(cfg, rules, w.peers[st.p].session, e)
    requires e.kind == 62 && FirstRelayNotBlank(e) && !rules.expired(e, st.now)
    ensures w'.inFlight == w.inFlight && Ends(w, st.p, w', [OkReply(e.id, true, VanishProcessed), Yes(e)])
    ensures w'.store.events == w.store.events && w'.store.channels == w.store.channels
    ensures forall id :: id in w'.store.deleted <==>
              (id in w.store.deleted || (NamesThisRelay(e, cfg.relayURL, rules.folding.equalFold)
                                         && id in w.store.events && w.store.events[id].pubkey == e.pubkey))
  {
    ValidRequestMeans(e);
    var s := w.peers[st.p].session;
    var equalFold := rules.folding.equalFold;
    assert NamesThisRelay(e, cfg.relayURL, equalFold) <==> Applicable(e, cfg.relayURL, equalFold) by {
      NamesThisRelayMeans(e, cfg.relayURL, equalFold);
    }
    assert w'.store == AfterVanish(w.store, e, cfg.relayURL, equalFold);
    assert w'.peers[st.p].session.sent == s.sent + [OkReply(e.id, true, VanishProcessed), Yes(e)];
  }

  lemma NamesThisRelayMeans(e: Event, url: string, equalFold: (string, string) -> bool)
    ensures NamesThisRelay(e, url, equalFold) <==> AddressedHere(e, url, equalFold)
  {
    if NamesThisRelay(e, url, equalFold) {
      var i :| 0 <= i < |e.tags| && |e.tags[i]| >= 2 && e.tags[i][0] == "relay"
        && (TrimSpace(e.tags[i][1]) == "ALL_RELAYS" || equalFold(TrimSpace(e.tags[i][1]), url));
      assert IsRelayTag(e.tags[i]);
    }
  }

  /** Over whole runs: what the author had stored is hidden for ever, and no other author's event is touched. */
  lemma VanishedForEver(cfg: Config, rules: Rules, ws: seq<World>, sts: seq<Move>, i: nat, k: nat, e: Event, id: string)
    requires IsRun(cfg, rules, ws, sts) && i < |sts| && i < k < |ws| && TakesUp(cfg, rules, ws[i], sts[i], ws[i + 1], e)
    requires Acceptable(cfg, rules, ws[i].peers[sts[i].p].session, e) && e.kind == 62 && !rules.expired(e, sts[i].now)
    requires FirstRelayNotBlank(e) && NamesThisRelay(e, cfg.relayURL, rules.folding.equalFold)
    requires id in ws[i].store.events
    ensures ws[i].store.events[id].pubkey == e.pubkey ==> Hidden(ws[k].store, id)
    ensures ws[i].store.events[id].pubkey != e.pubkey ==> (IsLive(ws[i + 1].store, id) <==> IsLive(ws[i].store, id))
  {
    VanishHandled(cfg, rules, ws[i], sts[i], ws[i + 1], e);
    if ws[i].store.events[id].pubkey == e.pubkey {
      TombstonesStay(cfg, rules, ws, sts, i + 1, k);
      RunKeeps(cfg, rules, ws, sts, k);
      TombstonesAreHidden(ws[k].store, id);
    }
  }

  // ---------- deletions ----------

  /** A kind 5 event tombstones the author's named events and drops the named channels; it is not stored or sent on. */
  lemma DeletionHandled(cfg: Config, rules: Rules, w: World, st: Move, w': World, e: Event)
    requires TakesUp(cfg, rules, w, st, w', e) && Acceptable(cfg, rules, w.peers[st.p].session, e)
    requires e.kind == 5 && !rules.expired(e, st.now)
    ensures w'.inFlight == w.inFlight && Ends(w, st.p, w', [Yes(e)])
    ensures w'.store.events == w.store.events
    ensures forall id :: id in w'.store.deleted <==> id in w.store.deleted || TombstonesOwn(w.store, e, id)
    ensures forall c :: c in w'.store.channels <==> c in w.store.channels && !(c != "" && DropsChannel(w.store, e, c))
    ensures forall c :: c in w'.store.channels ==> w'.store.channels[c] == w.store.channels[c]
  {
    ValidRequestMeans(e);
    DeletionMeans(w.store, e);
    assert w'.store == AfterDeletion(w.store, e);
  }

  // ---------- events that are sent on ----------

  /** An ephemeral event goes to every connected client and is not stored. */
  lemma EphemeralIsSentOn(cfg: Config, rules: Rules, w: World, st: Move, w': World, e: Event)
    requires TakesUp(cfg, rules, w, st, w', e) && Acceptable(cfg, rules, w.peers[st.p].session, e)
    requires 20000 <= e.kind <= 29999
    ensures st.p in w'.peers
    ensures var v := Completed(w', st.p);
            && v.store == w.store && Ends(w, st.p, v, [Yes(e), Yes(e)])
            && forall f :: v.inFlight[f] == w.inFlight[f] + if f.evt == e && f.peer in w.peers then 1 else 0
  {
    ValidRequestMeans(e);
    EventAlone(cfg, rules, w, st, w');
    forall f: Flight<nat> { DeliveryRuns.LaunchCounts(w.peers.Keys, e, f); }
    TwoReplies(w.peers[st.p].session, Yes(e), Yes(e));
  }

  lemma TwoReplies(s: Session, a: Reply, b: Reply)
    ensures Say(Say(s, a), b) == s.(sent := s.sent + [a, b])
  {
    assert s.sent + [a] + [b] == s.sent + [a, b];
  }

  /** A live event of the same author and replaceable kind is newer. */
  ghost predicate Superseded(m: Memory, e: Event) {
    exists id :: id in m.events && id !in m.deleted && InSlotOf(m.events[id], e) && e.createdAt < m.events[id].createdAt
  }

  predicate InSlotOf(x: Event, e: Event) {
    (e.kind == 0 || e.kind == 3 || 10000 <= e.kind <= 19999) && x.kind == e.kind && x.pubkey == e.pubkey
  }

  /**
    An event of any other kind and of an id not known yet is stored, live, unless superseded,
    ends the lives of the events of its slot, and goes to every connected client.
   */
  lemma NewEventIsStored(cfg: Config, rules: Rules, w: World, st: Move, w': World, e: Event)
    requires TakesUp(cfg, rules, w, st, w', e) && Acceptable(cfg, rules, w.peers[st.p].session, e)
    requires IsKept(e.kind) && !rules.expired(e, st.now) && e.id !in w.store.events && e.id !in w.store.deleted
    ensures st.p in w'.peers
    ensures var v := Completed(w', st.p);
            && Ends(w, st.p, v, [Yes(e), Yes(e)])
            && (forall f :: v.inFlight[f] == w.inFlight[f] + if f.evt == e && f.peer in w.peers then 1 else 0)
            && v.store.events == (if Superseded(w.store, e) then w.store.events else w.store.events[e.id := e])
            && (forall id :: id in v.store.deleted <==>
                  (id in w.store.deleted || (!Superseded(w.store, e) && id in w.store.events && InSlotOf(w.store.events[id], e))))
  {
    ValidRequestMeans(e);
    EventAlone(cfg, rules, w, st, w');
    forall f: Flight<nat> { DeliveryRuns.LaunchCounts(w.peers.Keys, e, f); }
    TwoReplies(w.peers[st.p].session, Yes(e), Yes(e));
    SavedMeans(w.store, e);
    NewEventIsSaved(cfg, rules, st.now, w.store, w.peers[st.p].session, e);
  }

  lemma NewEventIsSaved(cfg: Config, rules: Rules, now: int, m: Memory, s: Session, e: Event)
    requires Acceptable(cfg, rules, s, e) && IsKept(e.kind) && !rules.expired(e, now)
    requires e.id !in m.events && e.id !in m.deleted
    ensures Handled(cfg, rules, now, m, s, e) == Handling(SavedAndFiled(m, e), Say(s, Yes(e)), true, false)
  {
    ValidRequestMeans(e);
  }

  lemma SavedMeans(m: Memory, e: Event)
    requires e.id !in m.deleted
    ensures Superseded(m, e) <==> HasNewerRival(m, e)
    ensures forall id :: id in Saved(m, e).deleted <==>
              (id in m.deleted || (!Superseded(m, e) && id in m.events && InSlotOf(m.events[id], e)))
  {
    if Superseded(m, e) {
      var id :| id in m.events && id !in m.deleted && InSlotOf(m.events[id], e) && e.createdAt < m.events[id].createdAt;
      assert IsLiveRival(m, e, id);
    }
  }

  /** An event of kind 40 to 44 is filed under its channel as well, and no other one is. */
  lemma ChannelEventIsFiled(cfg: Config, rules: Rules, w: World, st: Move, w': World, e: Event)
    requires TakesUp(cfg, rules, w, st, w', e) && Acceptable(cfg, rules, w.peers[st.p].session, e)
    requires IsKept(e.kind) && !rules.expired(e, st.now) && e.id !in w.store.events && e.id !in w.store.deleted
    ensures st.p in w'.peers
    ensures var v := Completed(w', st.p);
            v.store.channels == if 40 <= e.kind <= 44 then ChannelSaved(w.store, e).channels else w.store.channels
  {
    EventAlone(cfg, rules, w, st, w');
    NewEventIsSaved(cfg, rules, st.now, w.store, w.peers[st.p].session, e);
  }

  /** An event that is stored and live already is answered, and neither stored nor sent on again. */
  lemma DuplicateIsNotSentOn(cfg: Config, rules: Rules, w: World, st: Move, w': World, e: Event)
    requires TakesUp(cfg, rules, w, st, w', e) && Acceptable(cfg, rules, w.peers[st.p].session, e)
    requires IsKept(e.kind) && e.kind != 1059 && !rules.expired(e, st.now)
    requires e.id in w.store.events && e.id !in w.store.deleted
    ensures w'.store == w.store && w'.inFlight == w.inFlight
    ensures Ends(w, st.p, w', [OkReply(e.id, true, Duplicate), Yes(e)])
  {
    ValidRequestMeans(e);
    TwoReplies(w.peers[st.p].session, OkReply(e.id, true, Duplicate), Yes(e));
  }
}
